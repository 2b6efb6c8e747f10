/**
 * `USACyclingClient`: turns what the parsers and fetchers return into the package's records.
 * The parsers, the fetch layer, the date extractor, the clock and the record schemas are
 * oracles in `Env`; what is left is the client's own control flow: input validation, rows
 * dropped for missing fields, per-field defaults, per-item errors absorbed while page-level
 * errors propagate, the three-tier race discovery and the assembly of a complete event.
 */
module Client {
  import opened Outcomes
  import opened Values
  import opened Scan
  import opened Extractors
  import opened Batch
  import opened Exceptions

  // ---------------------------------------------------------------------------
  // Errors and records
  // ---------------------------------------------------------------------------

  /** What a call raises. */
  datatype Err =
    | Raised(error: Error)   // one of the package's exceptions, from a fetcher, a parser or the client
    | KeyError(key: string)  // a required key missing from a parsed mapping
    | TypeError              // a value that cannot be iterated
    | Invalid(reason: string) // a record schema refused its fields

  datatype Event = Event(
    id: Value, name: Value, permitNumber: Value, date: Value, location: Value,
    state: string, year: int, url: Value)

  datatype EventDetails = EventDetails(fields: Fields)

  datatype RaceCategory = RaceCategory(
    id: Value, name: Value, eventId: Value, discipline: Value, gender: Value,
    categoryType: Value, ageRange: Value, categoryRank: Value)

  datatype Rider = Rider(fields: Fields)

  datatype RaceResult = RaceResult(id: Value, eventId: Value, category: Value, date: Value, riders: seq<Rider>)

  /** One entry of `get_disciplines_for_event`: the `{'id', 'name', 'label'}` mapping. */
  datatype Discipline = Discipline(id: string, name: string, lbl: string)

  /** One entry of `get_races_for_permit`: the `{'id', 'discipline_id', 'discipline_name', 'name', 'permit'}` mapping. */
  datatype Race = Race(id: Value, disciplineId: string, disciplineName: string, name: Value, permit: string)

  /** What `get_complete_event_data` returns: the mapping with exactly these four keys. */
  datatype EventData = EventData(
    details: EventDetails, disciplines: seq<Discipline>,
    categories: seq<RaceCategory>, results: map<Value, RaceResult>)

  /** A result fetch to attempt: the race id and the category passed along with it, if any. */
  datatype Job = Job(raceId: Value, info: Option<RaceCategory>)

  /**
   * The world the client talks to. Each fetcher or parser returns what it parsed or what it
   * raised; a page is the list of its `<a>` elements. The permit page is fetched afresh each
   * time the client asks for it: `permitPage` is the fetch that lists the disciplines,
   * `raceLinksPage` the one tier 2 makes for race links, and `relistedPage` the one behind the
   * second listing of the disciplines when a complete event falls back on race discovery.
   */
  datatype Env = Env(
    eventList: (string, int) -> Result<seq<Fields>, Err>,
    eventDetails: string -> Result<Fields, Err>,
    permitPage: string -> Result<seq<Anchor>, Err>,
    raceLinksPage: string -> Result<seq<Anchor>, Err>,
    relistedPage: string -> Result<seq<Anchor>, Err>,
    raceCategories: (string, string) -> Result<seq<Fields>, Err>,
    raceResults: (Value, Option<RaceCategory>) -> Result<Fields, Err>,
    loadInfo: (string, string) -> Result<Value, Err>,
    extractDate: string -> Result<Value, Err>,
    today: Date,
    eventCheck: Event -> Option<string>,
    detailsCheck: Fields -> Option<string>,
    categoryCheck: RaceCategory -> Option<string>,
    riderCheck: Fields -> Option<string>,
    resultCheck: RaceResult -> Option<string>)

  // ---------------------------------------------------------------------------
  // _parse_date
  // ---------------------------------------------------------------------------

  /** A date string as the extractor reads it, or today when it reads nothing. */
  function ParseDate(env: Env, text: string): (r: Result<Value, Err>)
    ensures r.Failure? <==> env.extractDate(text).Failure?
    ensures r.Success? ==> Truthy(r.value)
    ensures r.Success? && Truthy(env.extractDate(text).value) ==> r.value == env.extractDate(text).value
    ensures r.Success? && !Truthy(env.extractDate(text).value) ==> r.value == DateV(env.today)
  {
    match env.extractDate(text)
    case Failure(e) => Failure(e)
    case Success(v) => if Truthy(v) then Success(v) else Success(DateV(env.today))
  }

  // ---------------------------------------------------------------------------
  // get_events
  // ---------------------------------------------------------------------------

  const StateMessage := "State must be a two-letter code"

  /** What `get_events` raises for a malformed state code. */
  function StateError(): Error {
    ValidationError(StateMessage, NoneV, NoneV, None, None)
  }

  /** The date a row gives its event: a string `event_date` parsed, another `event_date` as is, else `date`. */
  function EventDate(env: Env, row: Fields): Result<Value, Err> {
    if "event_date" in row then
      if row["event_date"].StrV? then ParseDate(env, row["event_date"].s) else Success(row["event_date"])
    else Success(Get(row, "date", NoneV))
  }

  /** The keyword arguments of `Event(...)` for a row. */
  function EventRecord(row: Fields, date: Value, state: string, year: int): Event
    requires "id" in row && "name" in row
  {
    Event(row["id"], row["name"], Get(row, "permit", StrV("")), date,
          Get(row, "location", StrV("Unknown")), state, year, Get(row, "permit_url", NoneV))
  }

  /** One row of the event list as an event, or `None` when the row is skipped. */
  function EventOf(env: Env, state: string, year: int, row: Fields): (r: Option<Event>)
    ensures r.Some? ==> Truthy(Get(row, "id", NoneV)) && Truthy(Get(row, "name", NoneV))
    ensures r.Some? ==> r.value.id == row["id"] && r.value.name == row["name"]
    ensures r.Some? ==> r.value.state == state && r.value.year == year
    ensures r.Some? ==> ("permit" in row ==> r.value.permitNumber == row["permit"]) && ("permit" !in row ==> r.value.permitNumber == StrV(""))
    ensures r.Some? ==> ("location" in row ==> r.value.location == row["location"]) && ("location" !in row ==> r.value.location == StrV("Unknown"))
    ensures r.Some? ==> ("permit_url" in row ==> r.value.url == row["permit_url"]) && ("permit_url" !in row ==> r.value.url == NoneV)
    ensures r.Some? && "event_date" in row && row["event_date"].StrV? ==> ParseDate(env, row["event_date"].s) == Success(r.value.date)
    ensures r.Some? && "event_date" in row && !row["event_date"].StrV? ==> r.value.date == row["event_date"]
    ensures r.Some? && "event_date" !in row ==> r.value.date == Get(row, "date", NoneV)
    ensures r.Some? ==> env.eventCheck(r.value).None?
    ensures (&& Truthy(Get(row, "id", NoneV)) && Truthy(Get(row, "name", NoneV)) && EventDate(env, row).Success?
             && env.eventCheck(EventRecord(row, EventDate(env, row).value, state, year)).None?) ==> r.Some?
  {
    if !Truthy(Get(row, "id", NoneV)) || !Truthy(Get(row, "name", NoneV)) then None
    else
      match EventDate(env, row)
      case Failure(_) => None
      case Success(date) =>
        var e := EventRecord(row, date, state, year);
        if env.eventCheck(e).None? then Some(e) else None
  }

  function EventConverter(env: Env, state: string, year: int): Fields -> Option<Event> {
    (row: Fields) => EventOf(env, state, year, row)
  }

  /**
   * `get_events(state, year)`: a state code that is not two characters long is refused before
   * anything is fetched; otherwise the rows the list parser returns become events in order,
   * each row that cannot become one being skipped.
   */
  function GetEvents(env: Env, state: string, year: int): (r: Result<seq<Event>, Err>)
    ensures |state| != 2 ==> r == Failure(Raised(StateError()))
    ensures |state| == 2 && env.eventList(state, year).Failure? ==> r == Failure(env.eventList(state, year).error)
    ensures |state| == 2 && env.eventList(state, year).Success? ==>
              r.Success? && Survivors(env.eventList(state, year).value, EventConverter(env, state, year), r.value)
    ensures r.Success? ==> forall e :: e in r.value ==> e.state == state && e.year == year && Truthy(e.id) && Truthy(e.name)
  {
    if |state| != 2 then Failure(Raised(StateError()))
    else
      match env.eventList(state, year)
      case Failure(e) => Failure(e)
      case Success(rows) =>
        CollectKeepsSurvivors(rows, EventConverter(env, state, year));
        Success(Collect(rows, EventConverter(env, state, year)))
  }

  /** The state check needs nothing from the outside world: a bad code is refused whatever the parser would do. */
  lemma StateCheckedFirst(env: Env, state: string, year: int, rows: (string, int) -> Result<seq<Fields>, Err>)
    requires |state| != 2
    ensures GetEvents(env.(eventList := rows), state, year) == GetEvents(env, state, year)
    ensures GetEvents(env, state, year).Failure? && GetEvents(env, state, year).error.Raised?
    ensures GetEvents(env, state, year).error.error.details == map[]
    ensures GetEvents(env, state, year).error.error.text == StateMessage
  {
  }

  // ---------------------------------------------------------------------------
  // get_event_details
  // ---------------------------------------------------------------------------

  /** `get_event_details(permit)`: the parsed mapping as event details; every failure propagates. */
  function GetEventDetails(env: Env, permit: string): (r: Result<EventDetails, Err>)
    ensures r.Success? <==> env.eventDetails(permit).Success? && env.detailsCheck(env.eventDetails(permit).value).None?
    ensures r.Success? ==> r.value.fields == env.eventDetails(permit).value
    ensures env.eventDetails(permit).Failure? ==> r == Failure(env.eventDetails(permit).error)
  {
    match env.eventDetails(permit)
    case Failure(e) => Failure(e)
    case Success(data) =>
      match env.detailsCheck(data)
      case Some(reason) => Failure(Invalid(reason))
      case None => Success(EventDetails(data))
  }

  // ---------------------------------------------------------------------------
  // get_race_categories
  // ---------------------------------------------------------------------------

  /** The keyword arguments of `RaceCategory(...)` for a mapping: a falsy `event_id` gives way to `info_id`. */
  function CategoryRecord(data: Fields): RaceCategory
    requires "id" in data && "name" in data
  {
    var given := Get(data, "event_id", StrV(""));
    var eventId := if !Truthy(given) && "info_id" in data then data["info_id"] else given;
    RaceCategory(data["id"], data["name"], eventId,
                 Get(data, "discipline", NoneV), Get(data, "gender", NoneV), Get(data, "category_type", NoneV),
                 Get(data, "age_range", NoneV), Get(data, "category_rank", NoneV))
  }

  /** One parsed category as a record, or `None` when it is skipped. */
  function CategoryOf(check: RaceCategory -> Option<string>, data: Fields): (r: Option<RaceCategory>)
    ensures r.Some? <==> "id" in data && "name" in data && check(CategoryRecord(data)).None?
    ensures r.Some? ==> r.value.id == data["id"] && r.value.name == data["name"] && check(r.value).None?
    ensures r.Some? && "event_id" in data && Truthy(data["event_id"]) ==> r.value.eventId == data["event_id"]
    ensures r.Some? && !Truthy(Get(data, "event_id", NoneV)) && "info_id" in data ==> r.value.eventId == data["info_id"]
    ensures r.Some? && "event_id" in data && "info_id" !in data ==> r.value.eventId == data["event_id"]
    ensures r.Some? && "event_id" !in data && "info_id" !in data ==> r.value.eventId == StrV("")
    ensures r.Some? && "gender" !in data ==> r.value.gender == NoneV
    ensures r.Some? && "gender" in data ==> r.value.gender == data["gender"]
    ensures r.Some? ==> r.value.discipline == Get(data, "discipline", NoneV)
    ensures r.Some? ==> r.value.categoryType == Get(data, "category_type", NoneV)
    ensures r.Some? ==> r.value.ageRange == Get(data, "age_range", NoneV)
    ensures r.Some? ==> r.value.categoryRank == Get(data, "category_rank", NoneV)
  {
    if "id" in data && "name" in data && check(CategoryRecord(data)).None? then Some(CategoryRecord(data)) else None
  }

  function CategoryConverter(check: RaceCategory -> Option<string>): Fields -> Option<RaceCategory> {
    (data: Fields) => CategoryOf(check, data)
  }

  /** `get_race_categories(info_id, label)`: the parsed categories that make records, in order. */
  function GetRaceCategories(env: Env, infoId: string, lbl: string): (r: Result<seq<RaceCategory>, Err>)
    ensures env.raceCategories(infoId, lbl).Failure? ==> r == Failure(env.raceCategories(infoId, lbl).error)
    ensures env.raceCategories(infoId, lbl).Success? ==>
              r.Success? && Survivors(env.raceCategories(infoId, lbl).value, CategoryConverter(env.categoryCheck), r.value)
  {
    match env.raceCategories(infoId, lbl)
    case Failure(e) => Failure(e)
    case Success(rows) =>
      CollectKeepsSurvivors(rows, CategoryConverter(env.categoryCheck));
      Success(Collect(rows, CategoryConverter(env.categoryCheck)))
  }

  // ---------------------------------------------------------------------------
  // get_race_results
  // ---------------------------------------------------------------------------

  /** One raw rider row as a rider; a row that is not a mapping cannot be unpacked into one. */
  function RiderOf(check: Fields -> Option<string>, row: Value): (r: Option<Rider>)
    ensures r.Some? <==> row.DictV? && check(row.entries).None?
    ensures r.Some? ==> r.value.fields == row.entries
  {
    if row.DictV? && check(row.entries).None? then Some(Rider(row.entries)) else None
  }

  function RiderConverter(check: Fields -> Option<string>): Value -> Option<Rider> {
    (row: Value) => RiderOf(check, row)
  }

  /**
   * The riders of `race_data.get('riders', [])`. A list gives its rows; a string or a mapping
   * iterates into strings, none of which unpacks into a rider; anything else cannot be
   * iterated and raises outside the per-rider handler.
   */
  function RidersOf(check: Fields -> Option<string>, riders: Value): (r: Result<seq<Rider>, Err>)
    ensures r.Failure? <==> !(riders.ListV? || riders.StrV? || riders.DictV?)
    ensures r.Failure? ==> r.error == TypeError
    ensures riders.ListV? ==> Survivors(riders.items, RiderConverter(check), r.value)
    ensures riders.StrV? || riders.DictV? ==> r.value == []
  {
    match riders
    case ListV(rows) =>
      CollectKeepsSurvivors(rows, RiderConverter(check));
      Success(Collect(rows, RiderConverter(check)))
    case StrV(_) => Success([])
    case DictV(_) => Success([])
    case _ => Failure(TypeError)
  }

  /** The event id a result gets: its own `event_id` when truthy, else its `id`. */
  function ResultEventId(data: Fields): (v: Value)
    requires Truthy(Get(data, "event_id", NoneV)) || "id" in data
  {
    if Truthy(Get(data, "event_id", NoneV)) then data["event_id"] else data["id"]
  }

  /** The date a result gets: its own `date` when truthy, else today. */
  function ResultDate(env: Env, data: Fields): (v: Value)
    ensures Truthy(v)
  {
    if Truthy(Get(data, "date", NoneV)) then data["date"] else DateV(env.today)
  }

  /** What a successful `get_race_results` returns for the parsed mapping `data`. */
  ghost predicate ResultFrom(env: Env, data: Fields, rr: RaceResult) {
    && "id" in data && "category" in data
    && rr.id == data["id"] && rr.category == data["category"]
    && (Truthy(Get(data, "event_id", NoneV)) ==> rr.eventId == data["event_id"])
    && (!Truthy(Get(data, "event_id", NoneV)) ==> rr.eventId == data["id"])
    && (Truthy(Get(data, "date", NoneV)) ==> rr.date == data["date"])
    && (!Truthy(Get(data, "date", NoneV)) ==> rr.date == DateV(env.today))
    && RidersOf(env.riderCheck, Get(data, "riders", ListV([]))) == Success(rr.riders)
    && env.resultCheck(rr).None?
  }

  /**
   * `get_race_results(race_id, category_info)`: the parsed mapping with `event_id` and `date`
   * filled in when falsy, its riders converted one by one, as a result record. A missing `id`
   * or `category` is an error, never a default.
   */
  function GetRaceResults(env: Env, raceId: Value, info: Option<RaceCategory>): (r: Result<RaceResult, Err>)
    ensures env.raceResults(raceId, info).Failure? ==> r == Failure(env.raceResults(raceId, info).error)
    ensures env.raceResults(raceId, info).Success? && "id" !in env.raceResults(raceId, info).value ==> r.Failure?
    ensures env.raceResults(raceId, info).Success? && "category" !in env.raceResults(raceId, info).value ==> r.Failure?
    ensures (&& env.raceResults(raceId, info).Success? && "id" !in env.raceResults(raceId, info).value
             && !Truthy(Get(env.raceResults(raceId, info).value, "event_id", NoneV))) ==> r == Failure(KeyError("id"))
    ensures r.Success? ==> env.raceResults(raceId, info).Success? && ResultFrom(env, env.raceResults(raceId, info).value, r.value)
    ensures r.Success? ==> Truthy(r.value.date)
    ensures env.raceResults(raceId, info).Success? ==>
              var data := env.raceResults(raceId, info).value;
              "id" in data && "category" in data && RidersOf(env.riderCheck, Get(data, "riders", ListV([]))).Success?
              && env.resultCheck(RaceResult(data["id"], ResultEventId(data), data["category"], ResultDate(env, data),
                                            RidersOf(env.riderCheck, Get(data, "riders", ListV([]))).value)).None?
              ==> r.Success?
  {
    match env.raceResults(raceId, info)
    case Failure(e) => Failure(e)
    case Success(data) =>
      if !Truthy(Get(data, "event_id", NoneV)) && "id" !in data then Failure(KeyError("id"))
      else
        match RidersOf(env.riderCheck, Get(data, "riders", ListV([])))
        case Failure(e) => Failure(e)
        case Success(riders) =>
          if "id" !in data then Failure(KeyError("id"))
          else if "category" !in data then Failure(KeyError("category"))
          else
            var rr := RaceResult(data["id"], ResultEventId(data), data["category"], ResultDate(env, data), riders);
            match env.resultCheck(rr)
            case Some(reason) => Failure(Invalid(reason))
            case None => Success(rr)
  }

  // ---------------------------------------------------------------------------
  // get_disciplines_for_event
  // ---------------------------------------------------------------------------

  /**
   * One link of the permit page as a discipline: only links whose `onclick` starts with
   * `loadInfoID` and holds `loadInfoID(<digits>` give one.
   */
  function DisciplineOf(a: Anchor): (r: Option<Discipline>)
    ensures r.Some? <==> IsLoaderLink(a) && exists i: nat, d :: DigitGroupMatch(a.onclick.value, InfoCall, i, d)
    ensures r.Some? ==> exists i: nat :: FirstDigitGroupMatch(a.onclick.value, InfoCall, i, r.value.id)
    ensures r.Some? ==> r.value.lbl == "" || exists i: nat :: FirstLabelMatch(a.onclick.value, i, r.value.lbl)
    ensures r.Some? && r.value.lbl == "" ==> forall i: nat, l :: !LabelMatch(a.onclick.value, i, l)
    ensures r.Some? ==> QuoteFree(r.value.lbl)
    ensures r.Some? ==> |r.value.id| > 0 && AllDigits(r.value.id)
    ensures r.Some? ==> r.value.name == StripTrailingDate(a.text)
  {
    if !IsLoaderLink(a) then None
    else
      var onclick := a.onclick.value;
      match InfoId(onclick)
      case None => None
      case Some(id) =>
        var lbl := Label(onclick).GetOr("");
        Some(Discipline(id, StripTrailingDate(a.text), lbl))
  }

  /** `get_disciplines_for_event(permit)`: the links of the permit page that name a discipline, in page order. */
  function GetDisciplinesForEvent(env: Env, permit: string): (r: Result<seq<Discipline>, Err>)
    ensures env.permitPage(permit).Failure? ==> r == Failure(env.permitPage(permit).error)
    ensures env.permitPage(permit).Success? ==> r.Success? && Survivors(env.permitPage(permit).value, DisciplineOf, r.value)
    ensures r.Success? ==> forall d :: d in r.value ==> |d.id| > 0 && AllDigits(d.id) && QuoteFree(d.lbl)
  {
    match env.permitPage(permit)
    case Failure(e) => Failure(e)
    case Success(links) =>
      CollectKeepsSurvivors(links, DisciplineOf);
      DisciplinesWellFormed(links);
      var ds := Collect(links, DisciplineOf);
      Success(ds)
  }

  /** Every discipline a page yields has a digit id and a quote-free label. */
  lemma DisciplinesWellFormed(links: seq<Anchor>)
    ensures forall d :: d in Collect(links, DisciplineOf) ==> |d.id| > 0 && AllDigits(d.id) && QuoteFree(d.lbl)
  {
    forall d | d in Collect(links, DisciplineOf) ensures |d.id| > 0 && AllDigits(d.id) && QuoteFree(d.lbl) {
      var i :| 0 <= i < |links| && DisciplineOf(links[i]) == Some(d);
    }
  }

  // ---------------------------------------------------------------------------
  // get_races_for_permit
  // ---------------------------------------------------------------------------

  /** A discipline with a truthy id and label; the others are skipped in every tier. */
  predicate Eligible(d: Discipline) {
    |d.id| > 0 && |d.lbl| > 0
  }

  /** `race` was found for discipline `d` of the permit: it carries their ids and a truthy race id. */
  predicate BelongsTo(race: Race, d: Discipline, permit: string) {
    && race.disciplineId == d.id && race.disciplineName == d.name
    && race.permit == permit && Truthy(race.id)
  }

  /** Tier 1: a category with a truthy id is a race. */
  function CategoryRace(d: Discipline, permit: string): RaceCategory -> Option<Race> {
    (c: RaceCategory) => if Truthy(c.id) then Some(Race(c.id, d.id, d.name, c.name, permit)) else None
  }

  /** Tier 2: a link whose `onclick` mentions the discipline id and holds `race_<digits>` is a race. */
  function LinkRace(d: Discipline, permit: string): Anchor -> Option<Race> {
    (a: Anchor) =>
      if MentionsId(a, d.id) && RaceId(a.onclick.value).Some? then
        Some(Race(StrV(RaceId(a.onclick.value).value), d.id, d.name, StrV(a.text), permit))
      else None
  }

  /** A race tier 2 reports has the digits of the first `race_<digits>` in the link as its id. */
  lemma LinkRaceId(d: Discipline, permit: string, a: Anchor)
    requires LinkRace(d, permit)(a).Some?
    ensures MentionsId(a, d.id)
    ensures var id := LinkRace(d, permit)(a).value.id;
            id.StrV? && exists i: nat :: FirstDigitGroupMatch(a.onclick.value, RaceToken, i, id.s)
    ensures BelongsTo(LinkRace(d, permit)(a).value, d, permit)
  {
    var rid := RaceId(a.onclick.value).value;
    var i: nat :| FirstDigitGroupMatch(a.onclick.value, RaceToken, i, rid);
  }

  /**
   * Tiers 1 and 2 for one discipline: its categories' races, or, only when the category
   * lookup raised, the race links the permit page holds for it; a failing re-fetch gives none.
   */
  function PrimaryRaces(env: Env, permit: string, d: Discipline): (rs: seq<Race>)
    ensures !Eligible(d) ==> rs == []
    ensures forall race :: race in rs ==> BelongsTo(race, d, permit)
    ensures Eligible(d) && GetRaceCategories(env, d.id, d.lbl).Success? ==>
              Survivors(GetRaceCategories(env, d.id, d.lbl).value, CategoryRace(d, permit), rs)
    ensures Eligible(d) && GetRaceCategories(env, d.id, d.lbl).Failure? && env.raceLinksPage(permit).Success? ==>
              Survivors(env.raceLinksPage(permit).value, LinkRace(d, permit), rs)
    ensures Eligible(d) && GetRaceCategories(env, d.id, d.lbl).Failure? && env.raceLinksPage(permit).Failure? ==> rs == []
  {
    if !Eligible(d) then []
    else
      match GetRaceCategories(env, d.id, d.lbl)
      case Success(cats) =>
        CollectKeepsSurvivors(cats, CategoryRace(d, permit));
        Collect(cats, CategoryRace(d, permit))
      case Failure(_) =>
        match env.raceLinksPage(permit)
        case Failure(_) => []
        case Success(links) =>
          CollectKeepsSurvivors(links, LinkRace(d, permit));
          LinkRacesBelong(d, permit, links);
          Collect(links, LinkRace(d, permit))
  }

  lemma LinkRacesBelong(d: Discipline, permit: string, links: seq<Anchor>)
    ensures forall race :: race in Collect(links, LinkRace(d, permit)) ==> BelongsTo(race, d, permit)
  {
    forall race | race in Collect(links, LinkRace(d, permit)) ensures BelongsTo(race, d, permit) {
      var i :| 0 <= i < |links| && LinkRace(d, permit)(links[i]) == Some(race);
      LinkRaceId(d, permit, links[i]);
    }
  }

  /** Tier 3 on one entry of a `categories` list: a mapping with a truthy `id` is a race. */
  function ItemRace(d: Discipline, permit: string): Value -> Option<Race> {
    (v: Value) =>
      if v.DictV? && Truthy(Get(v.entries, "id", NoneV)) then
        Some(Race(Get(v.entries, "id", NoneV), d.id, d.name, Get(v.entries, "name", StrV("")), permit))
      else None
  }

  /** How many entries come before the first one that is not a mapping (`cat.get` raises on it). */
  function LeadingMappings(items: seq<Value>): (k: nat)
    ensures k <= |items|
    ensures forall i :: 0 <= i < k ==> items[i].DictV?
    ensures k < |items| ==> !items[k].DictV?
    decreases |items|
  {
    if |items| == 0 || !items[0].DictV? then 0
    else
      assert forall i :: 1 <= i < |items| ==> items[1..][i - 1] == items[i];
      1 + LeadingMappings(items[1..])
  }

  /**
   * Tier 3 over the `categories` list of a load-info payload, item by item: each mapping with a
   * truthy `id` is a race; the first item that is not a mapping ends the scan, keeping what came
   * before. The races are exactly those `ItemRace` accepts among the leading mappings, in order.
   */
  function ItemRaces(d: Discipline, items: seq<Value>, permit: string): (rs: seq<Race>)
    ensures rs == Collect(items[..LeadingMappings(items)], ItemRace(d, permit))
    ensures forall race :: race in rs ==> BelongsTo(race, d, permit)
    ensures |rs| <= |items|
    decreases |items|
  {
    if |items| == 0 || !items[0].DictV? then []
    else
      var entries := items[0].entries;
      var id := Get(entries, "id", NoneV);
      var rest := ItemRaces(d, items[1..], permit);
      var lead := items[..LeadingMappings(items)];
      assert lead[0] == items[0];
      assert lead[1..] == items[1..][..LeadingMappings(items[1..])];
      if Truthy(id) then [Race(id, d.id, d.name, Get(entries, "name", StrV("")), permit)] + rest else rest
  }

  /** The scan of tier 3 stops at the first item that is not a mapping. */
  lemma {:induction false} ItemRacesStopAtNonMapping(d: Discipline, items: seq<Value>, permit: string, k: nat)
    requires k < |items| && !items[k].DictV?
    ensures ItemRaces(d, items, permit) == ItemRaces(d, items[..k], permit)
    decreases k
  {
    if k > 0 {
      assert items[1..][k - 1] == items[k];
      ItemRacesStopAtNonMapping(d, items[1..], permit, k - 1);
      assert items[..k][1..] == items[1..][..k - 1];
    }
  }

  /** When every item is a mapping with a truthy id, tier 3 reports one race per item, in order. */
  lemma {:induction false} ItemRacesOnePerItem(d: Discipline, items: seq<Value>, permit: string)
    requires forall i :: 0 <= i < |items| ==> items[i].DictV? && Truthy(Get(items[i].entries, "id", NoneV))
    ensures |ItemRaces(d, items, permit)| == |items|
    ensures forall i :: 0 <= i < |items| ==> ItemRaces(d, items, permit)[i].id == Get(items[i].entries, "id", NoneV)
    decreases |items|
  {
    if |items| > 0 {
      ItemRacesOnePerItem(d, items[1..], permit);
      var entries := items[0].entries;
      var id := Get(entries, "id", NoneV);
      assert ItemRaces(d, items, permit) == [Race(id, d.id, d.name, Get(entries, "name", StrV("")), permit)] + ItemRaces(d, items[1..], permit);
      assert forall i :: 1 <= i < |items| ==> items[1..][i - 1] == items[i];
    }
  }

  /** Tier 3 for one discipline: the races in its load-info payload, when that is a mapping with a `categories` list. */
  function InfoRaces(env: Env, permit: string, d: Discipline): (rs: seq<Race>)
    ensures !Eligible(d) ==> rs == []
    ensures forall race :: race in rs ==> BelongsTo(race, d, permit)
    ensures rs != [] ==> (&& env.loadInfo(d.id, d.lbl).Success?
                          && env.loadInfo(d.id, d.lbl).value.DictV?
                          && "categories" in env.loadInfo(d.id, d.lbl).value.entries
                          && env.loadInfo(d.id, d.lbl).value.entries["categories"].ListV?)
    ensures (&& Eligible(d) && env.loadInfo(d.id, d.lbl).Success? && env.loadInfo(d.id, d.lbl).value.DictV?
             && "categories" in env.loadInfo(d.id, d.lbl).value.entries
             && env.loadInfo(d.id, d.lbl).value.entries["categories"].ListV?) ==>
              var items := env.loadInfo(d.id, d.lbl).value.entries["categories"].items;
              Survivors(items[..LeadingMappings(items)], ItemRace(d, permit), rs)
  {
    if !Eligible(d) then []
    else
      match env.loadInfo(d.id, d.lbl)
      case Success(DictV(payload)) =>
        if "categories" in payload && payload["categories"].ListV? then
          var items := payload["categories"].items;
          CollectKeepsSurvivors(items[..LeadingMappings(items)], ItemRace(d, permit));
          ItemRaces(d, items, permit)
        else []
      case _ => []
  }

  function PrimaryOf(env: Env, permit: string): Discipline -> seq<Race> {
    (d: Discipline) => PrimaryRaces(env, permit, d)
  }

  function InfoOf(env: Env, permit: string): Discipline -> seq<Race> {
    (d: Discipline) => InfoRaces(env, permit, d)
  }

  /**
   * `get_races_for_permit(permit)`: tiers 1 and 2 over the disciplines in order, and tier 3
   * only when they found no race at all. Only a failure to list the disciplines propagates.
   */
  function GetRacesForPermit(env: Env, permit: string): (r: Result<seq<Race>, Err>)
    ensures r.Success? <==> GetDisciplinesForEvent(env, permit).Success?
    ensures r.Failure? ==> r.error == GetDisciplinesForEvent(env, permit).error
    ensures r.Success? ==> forall race :: race in r.value ==>
              exists d :: d in GetDisciplinesForEvent(env, permit).value && Eligible(d) && BelongsTo(race, d, permit)
    ensures r.Success? && (exists d :: d in GetDisciplinesForEvent(env, permit).value && PrimaryRaces(env, permit, d) != []) ==>
              r.value == FlatMap(GetDisciplinesForEvent(env, permit).value, PrimaryOf(env, permit))
    ensures r.Success? && (forall d :: d in GetDisciplinesForEvent(env, permit).value ==> PrimaryRaces(env, permit, d) == []) ==>
              r.value == FlatMap(GetDisciplinesForEvent(env, permit).value, InfoOf(env, permit))
  {
    match GetDisciplinesForEvent(env, permit)
    case Failure(e) => Failure(e)
    case Success(ds) =>
      var primary := FlatMap(ds, PrimaryOf(env, permit));
      var races := if |primary| > 0 then primary else FlatMap(ds, InfoOf(env, permit));
      RacesBelong(env, permit, ds);
      Success(races)
  }

  lemma RacesBelong(env: Env, permit: string, ds: seq<Discipline>)
    ensures forall race :: race in FlatMap(ds, PrimaryOf(env, permit)) ==> exists d :: d in ds && Eligible(d) && BelongsTo(race, d, permit)
    ensures forall race :: race in FlatMap(ds, InfoOf(env, permit)) ==> exists d :: d in ds && Eligible(d) && BelongsTo(race, d, permit)
    ensures FlatMap(ds, PrimaryOf(env, permit)) == [] <==> forall d :: d in ds ==> PrimaryRaces(env, permit, d) == []
  {
    forall race | race in FlatMap(ds, PrimaryOf(env, permit)) ensures exists d :: d in ds && Eligible(d) && BelongsTo(race, d, permit) {
      var i :| 0 <= i < |ds| && race in PrimaryOf(env, permit)(ds[i]);
      assert ds[i] in ds;
    }
    forall race | race in FlatMap(ds, InfoOf(env, permit)) ensures exists d :: d in ds && Eligible(d) && BelongsTo(race, d, permit) {
      var i :| 0 <= i < |ds| && race in InfoOf(env, permit)(ds[i]);
      assert ds[i] in ds;
    }
  }

  // ---------------------------------------------------------------------------
  // get_complete_event_data
  // ---------------------------------------------------------------------------

  /** The categories collected for one discipline: none when it is skipped or its lookup raises. */
  function CategoriesFor(env: Env, d: Discipline): (cs: seq<RaceCategory>)
    ensures !Eligible(d) || GetRaceCategories(env, d.id, d.lbl).Failure? ==> cs == []
    ensures Eligible(d) && GetRaceCategories(env, d.id, d.lbl).Success? ==> cs == GetRaceCategories(env, d.id, d.lbl).value
  {
    if Eligible(d) then GetRaceCategories(env, d.id, d.lbl).ToOption().GetOr([]) else []
  }

  function CategoriesOf(env: Env): Discipline -> seq<RaceCategory> {
    (d: Discipline) => CategoriesFor(env, d)
  }

  /** A category with a truthy id is fetched with itself as the category information. */
  function CategoryJob(c: RaceCategory): Option<Job> {
    if Truthy(c.id) then Some(Job(c.id, Some(c))) else None
  }

  /** A race with a truthy id is fetched without category information. */
  function RaceJob(race: Race): Option<Job> {
    if Truthy(race.id) then Some(Job(race.id, None)) else None
  }

  /** The result a job's fetch stores: a successful fetch under a hashable id. */
  function Stored(env: Env, job: Job): Option<RaceResult> {
    if Hashable(job.raceId) then GetRaceResults(env, job.raceId, job.info).ToOption() else None
  }

  /** The key a job's result is stored under in the results dictionary: its race id. */
  function JobKey(): Job -> Value {
    (job: Job) => job.raceId
  }

  function StoredBy(env: Env): Job -> Option<RaceResult> {
    (job: Job) => Stored(env, job)
  }

  /**
   * The results dictionary after running the jobs in order: a failing fetch is skipped, and a
   * later success under the same id replaces an earlier one.
   */
  function FetchResults(env: Env, jobs: seq<Job>): (m: map<Value, RaceResult>)
    ensures forall k :: k in m ==> exists i :: LastAccepted(jobs, JobKey(), StoredBy(env), k, i) && Stored(env, jobs[i]) == Some(m[k])
    ensures forall i :: 0 <= i < |jobs| && Stored(env, jobs[i]).Some? ==> jobs[i].raceId in m
  {
    Tabulate(jobs, JobKey(), StoredBy(env))
  }

  /** The result jobs for a list of categories, in order. */
  function CategoryJobs(cs: seq<RaceCategory>): (jobs: seq<Job>)
    ensures Survivors(cs, CategoryJob, jobs)
    ensures forall j :: j in jobs ==> Truthy(j.raceId) && exists c :: c in cs && c.id == j.raceId
  {
    CategoryJobsFrom(cs);
    CollectKeepsSurvivors(cs, CategoryJob);
    Collect(cs, CategoryJob)
  }

  /** The result jobs for a list of races, in order. */
  function RaceJobs(races: seq<Race>): (jobs: seq<Job>)
    ensures Survivors(races, RaceJob, jobs)
    ensures forall j :: j in jobs ==> Truthy(j.raceId) && exists race :: race in races && race.id == j.raceId
  {
    RaceJobsFrom(races);
    CollectKeepsSurvivors(races, RaceJob);
    Collect(races, RaceJob)
  }

  lemma CategoryJobsFrom(cs: seq<RaceCategory>)
    ensures forall j :: j in Collect(cs, CategoryJob) ==> Truthy(j.raceId) && exists c :: c in cs && c.id == j.raceId
  {
    forall j | j in Collect(cs, CategoryJob) ensures Truthy(j.raceId) && exists c :: c in cs && c.id == j.raceId {
      var i :| 0 <= i < |cs| && CategoryJob(cs[i]) == Some(j);
      assert cs[i] in cs;
    }
  }

  lemma RaceJobsFrom(races: seq<Race>)
    ensures forall j :: j in Collect(races, RaceJob) ==> Truthy(j.raceId) && exists race :: race in races && race.id == j.raceId
  {
    forall j | j in Collect(races, RaceJob) ensures Truthy(j.raceId) && exists race :: race in races && race.id == j.raceId {
      var i :| 0 <= i < |races| && RaceJob(races[i]) == Some(j);
      assert races[i] in races;
    }
  }

  /** Every key of the results dictionary is the id of one of the jobs that were run. */
  lemma ResultKeysFromJobs(env: Env, jobs: seq<Job>)
    ensures forall k :: k in FetchResults(env, jobs) ==> Hashable(k) && exists i :: 0 <= i < |jobs| && jobs[i].raceId == k
  {
    forall k | k in FetchResults(env, jobs) ensures Hashable(k) && exists i :: 0 <= i < |jobs| && jobs[i].raceId == k {
      var i :| LastAccepted(jobs, JobKey(), StoredBy(env), k, i) && Stored(env, jobs[i]) == Some(FetchResults(env, jobs)[k]);
    }
  }

  /**
   * `m` holds, under each key, what the job of a category with that id stores, and every
   * category whose job stores something leaves its key: failures are skipped, the rest kept.
   */
  ghost predicate FilledFromCategories<V>(cs: seq<RaceCategory>, val: Job -> Option<V>, m: map<Value, V>) {
    && (forall k :: k in m ==> exists c :: c in cs && c.id == k && val(Job(k, Some(c))) == Some(m[k]))
    && (forall c :: c in cs && Truthy(c.id) && val(Job(c.id, Some(c))).Some? ==> c.id in m)
  }

  /** `m` holds, under each key, what the id's job stores, and every race whose job stores something leaves its key. */
  ghost predicate FilledFromRaces<V>(races: seq<Race>, val: Job -> Option<V>, m: map<Value, V>) {
    && (forall k :: k in m ==> val(Job(k, None)) == Some(m[k]))
    && (forall race :: race in races && Truthy(race.id) && val(Job(race.id, None)).Some? ==> race.id in m)
  }

  /** Filling a dictionary from the categories' jobs, whatever a job stores. */
  lemma CategoryTabulate<V>(cs: seq<RaceCategory>, val: Job -> Option<V>)
    ensures FilledFromCategories(cs, val, Tabulate(Collect(cs, CategoryJob), JobKey(), val))
  {
    var m := Tabulate(Collect(cs, CategoryJob), JobKey(), val);
    forall k | k in m ensures exists c :: c in cs && c.id == k && val(Job(k, Some(c))) == Some(m[k]) {
      TabulateCollectedKey(cs, CategoryJob, JobKey(), val, k);
      var x :| (&& 0 <= x < |cs| && CategoryJob(cs[x]).Some?
                && JobKey()(CategoryJob(cs[x]).value) == k && val(CategoryJob(cs[x]).value) == Some(m[k]));
      assert cs[x] in cs;
    }
    forall c | c in cs && Truthy(c.id) && val(Job(c.id, Some(c))).Some? ensures c.id in m {
      var x :| 0 <= x < |cs| && cs[x] == c;
      assert CategoryJob(cs[x]) == Some(Job(c.id, Some(c)));
      TabulateCollectedCovers(cs, CategoryJob, JobKey(), val, x);
    }
    assert FilledFromCategories(cs, val, m);
  }

  /** Filling a dictionary from the races' jobs, whatever a job stores. */
  lemma RaceTabulate<V>(races: seq<Race>, val: Job -> Option<V>)
    ensures FilledFromRaces(races, val, Tabulate(Collect(races, RaceJob), JobKey(), val))
  {
    var m := Tabulate(Collect(races, RaceJob), JobKey(), val);
    forall k | k in m ensures val(Job(k, None)) == Some(m[k]) {
      TabulateCollectedKey(races, RaceJob, JobKey(), val, k);
      var x :| (&& 0 <= x < |races| && RaceJob(races[x]).Some?
                && JobKey()(RaceJob(races[x]).value) == k && val(RaceJob(races[x]).value) == Some(m[k]));
    }
    forall race | race in races && Truthy(race.id) && val(Job(race.id, None)).Some? ensures race.id in m {
      var x :| 0 <= x < |races| && races[x] == race;
      assert RaceJob(races[x]) == Some(Job(race.id, None));
      TabulateCollectedCovers(races, RaceJob, JobKey(), val, x);
    }
    assert FilledFromRaces(races, val, m);
  }

  /**
   * The results of the categories' races: keys are truthy, hashable category ids, each holding a
   * successful fetch for a category with that id; a failing fetch is skipped and every category
   * whose fetch succeeds under a truthy id leaves its key.
   */
  function CategoryResults(env: Env, categories: seq<RaceCategory>): (m: map<Value, RaceResult>)
    ensures forall k :: k in m ==> Hashable(k) && Truthy(k) && exists c :: c in categories && c.id == k
    ensures FilledFromCategories(categories, StoredBy(env), m)
    ensures m == FetchResults(env, CategoryJobs(categories))
  {
    var jobs := Collect(categories, CategoryJob);
    assert jobs == CategoryJobs(categories);
    CategoryJobsFrom(categories);
    ResultKeysFromJobs(env, jobs);
    CategoryTabulate(categories, StoredBy(env));
    FetchResults(env, jobs)
  }

  /**
   * The results of discovered races: keys are truthy, hashable race ids, each holding a
   * successful fetch for that id; a failing fetch is skipped and every race whose fetch succeeds
   * under a truthy id leaves its key.
   */
  function RaceResults(env: Env, races: seq<Race>): (m: map<Value, RaceResult>)
    ensures forall k :: k in m ==> Hashable(k) && Truthy(k) && exists race :: race in races && race.id == k
    ensures FilledFromRaces(races, StoredBy(env), m)
    ensures m == FetchResults(env, RaceJobs(races))
  {
    var jobs := Collect(races, RaceJob);
    assert jobs == RaceJobs(races);
    RaceJobsFrom(races);
    ResultKeysFromJobs(env, jobs);
    RaceTabulate(races, StoredBy(env));
    FetchResults(env, jobs)
  }

  /** The world as race discovery sees it when a complete event falls back on it: the disciplines are listed again. */
  function Relisted(env: Env): (other: Env)
    ensures other.permitPage == env.relistedPage
  {
    env.(permitPage := env.relistedPage)
  }

  /**
   * The results dictionary of a complete event: empty unless asked for; the results of the
   * categories' races when there are categories, else of the races that race discovery finds
   * after listing the disciplines again. A failure of that discovery propagates.
   */
  function EventResults(env: Env, permit: string, categories: seq<RaceCategory>, includeResults: bool): (r: Result<map<Value, RaceResult>, Err>)
    ensures r.Failure? <==> includeResults && categories == [] && GetRacesForPermit(Relisted(env), permit).Failure?
    ensures r.Failure? ==> r.error == env.relistedPage(permit).error
    ensures r.Success? && !includeResults ==> r.value == map[]
    ensures r.Success? ==> forall k :: k in r.value ==> Hashable(k) && Truthy(k)
    ensures includeResults && categories != [] ==> r == Success(FetchResults(env, CategoryJobs(categories)))
    ensures r.Success? && includeResults && categories != [] ==> FilledFromCategories(categories, StoredBy(env), r.value)
    ensures r.Success? && includeResults && categories == [] ==>
              r.value == FetchResults(env, RaceJobs(GetRacesForPermit(Relisted(env), permit).value))
    ensures r.Success? && includeResults && categories == [] ==>
              FilledFromRaces(GetRacesForPermit(Relisted(env), permit).value, StoredBy(env), r.value)
    ensures r.Success? && categories != [] ==> forall k :: k in r.value ==> exists c :: c in categories && c.id == k
    ensures r.Success? && categories == [] && includeResults ==>
              forall k :: k in r.value ==> exists race :: race in GetRacesForPermit(Relisted(env), permit).value && race.id == k
  {
    if !includeResults then Success(map[])
    else if |categories| > 0 then Success(CategoryResults(env, categories))
    else
      match GetRacesForPermit(Relisted(env), permit)
      case Failure(e) => Failure(e)
      case Success(races) => Success(RaceResults(env, races))
  }

  /**
   * `get_complete_event_data(permit, include_results)`: details and disciplines, whose failures
   * propagate; the categories of every eligible discipline whose lookup succeeds; and the
   * results dictionary. Per-discipline and per-race failures are skipped; when results are
   * asked for and no category was found, a failure to list the disciplines again propagates.
   */
  function GetCompleteEventData(env: Env, permit: string, includeResults: bool): (r: Result<EventData, Err>)
    ensures r.Failure? <==> (|| GetEventDetails(env, permit).Failure? || GetDisciplinesForEvent(env, permit).Failure?
                             || (&& includeResults && FlatMap(GetDisciplinesForEvent(env, permit).value, CategoriesOf(env)) == []
                                 && env.relistedPage(permit).Failure?))
    ensures GetEventDetails(env, permit).Failure? ==> r == Failure(GetEventDetails(env, permit).error)
    ensures GetEventDetails(env, permit).Success? && GetDisciplinesForEvent(env, permit).Failure? ==>
              r == Failure(GetDisciplinesForEvent(env, permit).error)
    ensures (&& GetEventDetails(env, permit).Success? && GetDisciplinesForEvent(env, permit).Success?
             && includeResults && FlatMap(GetDisciplinesForEvent(env, permit).value, CategoriesOf(env)) == []
             && env.relistedPage(permit).Failure?) ==> r == Failure(env.relistedPage(permit).error)
    ensures r.Success? ==> r.value.details == GetEventDetails(env, permit).value
    ensures r.Success? ==> r.value.disciplines == GetDisciplinesForEvent(env, permit).value
    ensures r.Success? ==> r.value.categories == FlatMap(r.value.disciplines, CategoriesOf(env))
    ensures r.Success? && !includeResults ==> r.value.results == map[]
    ensures r.Success? ==> forall k :: k in r.value.results ==> Hashable(k) && Truthy(k)
    ensures r.Success? && includeResults && r.value.categories != [] ==>
              r.value.results == FetchResults(env, CategoryJobs(r.value.categories))
    ensures r.Success? && includeResults && r.value.categories != [] ==>
              FilledFromCategories(r.value.categories, StoredBy(env), r.value.results)
    ensures r.Success? && includeResults && r.value.categories == [] ==>
              && GetRacesForPermit(Relisted(env), permit).Success?
              && r.value.results == FetchResults(env, RaceJobs(GetRacesForPermit(Relisted(env), permit).value))
              && FilledFromRaces(GetRacesForPermit(Relisted(env), permit).value, StoredBy(env), r.value.results)
  {
    match GetEventDetails(env, permit)
    case Failure(e) => Failure(e)
    case Success(details) =>
      match GetDisciplinesForEvent(env, permit)
      case Failure(e) => Failure(e)
      case Success(ds) =>
        var categories := FlatMap(ds, CategoriesOf(env));
        assert GetDisciplinesForEvent(Relisted(env), permit).Failure? <==> env.relistedPage(permit).Failure?;
        match EventResults(env, permit, categories, includeResults)
        case Failure(e) => Failure(e)
        case Success(results) => Success(EventData(details, ds, categories, results))
  }

  // ---------------------------------------------------------------------------
  // Which oracles each path consults
  // ---------------------------------------------------------------------------

  /** Two worlds that differ at most in the load-info fetch, the race-link re-fetch and the result fetch. */
  ghost predicate SamePages(env: Env, other: Env) {
    && other.eventDetails == env.eventDetails && other.detailsCheck == env.detailsCheck
    && other.permitPage == env.permitPage
    && other.raceCategories == env.raceCategories && other.categoryCheck == env.categoryCheck
  }

  /** The categories collected for an event depend only on the pages and the category schema. */
  lemma {:induction false} SameCategories(env: Env, other: Env, ds: seq<Discipline>)
    requires SamePages(env, other)
    ensures FlatMap(ds, CategoriesOf(other)) == FlatMap(ds, CategoriesOf(env))
  {
    forall i | 0 <= i < |ds| ensures CategoriesOf(other)(ds[i]) == CategoriesOf(env)(ds[i]) {
      assert GetRaceCategories(other, ds[i].id, ds[i].lbl) == GetRaceCategories(env, ds[i].id, ds[i].lbl);
    }
    FlatMapCongruent(ds, CategoriesOf(other), CategoriesOf(env));
  }

  /** Without results requested, no result is fetched: the result fetcher does not matter. */
  lemma {:induction false} NoResultsFetchesNone(env: Env, permit: string, fetch: (Value, Option<RaceCategory>) -> Result<Fields, Err>)
    ensures GetCompleteEventData(env.(raceResults := fetch), permit, false) == GetCompleteEventData(env, permit, false)
    ensures GetCompleteEventData(env, permit, false).Success? ==> GetCompleteEventData(env, permit, false).value.results == map[]
  {
    var other := env.(raceResults := fetch);
    if GetEventDetails(env, permit).Success? && GetDisciplinesForEvent(env, permit).Success? {
      SameCategories(env, other, GetDisciplinesForEvent(env, permit).value);
    }
  }

  /** The results dictionary depends only on the result fetch, the clock and the two result schemas. */
  lemma SameResults(env: Env, other: Env, jobs: seq<Job>)
    requires other.raceResults == env.raceResults && other.today == env.today
    requires other.riderCheck == env.riderCheck && other.resultCheck == env.resultCheck
    ensures FetchResults(other, jobs) == FetchResults(env, jobs)
  {
    forall i | 0 <= i < |jobs| ensures StoredBy(other)(jobs[i]) == StoredBy(env)(jobs[i]) {
      assert GetRaceResults(other, jobs[i].raceId, jobs[i].info) == GetRaceResults(env, jobs[i].raceId, jobs[i].info);
    }
    TabulateCongruent(jobs, JobKey(), StoredBy(other), StoredBy(env));
  }

  /**
   * When categories were collected, `get_races_for_permit` is not called: neither the second
   * listing of the disciplines, nor the load-info fetch, nor the race-link re-fetch matters.
   */
  lemma {:induction false} CategoriesSkipRaceDiscovery(
    env: Env, permit: string, info: (string, string) -> Result<Value, Err>, links: string -> Result<seq<Anchor>, Err>,
    again: string -> Result<seq<Anchor>, Err>)
    requires GetCompleteEventData(env, permit, true).Success?
    requires GetCompleteEventData(env, permit, true).value.categories != []
    ensures GetCompleteEventData(env.(loadInfo := info, raceLinksPage := links, relistedPage := again), permit, true)
            == GetCompleteEventData(env, permit, true)
  {
    var other := env.(loadInfo := info, raceLinksPage := links, relistedPage := again);
    var ds := GetDisciplinesForEvent(env, permit).value;
    assert GetDisciplinesForEvent(other, permit) == GetDisciplinesForEvent(env, permit);
    assert GetEventDetails(other, permit) == GetEventDetails(env, permit);
    SameCategories(env, other, ds);
    var categories := FlatMap(ds, CategoriesOf(env));
    SameResults(env, other, CategoryJobs(categories));
    assert CategoryResults(other, categories) == CategoryResults(env, categories);
    assert EventResults(other, permit, categories, true) == EventResults(env, permit, categories, true);
  }

  /** Tiers 1 and 2 do not consult the load-info fetch. */
  lemma PrimaryIgnoresLoadInfo(env: Env, permit: string, d: Discipline, info: (string, string) -> Result<Value, Err>)
    ensures PrimaryRaces(env.(loadInfo := info), permit, d) == PrimaryRaces(env, permit, d)
  {
    assert GetRaceCategories(env.(loadInfo := info), d.id, d.lbl) == GetRaceCategories(env, d.id, d.lbl);
  }

  /** Tier 3 is not tried once tiers 1 and 2 found a race: the load-info fetch does not matter. */
  lemma {:induction false} PrimaryRacesSkipLoadInfo(env: Env, permit: string, info: (string, string) -> Result<Value, Err>)
    requires GetDisciplinesForEvent(env, permit).Success?
    requires exists d :: d in GetDisciplinesForEvent(env, permit).value && PrimaryRaces(env, permit, d) != []
    ensures GetRacesForPermit(env.(loadInfo := info), permit) == GetRacesForPermit(env, permit)
  {
    var other := env.(loadInfo := info);
    var ds := GetDisciplinesForEvent(env, permit).value;
    assert GetDisciplinesForEvent(other, permit) == GetDisciplinesForEvent(env, permit);
    forall i | 0 <= i < |ds| ensures PrimaryOf(other, permit)(ds[i]) == PrimaryOf(env, permit)(ds[i]) {
      PrimaryIgnoresLoadInfo(env, permit, ds[i], info);
    }
    FlatMapCongruent(ds, PrimaryOf(other, permit), PrimaryOf(env, permit));
    var d :| d in ds && PrimaryRaces(env, permit, d) != [];
    RacesBelong(env, permit, ds);
  }

  /** Tier 2 is tried only for a discipline whose category lookup raised. */
  lemma CategoriesLoadedSkipLinks(env: Env, permit: string, d: Discipline, links: string -> Result<seq<Anchor>, Err>)
    requires GetRaceCategories(env, d.id, d.lbl).Success?
    ensures PrimaryRaces(env.(raceLinksPage := links), permit, d) == PrimaryRaces(env, permit, d)
  {
    assert GetRaceCategories(env.(raceLinksPage := links), d.id, d.lbl) == GetRaceCategories(env, d.id, d.lbl);
  }

  /** The loader link of a road race becomes a discipline with the date cut from its title only. */
  lemma SampleDiscipline()
    ensures DisciplineOf(Anchor(Some(SampleLink), "Road Race 05/10/2021"))
            == Some(Discipline("1234", "Road Race", "Road 05/10/2021"))
  {
    assert SampleLink[..10] == InfoHandler;
    SampleLinkId();
    SampleLinkLabel();
    SampleTitles();
  }
}
