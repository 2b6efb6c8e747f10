# pyusacycling client core, modelled in Dafny

This project models the deterministic core of the `pyusacycling` scraping client: the
`USACyclingClient` orchestration methods and the package's exception constructors.

- The regex extractors that read discipline ids, labels and race ids out of inline `onclick`
  handlers are hand-written scanners. Each one has a postcondition that states the match exactly:
  leftmost position, greedy digit runs, and labels that are non-empty and contain no quotes.
  The same goes for the rule that strips a trailing `NN/NN/NNNN` date from a discipline title
  (`extractors.dfy`, `scan.dfy`).
- The orchestration is pure functions over sequences and maps (`client.dfy`). This covers:
  - the state-code check of `get_events`;
  - rows dropped for falsy required fields, and per-field defaults;
  - per-item errors absorbed while page-level errors propagate;
  - the three-tier race discovery of `get_races_for_permit`;
  - the category-first, races-second result assembly of `get_complete_event_data`.
- Every parser, fetcher, schema check, the date extractor and the clock is a field of `Env`. The
  parsers, fetchers and the date extractor return what they parsed or what they raised (`Result`).
  Each schema check returns its refusal message, if any (`Option<string>`). The clock is a fixed
  `Date`.
- The catch-and-continue loops are one combinator, `Batch.Collect`. It is specified by an
  independent ordered-selection predicate (`Batch.Survivors`) and proved equal to it in both
  directions. The results dictionary is `Batch.Tabulate`: later successful fetches replace earlier
  ones (`batch.dfy`).
- Each exception constructor of `exceptions.py` composes the displayed text (`" Caused by: "`)
  and adds its attributes to `details`. Some attributes are added when truthy, the others when
  not `None`. The contracts state exactly which keys are present and that every other key is the
  caller's (`exceptions.dfy`).
- Python values are the `Values.Value` datatype, and `Values.Truthy` is `bool()`.

Three behaviours of the code are easy to misread, and the model keeps them as written:

- Required fields are checked in two different ways. An event row is dropped when its `id` or
  `name` is falsy (`client.py:115`). A category needs `id` and `name` only to be present
  (`client.py:206-207`), and a race result needs `id` and `category` present
  (`client.py:273-275`). Truthiness decides only the fallbacks: a falsy `event_id` on a category
  gives way to `info_id`, and on a result to the result's `id`.
- Tier 2 of race discovery runs for a discipline whose category lookup raised. It does not run for
  a lookup that returned no categories. Tier 3 runs only when tiers 1 and 2 found nothing across
  all disciplines.
- `_parse_date` does not catch failures of the date extractor, although its docstring promises
  today's date "if parsing fails" (`client.py:561`). It returns today only when the extractor
  returns a falsy value. In `get_events` an exception from the extractor drops the row.

## Model

| member | source | states |
|---|---|---|
| Extractors.InfoId | pyusacycling/client.py:335 | absent exactly when `loadInfoID(<digits>` occurs nowhere; otherwise the maximal digit run of the leftmost occurrence |
| Extractors.Label | pyusacycling/client.py:336 | absent exactly when the label pattern matches nowhere; otherwise the group of the leftmost match, non-empty and free of quotes |
| Extractors.RaceId | pyusacycling/client.py:418 | absent exactly when `race_<digits>` occurs nowhere; otherwise the maximal digit run of the leftmost occurrence |
| Extractors.StripTrailingDate | pyusacycling/client.py:344 | the name is unchanged exactly when no whitespace-plus-date suffix matches; otherwise the leftmost such match, which ends the string or precedes a final newline, is cut out |
| Extractors.StripDateAfterStem | pyusacycling/client.py:344 | for any stem not ending in whitespace, any non-empty whitespace run and any `NN/NN/NNNN` date, stripping the stem, run and date gives back exactly the stem |
| Extractors.StripNotIdempotentOnTwoDates | pyusacycling/client.py:341-344 | for any stem not ending in whitespace followed by two whitespace-separated dates, one application removes only the last date and a second removes the other, so the cleanup is not idempotent |
| Extractors.IsLoaderLink | pyusacycling/client.py:330 | the selector `a[onclick^="loadInfoID"]` picks an anchor exactly when it has an `onclick` that starts with `loadInfoID` |
| Extractors.SampleLinkLabel | pyusacycling/client.py:336 | the label of `loadInfoID(1234, 'Road 05/10/2021')` is the quoted text with its date |
| Scan.Contains | pyusacycling/client.py:415 | the substring test behind `a[onclick*=...]` holds exactly when the word occurs at some position |
| Batch.CollectKeepsSurvivors | pyusacycling/client.py:196-218 | a catch-and-continue loop keeps exactly the items whose conversion succeeds, in input order |
| Batch.SurvivorsAreUnique | pyusacycling/client.py:112-141 | any ordered selection of the accepted items is the loop's output, so the selection determines the result |
| Exceptions.Compose | pyusacycling/exceptions.py:35-39 | the text starts with the message and is the message alone without a cause; with one, it continues with `" Caused by: "` and the cause's text |
| Exceptions.ComposeInjective | pyusacycling/exceptions.py:35-39 | with the same message, two texts with causes are equal only if the causes read the same |
| Exceptions.UsaCyclingError | pyusacycling/exceptions.py:30-39 | stores message and cause; details are the caller's map, or empty when none is given |
| Exceptions.NetworkError | pyusacycling/exceptions.py:65-75 | `url` and `status_code` are recorded in details only when truthy; they override the caller's entries; every other key is the caller's; the attributes are kept verbatim |
| Exceptions.ParseError | pyusacycling/exceptions.py:101-111 | `source` and `selector` are recorded only when truthy; every other key is the caller's |
| Exceptions.ValidationError | pyusacycling/exceptions.py:137-147 | `field` is recorded when truthy and `value` whenever it is not None; every other key is the caller's |
| Exceptions.RateLimitError | pyusacycling/exceptions.py:173-183 | `url` is recorded when truthy and `retry_after` whenever it is not None; every other key is the caller's |
| Exceptions.CacheError | pyusacycling/exceptions.py:208-218 | `cache_key` and `operation` are recorded only when truthy; every other key is the caller's |
| Exceptions.ConfigurationError | pyusacycling/exceptions.py:244-254 | `parameter` is recorded when truthy and `value` whenever it is not None; every other key is the caller's |
| Exceptions.FalsyAttributesAddNothing | pyusacycling/exceptions.py:68-75 | for any message, cause and caller details, and any falsy attributes (None for those recorded when not None), each of the six subclasses has the same details as the base class |
| Exceptions.ZeroAndFalseDiffer | pyusacycling/exceptions.py:142-145 | a status code of 0 is omitted, but a `retry_after` or `value` of 0 or False is recorded |
| Exceptions.AddedKeysOverrideCaller | pyusacycling/exceptions.py:69-71 | for any caller details and any truthy `url`, the NetworkError's details are the caller's with only the `url` entry set to that `url` |
| Client.ParseDate | pyusacycling/client.py:553-570 | fails exactly when the extractor raises; otherwise a truthy date: the extracted one, or today when the extractor returns nothing |
| Client.EventOf | pyusacycling/client.py:113-141 | a row yields an event only with truthy `id` and `name`. The event carries the arguments' state and year. `permit_number` defaults to `''`, `location` to `'Unknown'` and `url` to None. A string `event_date` is parsed, another `event_date` is used as is, else `date`. A row whose fields pass is never dropped |
| Client.GetEvents | pyusacycling/client.py:87-147 | a state not two characters long raises ValidationError; otherwise the parser's failure propagates, or the events are exactly the convertible rows in order, each with the given state and year |
| Client.StateCheckedFirst | pyusacycling/client.py:103-104 | a bad state code gives the same ValidationError, whose details are empty, whatever the event-list parser would return |
| Client.GetEventDetails | pyusacycling/client.py:149-174 | the parsed mapping becomes the details when the schema accepts it; every failure propagates |
| Client.CategoryOf | pyusacycling/client.py:197-218 | a category needs `id` and `name`; a missing `event_id` defaults to `''` and a present falsy one is kept; when either is falsy and `info_id` is present, `info_id` replaces it; `discipline`, `gender`, `category_type`, `age_range` and `category_rank` are the record's own values, or None when missing |
| Client.GetRaceCategories | pyusacycling/client.py:176-224 | the parser's failure propagates; otherwise the categories are exactly the convertible ones in order |
| Client.RidersOf | pyusacycling/client.py:259-269 | a list gives exactly its valid rider mappings in order; a string or mapping gives none; anything else raises TypeError |
| Client.GetRaceResults | pyusacycling/client.py:226-284 | a missing `id` or `category` is an error. A missing `id` with a falsy `event_id` gives KeyError('id'). On success `event_id` is the record's own when truthy, else its `id`, and the date is truthy (its own, else today). Riders are the valid rows in order. A record whose fields pass is never refused |
| Client.DisciplineOf | pyusacycling/client.py:332-350 | a link yields a discipline exactly when its onclick starts with `loadInfoID` and holds `loadInfoID(<digits>`. The id is the leftmost match's digits. The label is the leftmost label group, or `""` when none matches. The name is the title with its trailing date cut |
| Client.GetDisciplinesForEvent | pyusacycling/client.py:308-356 | the page fetch's failure propagates; otherwise exactly the links that yield disciplines, in page order, each with a digit id and a quote-free label |
| Client.SampleDiscipline | pyusacycling/client.py:334-350 | the link `loadInfoID(1234, 'Road 05/10/2021')` titled `Road Race 05/10/2021` gives id `1234`, name `Road Race` and the full label |
| Client.LinkRaceId | pyusacycling/client.py:414-428 | a tier-2 race comes from a link that mentions the discipline id, and its id is the leftmost `race_<digits>` run |
| Client.PrimaryRaces | pyusacycling/client.py:382-432 | an ineligible discipline gives nothing. With categories, the races are the categories with truthy ids. Only when the lookup raised are they the page's race links. Every race carries the discipline's id and name and the permit |
| Client.ItemRaces | pyusacycling/client.py:447-457 | the tier-3 races are exactly those kept by the catch-and-continue selection over the entries before the first non-mapping entry: each mapping with a truthy `id` gives one race, attributed to the discipline and the permit |
| Client.ItemRacesStopAtNonMapping | pyusacycling/client.py:447-457 | tier 3 stops at the first category entry that is not a mapping and keeps the races before it |
| Client.ItemRacesOnePerItem | pyusacycling/client.py:447-457 | mappings that all have truthy ids give one race each, in order, with those ids |
| Client.InfoRaces | pyusacycling/client.py:437-459 | tier 3 gives races only for an eligible discipline whose payload is a mapping whose `categories` is a list, each race attributed to it; when `categories` is a list, the races are exactly the ordered selection of accepted entries before the first non-mapping one |
| Client.GetRacesForPermit | pyusacycling/client.py:358-465 | fails exactly when listing the disciplines fails. Every race belongs to an eligible discipline and the permit. Tiers 1-2 are the answer when any discipline gave a race, tier 3 otherwise |
| Client.PrimaryRacesSkipLoadInfo | pyusacycling/client.py:434-435 | once tiers 1-2 found a race, the load-info fetch has no effect on the result |
| Client.CategoriesLoadedSkipLinks | pyusacycling/client.py:389-409 | for a discipline whose category lookup succeeds, the race-link re-fetch has no effect |
| Client.FetchResults | pyusacycling/client.py:513-539 | every key is the id of a job whose fetch succeeded and maps to the last such fetch for that id; every successful fetch under a hashable id leaves its key |
| Client.CategoryResults | pyusacycling/client.py:512-523 | the map is the results dictionary built from the category jobs in order, so every key maps to the last successful fetch for that id; every key is the truthy, hashable id of some category whose fetch succeeded, and every category with a truthy id whose fetch succeeds leaves its key |
| Client.RaceResults | pyusacycling/client.py:529-539 | the map is the results dictionary built from the race jobs in order; every key is the truthy, hashable id of some race and maps to that id's fetch, and every race with a truthy id whose fetch succeeds leaves its key |
| Client.EventResults | pyusacycling/client.py:505-539 | empty unless results are requested. With categories, exactly the fetch results of the category jobs. Without, it fails exactly when the second listing of the disciplines fails, with that error, and is otherwise exactly the fetch results of the races that race discovery returns. Every key is a hashable truthy id |
| Client.GetCompleteEventData | pyusacycling/client.py:467-551 | fails exactly when the details fail, the disciplines fail, or results are requested, no categories were found and the second listing of the disciplines fails; each time with that error. Categories are those of the eligible disciplines whose lookup succeeds. Results are empty unless requested; otherwise exactly the fetch results of the categories' jobs, or of the rediscovered races when there are no categories |
| Client.NoResultsFetchesNone | pyusacycling/client.py:508-509 | without results requested, the result fetcher has no effect and the results are empty |
| Client.CategoriesSkipRaceDiscovery | pyusacycling/client.py:512-528 | once categories were collected, neither the second listing of the disciplines, nor the load-info fetch, nor the race-link re-fetch has any effect |

## Left out

- Regex `\d` is modelled as the ASCII digits only. Python's `str` patterns also accept every other Unicode decimal digit.
- BeautifulSoup parsing and CSS selection are not modelled. A page is the sequence of its `<a>` elements, and each anchor holds its `onclick` attribute and its `get_text(strip=True)` text.
- The fetch layer is a set of oracles in `Env`, and the same call always gives the same answer. This covers the parser classes, HTTP, caching, retries and rate limiting. The permit page is fetched at three sites: to list the disciplines, in tier 2, and when `get_complete_event_data` falls back on `get_races_for_permit` (`client.py:528`, which lists the disciplines a second time at `client.py:377`). The last two sites have oracles of their own (`raceLinksPage`, `relistedPage`), so that a later fetch failing after an earlier one succeeded can be expressed.
- Within one site, every fetch of the same page gets the same answer. Tier 2 re-fetches the permit page once for every discipline whose category lookup raised (`client.py:411`, inside the loop at `client.py:382-432`), and all of those re-fetches share the one `raceLinksPage(permit)` answer, so tier 2 cannot succeed for one discipline and fail for another. Likewise the fallback path runs tier 1 again and so calls `get_race_categories` a second time (`client.py:391`, reached through `client.py:528`); it gets the same `raceCategories` answer as the first lookup. Giving each of those repeated calls its own answer would make race discovery depend on call order rather than on its arguments.
- The pydantic record models are not modelled in detail. Each is a check that accepts or refuses the keyword arguments, and an accepted record holds exactly those arguments; pydantic's coercion is not modelled.
- `BaseParser._extract_date` is an oracle, and `date.today()` is the `today` field of `Env`.
- Logging, `configure_logging` and the `__init__` configuration wiring are left out, as is `get_rider_results`, which only raises NotImplementedError.
- Python aliasing is not modelled. The exception constructors, `get_events` and `get_race_results` write into the caller's dictionaries (`get_race_results` fills in `event_id` and `date` of `race_data`, `client.py:253` and `client.py:257`); the model builds new maps instead.
- `str(cause)` is an opaque string.
- Python floats have no NaN here (NaN is truthy in Python).
- Dictionary insertion order is not modelled: the results dictionary is a `map`. So is Python's collapsing of equal keys of different types (`1`, `1.0`, `True`).
- An unhashable race id (a list or a dict) is skipped when it reaches the results dictionary.
- Client.RidersOf: a rider list that is a string or a mapping yields no riders, without iterating its characters or keys one by one. Each of those items is a string that cannot be unpacked into a rider, so the outcome is the same.
- Client.InfoRaces: tuples and other non-list iterables are not among the modelled values. Every other `categories` value that is not a list yields no races, as in the source: an empty string or mapping iterates nothing, a non-empty one fails on its first item, and any other value cannot be iterated; the failure is caught per discipline.
