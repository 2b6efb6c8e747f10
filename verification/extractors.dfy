/**
 * The text extractors of the client: the four regular expressions it applies to `onclick`
 * attributes and link text, and the two CSS attribute filters that pick the links.
 * Each regex is a hand-written scanner; its contract states the match `re.search` or
 * `re.sub` would find, written as the pattern itself (a ghost predicate over the string).
 */
module Extractors {
  import opened Outcomes
  import opened Scan

  /** Opening of the discipline loader call inside an `onclick`. */
  const InfoCall: string := "loadInfoID("

  /** Value of the `a[onclick^="loadInfoID"]` selector. */
  const InfoHandler: string := "loadInfoID"

  /** Token that precedes a race id inside an `onclick`. */
  const RaceToken: string := "race_"

  predicate AllDigits(t: string) {
    forall k :: 0 <= k < |t| ==> IsDigit(t[k])
  }

  predicate AllSpace(t: string) {
    forall k :: 0 <= k < |t| ==> IsSpace(t[k])
  }

  predicate QuoteFree(t: string) {
    forall k :: 0 <= k < |t| ==> NotQuote(t[k])
  }

  // ---------------------------------------------------------------------------
  // `prefix(\d+)`: the discipline id (`loadInfoID\((\d+)`) and the race id (`race_(\d+)`)
  // ---------------------------------------------------------------------------

  /**
   * `prefix(\d+)` matches at `i` with group `d`: `prefix` then the digits `d`, which the
   * greedy `+` extends up to the first non-digit.
   */
  ghost predicate DigitGroupMatch(s: string, prefix: string, i: nat, d: string) {
    && PrefixAt(s, i, prefix + d)
    && |d| > 0
    && AllDigits(d)
    && (i + |prefix| + |d| == |s| || !IsDigit(s[i + |prefix| + |d|]))
  }

  /** The match `re.search` reports: no earlier start position matches at all. */
  ghost predicate FirstDigitGroupMatch(s: string, prefix: string, i: nat, d: string) {
    && DigitGroupMatch(s, prefix, i, d)
    && forall j: nat, e :: j < i ==> !DigitGroupMatch(s, prefix, j, e)
  }

  /** The group of `prefix(\d+)` tried at position `i` alone. */
  function DigitsAt(s: string, prefix: string, i: nat): Option<string>
    requires i <= |s|
  {
    var a := i + |prefix|;
    if PrefixAt(s, i, prefix) && a < |s| && IsDigit(s[a]) then
      Some(s[a..SpanEnd(s, a, IsDigit)])
    else
      None
  }

  /** The scanner at one position agrees with the pattern, in both directions. */
  lemma DigitsAtMatches(s: string, prefix: string, i: nat, d: string)
    requires i <= |s|
    ensures DigitsAt(s, prefix, i) == Some(d) <==> DigitGroupMatch(s, prefix, i, d)
  {
    var a := i + |prefix|;
    PrefixAtConcat(s, i, prefix, d);
    if DigitsAt(s, prefix, i) == Some(d) {
      var b := SpanEnd(s, a, IsDigit);
      assert d == s[a..b];
      assert PrefixAt(s, a, d);
      assert AllDigits(d);
    }
    if DigitGroupMatch(s, prefix, i, d) {
      assert s[a..a + |d|] == d;
      assert IsDigit(s[a]) by {
        assert s[a] == d[0];
      }
      assert forall k :: a <= k < a + |d| ==> IsDigit(s[k]) by {
        forall k | a <= k < a + |d| ensures IsDigit(s[k]) {
          assert s[k] == d[k - a];
        }
      }
      SpanEndExact(s, a, a + |d|, IsDigit);
    }
  }

  /** `re.search(prefix + r'(\d+)', s).group(1)`, or None when there is no match. */
  function SearchDigits(s: string, prefix: string): Option<string> {
    match Leftmost(|s|, 0, (i: nat) => i <= |s| && DigitsAt(s, prefix, i).Some?)
    case Some(i) => DigitsAt(s, prefix, i)
    case None => None
  }

  /** The search reports the leftmost match of `prefix(\d+)`, and is absent only when nothing matches. */
  lemma {:induction false} SearchDigitsFindsFirstMatch(s: string, prefix: string)
    ensures SearchDigits(s, prefix).None? ==> forall i: nat, d :: !DigitGroupMatch(s, prefix, i, d)
    ensures SearchDigits(s, prefix).Some? ==>
              exists i: nat :: FirstDigitGroupMatch(s, prefix, i, SearchDigits(s, prefix).value)
  {
    var at := (i: nat) => i <= |s| && DigitsAt(s, prefix, i).Some?;
    var r := Leftmost(|s|, 0, at);
    forall j: nat, e | j <= |s| && (r.None? || j < r.value)
      ensures !DigitGroupMatch(s, prefix, j, e)
    {
      assert !at(j);
      DigitsAtMatches(s, prefix, j, e);
    }
    if r.Some? {
      var i := r.value;
      assert at(i);
      DigitsAtMatches(s, prefix, i, DigitsAt(s, prefix, i).value);
      assert FirstDigitGroupMatch(s, prefix, i, SearchDigits(s, prefix).value);
    }
  }

  /** `re.search(r'loadInfoID\((\d+)', onclick)`: the discipline id of a loader link. */
  function InfoId(onclick: string): (id: Option<string>)
    ensures id.None? ==> forall i: nat, d :: !DigitGroupMatch(onclick, InfoCall, i, d)
    ensures id.Some? ==> exists i: nat :: FirstDigitGroupMatch(onclick, InfoCall, i, id.value)
  {
    SearchDigitsFindsFirstMatch(onclick, InfoCall);
    SearchDigits(onclick, InfoCall)
  }

  /** `re.search(r'race_(\d+)', onclick)`: the race id carried by a race link. */
  function RaceId(onclick: string): (id: Option<string>)
    ensures id.None? ==> forall i: nat, d :: !DigitGroupMatch(onclick, RaceToken, i, d)
    ensures id.Some? ==> exists i: nat :: FirstDigitGroupMatch(onclick, RaceToken, i, id.value)
  {
    SearchDigitsFindsFirstMatch(onclick, RaceToken);
    SearchDigits(onclick, RaceToken)
  }

  // ---------------------------------------------------------------------------
  // `loadInfoID\(\d+,\s*['"]([^'"]+)['"]`: the discipline label
  // ---------------------------------------------------------------------------

  /**
   * The label pattern matches at `i` split as the call opening, digits `d`, a comma, blanks
   * `w`, an opening quote `q`, the group `label` and a closing quote `q2` (either quote
   * character may close either).
   */
  ghost predicate LabelSplit(s: string, i: nat, d: string, w: string, q: char, q2: char, lbl: string) {
    && PrefixAt(s, i, InfoCall + d + "," + w + [q] + lbl + [q2])
    && |d| > 0 && AllDigits(d)
    && AllSpace(w)
    && IsQuote(q) && IsQuote(q2)
    && |lbl| > 0 && QuoteFree(lbl)
  }

  /** Some split of the text at `i` matches the label pattern with group `label`. */
  ghost predicate LabelMatch(s: string, i: nat, lbl: string) {
    exists d, w, q, q2 :: LabelSplit(s, i, d, w, q, q2, lbl)
  }

  /** The match `re.search` reports: no earlier start position matches at all. */
  ghost predicate FirstLabelMatch(s: string, i: nat, lbl: string) {
    && LabelMatch(s, i, lbl)
    && forall j: nat, l :: j < i ==> !LabelMatch(s, j, l)
  }

  /**
   * The label pattern tried at position `i` alone. Every quantifier in it is followed by a
   * character it cannot consume (a comma after the digits, a quote after the blanks and after
   * the label), so the greedy run is the only one that can succeed.
   */
  function LabelAt(s: string, i: nat): Option<string>
    requires i <= |s|
  {
    var a := i + |InfoCall|;
    if !(PrefixAt(s, i, InfoCall) && a < |s| && IsDigit(s[a])) then None
    else
      var b := SpanEnd(s, a, IsDigit);
      if b == |s| || s[b] != ',' then None
      else
        var c := SpanEnd(s, b + 1, IsSpace);
        if c == |s| || !IsQuote(s[c]) then None
        else
          var e := SpanEnd(s, c + 1, NotQuote);
          if e == c + 1 || e == |s| then None else Some(s[c + 1..e])
  }

  /** The label pattern read piece by piece. */
  lemma LabelSplitPieces(s: string, i: nat, d: string, w: string, q: char, q2: char, lbl: string)
    ensures PrefixAt(s, i, InfoCall + d + "," + w + [q] + lbl + [q2]) <==>
              && PrefixAt(s, i, InfoCall)
              && PrefixAt(s, i + |InfoCall|, d)
              && PrefixAt(s, i + |InfoCall| + |d|, ",")
              && PrefixAt(s, i + |InfoCall| + |d| + 1, w)
              && PrefixAt(s, i + |InfoCall| + |d| + 1 + |w|, [q])
              && PrefixAt(s, i + |InfoCall| + |d| + 2 + |w|, lbl)
              && PrefixAt(s, i + |InfoCall| + |d| + 2 + |w| + |lbl|, [q2])
  {
    PrefixAtConcat(s, i, InfoCall + d + "," + w + [q] + lbl, [q2]);
    PrefixAtConcat(s, i, InfoCall + d + "," + w + [q], lbl);
    PrefixAtConcat(s, i, InfoCall + d + "," + w, [q]);
    PrefixAtConcat(s, i, InfoCall + d + ",", w);
    PrefixAtConcat(s, i, InfoCall + d, ",");
    PrefixAtConcat(s, i, InfoCall, d);
  }

  /** A slice of a run of `p`-characters consists of `p`-characters. */
  lemma SliceOfRun(s: string, a: nat, b: nat, p: char -> bool)
    requires a <= b <= |s|
    requires forall k :: a <= k < b ==> p(s[k])
    ensures forall k :: 0 <= k < |s[a..b]| ==> p(s[a..b][k])
  {
    forall k | 0 <= k < |s[a..b]| ensures p(s[a..b][k]) {
      assert s[a..b][k] == s[a + k];
    }
  }

  /** A slice, and a single character, sit in `s` where they were cut from. */
  lemma PiecesAtBounds(s: string, a: nat, b: nat, c: nat, e: nat)
    requires a < b && b + 1 <= c && c + 1 < e < |s|
    ensures PrefixAt(s, a, s[a..b]) && PrefixAt(s, b, [s[b]]) && PrefixAt(s, b + 1, s[b + 1..c])
    ensures PrefixAt(s, c, [s[c]]) && PrefixAt(s, c + 1, s[c + 1..e]) && PrefixAt(s, e, [s[e]])
  {
    assert s[b..b + 1] == [s[b]];
    assert s[c..c + 1] == [s[c]];
    assert s[e..e + 1] == [s[e]];
  }

  /** The pieces found at consecutive offsets join into the whole pattern. */
  lemma PiecesJoin(s: string, i: nat, d: string, w: string, q: char, q2: char, lbl: string, a: nat, b: nat, c: nat, e: nat)
    requires a == i + |InfoCall| && b == a + |d| && c == b + 1 + |w| && e == c + 1 + |lbl|
    requires PrefixAt(s, i, InfoCall) && PrefixAt(s, a, d) && PrefixAt(s, b, ",") && PrefixAt(s, b + 1, w)
    requires PrefixAt(s, c, [q]) && PrefixAt(s, c + 1, lbl) && PrefixAt(s, e, [q2])
    ensures PrefixAt(s, i, InfoCall + d + "," + w + [q] + lbl + [q2])
  {
    LabelSplitPieces(s, i, d, w, q, q2, lbl);
  }

  /** Boundaries that delimit the pattern's pieces give a split that matches it. */
  lemma SplitAtBounds(s: string, i: nat, b: nat, c: nat, e: nat)
    requires PrefixAt(s, i, InfoCall)
    requires i + |InfoCall| < b && b + 1 <= c && c + 1 < e < |s|
    requires s[b] == ',' && IsQuote(s[c]) && IsQuote(s[e])
    requires AllDigits(s[i + |InfoCall|..b]) && AllSpace(s[b + 1..c]) && QuoteFree(s[c + 1..e])
    ensures LabelSplit(s, i, s[i + |InfoCall|..b], s[b + 1..c], s[c], s[e], s[c + 1..e])
  {
    var a := i + |InfoCall|;
    PiecesAtBounds(s, a, b, c, e);
    PiecesJoin(s, i, s[a..b], s[b + 1..c], s[c], s[e], s[c + 1..e], a, b, c, e);
  }

  /** Whatever the scanner reports at `i` is a match of the pattern there. */
  lemma LabelAtSound(s: string, i: nat, lbl: string)
    requires i <= |s|
    requires LabelAt(s, i) == Some(lbl)
    ensures LabelMatch(s, i, lbl)
  {
    var a := i + |InfoCall|;
    var b := SpanEnd(s, a, IsDigit);
    var c := SpanEnd(s, b + 1, IsSpace);
    var e := SpanEnd(s, c + 1, NotQuote);
    assert lbl == s[c + 1..e];
    SliceOfRun(s, a, b, IsDigit);
    SliceOfRun(s, b + 1, c, IsSpace);
    SliceOfRun(s, c + 1, e, NotQuote);
    SplitAtBounds(s, i, b, c, e);
  }

  /** Any split that matches the pattern at `i` is the one the scanner finds. */
  lemma LabelAtComplete(s: string, i: nat, d: string, w: string, q: char, q2: char, lbl: string)
    requires i <= |s|
    requires LabelSplit(s, i, d, w, q, q2, lbl)
    ensures LabelAt(s, i) == Some(lbl)
  {
    LabelSplitPieces(s, i, d, w, q, q2, lbl);
    var a := i + |InfoCall|;
    var b := a + |d|;
    var c := b + 1 + |w|;
    var e := c + 1 + |lbl|;
    assert s[a..b] == d;
    assert s[b..b + 1] == ",";
    assert s[b + 1..c] == w;
    assert s[c..c + 1] == [q];
    assert s[c + 1..e] == lbl;
    assert s[e..e + 1] == [q2];
    RunOf(s, a, d, IsDigit);
    RunOf(s, b + 1, w, IsSpace);
    RunOf(s, c + 1, lbl, NotQuote);
    SpanEndExact(s, a, b, IsDigit);
    SpanEndExact(s, b + 1, c, IsSpace);
    SpanEndExact(s, c + 1, e, NotQuote);
  }

  /** A slice equal to a text all of whose characters satisfy `p` consists of `p`-characters. */
  lemma RunOf(s: string, a: nat, t: string, p: char -> bool)
    requires a + |t| <= |s| && s[a..a + |t|] == t
    requires forall k :: 0 <= k < |t| ==> p(t[k])
    ensures forall k :: a <= k < a + |t| ==> p(s[k])
  {
    forall k | a <= k < a + |t| ensures p(s[k]) {
      assert s[k] == t[k - a];
    }
  }

  /** The scanner at one position agrees with the pattern, in both directions. */
  lemma LabelAtMatches(s: string, i: nat, lbl: string)
    requires i <= |s|
    ensures LabelAt(s, i) == Some(lbl) <==> LabelMatch(s, i, lbl)
  {
    if LabelAt(s, i) == Some(lbl) {
      LabelAtSound(s, i, lbl);
    }
    if LabelMatch(s, i, lbl) {
      var d, w, q, q2 :| LabelSplit(s, i, d, w, q, q2, lbl);
      LabelAtComplete(s, i, d, w, q, q2, lbl);
    }
  }

  /** A match lies inside the text. */
  lemma LabelMatchInside(s: string, i: nat, lbl: string)
    requires LabelMatch(s, i, lbl)
    ensures i <= |s|
  {
    var d, w, q, q2 :| LabelSplit(s, i, d, w, q, q2, lbl);
  }

  /** `re.search(r'loadInfoID\(\d+,\s*[\'"]([^\'"]+)[\'"]', s)`'s group, or None. */
  function SearchLabel(s: string): Option<string> {
    match Leftmost(|s|, 0, (i: nat) => i <= |s| && LabelAt(s, i).Some?)
    case Some(i) => LabelAt(s, i)
    case None => None
  }

  /** The search reports the leftmost match of the label pattern, and is absent only when nothing matches. */
  lemma {:induction false} SearchLabelFindsFirstMatch(s: string)
    ensures SearchLabel(s).None? ==> forall i: nat, l :: !LabelMatch(s, i, l)
    ensures SearchLabel(s).Some? ==> exists i: nat :: FirstLabelMatch(s, i, SearchLabel(s).value)
  {
    var at := (i: nat) => i <= |s| && LabelAt(s, i).Some?;
    var r := Leftmost(|s|, 0, at);
    forall j: nat, l | r.None? || j < r.value
      ensures !LabelMatch(s, j, l)
    {
      if j <= |s| {
        assert !at(j);
        LabelAtMatches(s, j, l);
      } else if LabelMatch(s, j, l) {
        LabelMatchInside(s, j, l);
      }
    }
    if r.Some? {
      var i := r.value;
      assert at(i);
      LabelAtMatches(s, i, LabelAt(s, i).value);
      assert FirstLabelMatch(s, i, SearchLabel(s).value);
    }
  }

  /** The label of a loader link: nonempty, free of quotes, from the leftmost match of the pattern. */
  function Label(onclick: string): (lbl: Option<string>)
    ensures lbl.None? ==> forall i: nat, l :: !LabelMatch(onclick, i, l)
    ensures lbl.Some? ==> exists i: nat :: FirstLabelMatch(onclick, i, lbl.value)
    ensures lbl.Some? ==> |lbl.value| > 0 && QuoteFree(lbl.value)
  {
    SearchLabelFindsFirstMatch(onclick);
    var r := SearchLabel(onclick);
    assert r.Some? ==> |r.value| > 0 && QuoteFree(r.value) by {
      if r.Some? {
        var i: nat :| FirstLabelMatch(onclick, i, r.value);
        var d, w, q, q2 :| LabelSplit(onclick, i, d, w, q, q2, r.value);
      }
    }
    r
  }

  // ---------------------------------------------------------------------------
  // `re.sub(r'\s+\d{2}/\d{2}/\d{4}$', '', name)`: the discipline name cleanup
  // ---------------------------------------------------------------------------

  /** `\d{2}/\d{2}/\d{4}`. */
  predicate IsDate(t: string) {
    && |t| == 10
    && IsDigit(t[0]) && IsDigit(t[1]) && t[2] == '/'
    && IsDigit(t[3]) && IsDigit(t[4]) && t[5] == '/'
    && IsDigit(t[6]) && IsDigit(t[7]) && IsDigit(t[8]) && IsDigit(t[9])
  }

  /** `$` without MULTILINE: the end of the text, or just before a newline that ends it. */
  predicate AtEnd(s: string, e: nat) {
    e == |s| || (e + 1 == |s| && s[e] == '\n')
  }

  /** `\s+\d{2}/\d{2}/\d{4}$` matches the slice `s[i..e]`. */
  ghost predicate DateSuffixMatch(s: string, i: nat, e: nat) {
    && i + 11 <= e <= |s|
    && AllSpace(s[i..e - 10])
    && IsDate(s[e - 10..e])
    && AtEnd(s, e)
  }

  /** Where a date suffix would have to end: before a final newline, else at the very end. */
  function DateEnd(s: string): nat {
    if 0 < |s| && s[|s| - 1] == '\n' then |s| - 1 else |s|
  }

  /** Every match of the suffix pattern ends at `DateEnd` and starts inside the blank run before the date. */
  lemma DateSuffixAnchored(s: string, j: nat, f: nat)
    requires DateSuffixMatch(s, j, f)
    ensures f == DateEnd(s)
    ensures IsSpace(s[f - 11])
    ensures SpanStart(s, f - 10, IsSpace) <= j
  {
    assert IsSpace(s[f - 11]) by {
      assert s[f - 11] == s[j..f - 10][f - 11 - j];
    }
  }

  /** The suffix candidate: a date ending at `DateEnd` with a blank right before it. */
  predicate HasDateSuffix(s: string) {
    var e := DateEnd(s);
    11 <= e && IsDate(s[e - 10..e]) && IsSpace(s[e - 11])
  }

  /** Without the candidate, the pattern matches nowhere. */
  lemma NoDateSuffixMatch(s: string)
    requires !HasDateSuffix(s)
    ensures forall j: nat, f: nat :: !DateSuffixMatch(s, j, f)
  {
    forall j: nat, f: nat | DateSuffixMatch(s, j, f) ensures false {
      DateSuffixAnchored(s, j, f);
    }
  }

  /** With the candidate, the leftmost match starts where the blank run before the date starts. */
  lemma FirstDateSuffixMatch(s: string)
    requires HasDateSuffix(s)
    ensures DateSuffixMatch(s, SpanStart(s, DateEnd(s) - 10, IsSpace), DateEnd(s))
    ensures forall j: nat, f: nat :: j < SpanStart(s, DateEnd(s) - 10, IsSpace) ==> !DateSuffixMatch(s, j, f)
  {
    var e := DateEnd(s);
    var i := SpanStart(s, e - 10, IsSpace);
    var t := s[i..e - 10];
    assert AllSpace(t) by {
      forall k | 0 <= k < |t| ensures IsSpace(t[k]) {
        assert t[k] == s[i + k];
      }
    }
    forall j: nat, f: nat | j < i && DateSuffixMatch(s, j, f) ensures false {
      DateSuffixAnchored(s, j, f);
    }
  }

  /**
   * Removes one trailing blank run together with an `NN/NN/NNNN` date that ends the name
   * (or precedes its final newline); any other name is returned unchanged.
   */
  function StripTrailingDate(name: string): (r: string)
    ensures r == name <==> forall i: nat, e: nat :: !DateSuffixMatch(name, i, e)
    ensures r != name ==>
              exists i: nat, e: nat ::
                && DateSuffixMatch(name, i, e)
                && (forall j: nat, f: nat :: j < i ==> !DateSuffixMatch(name, j, f))
                && r == name[..i] + name[e..]
  {
    if !HasDateSuffix(name) then
      NoDateSuffixMatch(name);
      name
    else
      var e := DateEnd(name);
      var i := SpanStart(name, e - 10, IsSpace);
      FirstDateSuffixMatch(name);
      var r := name[..i] + name[e..];
      assert |r| < |name|;
      r
  }

  // ---------------------------------------------------------------------------
  // The page's links and the two attribute selectors
  // ---------------------------------------------------------------------------

  /** An `<a>` element: its `onclick` attribute if it has one, and its text with surrounding blanks stripped. */
  datatype Anchor = Anchor(onclick: Option<string>, text: string)

  /** Selected by `a[onclick^="loadInfoID"]`: the link has a handler and it begins with the loader's name. */
  predicate IsLoaderLink(a: Anchor): (b: bool)
    ensures b <==> a.onclick.Some? && exists rest :: a.onclick.value == InfoHandler + rest
  {
    if a.onclick.Some? && PrefixAt(a.onclick.value, 0, InfoHandler) then
      var s := a.onclick.value;
      assert s == InfoHandler + s[|InfoHandler|..];
      true
    else
      assert forall rest :: PrefixAt(InfoHandler + rest, 0, InfoHandler) by {
        forall rest ensures PrefixAt(InfoHandler + rest, 0, InfoHandler) {
          assert (InfoHandler + rest)[..|InfoHandler|] == InfoHandler;
        }
      }
      false
  }

  /** Selected by `a[onclick*="<id>"]`; the CSS substring selector matches nothing when the value is empty. */
  predicate MentionsId(a: Anchor, id: string) {
    a.onclick.Some? && |id| > 0 && Contains(a.onclick.value, id)
  }

  // ---------------------------------------------------------------------------
  // Worked cases
  // ---------------------------------------------------------------------------

  /** A loader link as the events site writes it. */
  const SampleLink: string := "loadInfoID(1234, 'Road 05/10/2021')"

  /** A text whose very start matches `loadInfoID\((\d+)` has that match's group as its discipline id. */
  lemma InfoIdOfMatchAtStart(s: string, d: string)
    requires DigitGroupMatch(s, InfoCall, 0, d)
    ensures InfoId(s) == Some(d)
  {
    var r := InfoId(s);
    var i: nat :| FirstDigitGroupMatch(s, InfoCall, i, r.value);
    assert i == 0;
    DigitsAtMatches(s, InfoCall, 0, r.value);
    DigitsAtMatches(s, InfoCall, 0, d);
  }

  /** Its discipline id is the number in the call. */
  lemma SampleLinkId()
    ensures InfoId(SampleLink) == Some("1234")
  {
    var s := SampleLink;
    assert InfoCall + "1234" == s[..15];
    assert !IsDigit(s[15]);
    InfoIdOfMatchAtStart(s, "1234");
  }

  /** A text whose very start matches the label pattern has that match's group as its label. */
  lemma LabelOfMatchAtStart(s: string, lbl: string)
    requires LabelMatch(s, 0, lbl)
    ensures Label(s) == Some(lbl)
  {
    var r := Label(s);
    var i: nat :| FirstLabelMatch(s, i, r.value);
    assert i == 0;
    LabelAtMatches(s, 0, r.value);
    LabelAtMatches(s, 0, lbl);
  }

  /** Its label is the quoted text, date included. */
  lemma SampleLinkLabel()
    ensures Label(SampleLink) == Some("Road 05/10/2021")
  {
    var lbl := "Road 05/10/2021";
    assert InfoCall + "1234" + "," + " " + ['\''] + lbl + ['\''] == SampleLink[..34];
    assert QuoteFree(lbl);
    assert LabelSplit(SampleLink, 0, "1234", " ", '\'', '\'', lbl);
    LabelOfMatchAtStart(SampleLink, lbl);
  }

  /** A race link yields its digits; a handler without the token yields nothing. */
  lemma SampleRaceLinks()
    ensures RaceId("race_987") == Some("987")
    ensures RaceId("show(987)") == None
  {
    SpanEndExact("race_987", 5, 8, IsDigit);
    assert PrefixAt("race_987", 0, RaceToken);
    assert "race_987"[5..8] == "987";
    assert DigitsAt("race_987", RaceToken, 0) == Some("987");
    var t := "show(987)";
    forall i: nat ensures !PrefixAt(t, i, RaceToken) {
      if i + 5 <= |t| {
        assert t[i..i + 5][0] == t[i];
        assert t[i] != 'r';
      }
    }
    forall i: nat, d ensures !DigitGroupMatch(t, RaceToken, i, d) {
      PrefixAtConcat(t, i, RaceToken, d);
    }
  }

  /** The date is stripped from a discipline title; a title without one is kept. */
  lemma SampleTitles()
    ensures StripTrailingDate("Road Race 05/10/2021") == "Road Race"
    ensures StripTrailingDate("Road Race") == "Road Race"
  {
    var stem, d := "Road Race", "05/10/2021";
    assert stem + " " + d == "Road Race 05/10/2021";
    SampleDate(stem, d);
    assert !HasDateSuffix(stem) by {
      assert DateEnd(stem) == 9;
    }
  }

  /** A stem ending in a letter or digit followed by one space and a date loses the space and the date. */
  lemma SampleDate(stem: string, d: string)
    requires |stem| > 0
    requires var c := stem[|stem| - 1]; '0' <= c <= '9' || 'A' <= c <= 'Z' || 'a' <= c <= 'z'
    requires IsDate(d)
    ensures StripTrailingDate(stem + " " + d) == stem
  {
    assert AllSpace(" ") by {
      assert " "[0] == ' ';
    }
    StripDateAfterStem(stem, " ", d);
  }

  /** A name that is a blank run and a date after a stem not ending in a blank loses exactly the run and the date. */
  lemma StripDateAfterStem(p: string, w: string, d: string)
    requires |w| > 0 && AllSpace(w) && IsDate(d)
    requires p == [] || !IsSpace(p[|p| - 1])
    ensures StripTrailingDate(p + w + d) == p
  {
    var s := p + w + d;
    var e := |s|;
    assert s[e - 1] == d[9];
    assert DateEnd(s) == e;
    assert s[e - 10..e] == d;
    assert s[e - 11] == w[|w| - 1];
    assert HasDateSuffix(s);
    forall k | |p| <= k < e - 10 ensures IsSpace(s[k]) {
      assert s[k] == w[k - |p|];
    }
    if |p| > 0 {
      assert s[|p| - 1] == p[|p| - 1];
    }
    SpanStartExact(s, |p|, e - 10, IsSpace);
    assert s[..|p|] == p;
  }

  /**
   * Stripping is not idempotent: a name ending in two blank-separated dates loses one date per
   * application, so a second application changes the result of the first.
   */
  lemma StripNotIdempotentOnTwoDates(p: string, w1: string, d1: string, w2: string, d2: string)
    requires |w1| > 0 && AllSpace(w1) && IsDate(d1)
    requires |w2| > 0 && AllSpace(w2) && IsDate(d2)
    requires p == [] || !IsSpace(p[|p| - 1])
    ensures StripTrailingDate(p + w1 + d1 + w2 + d2) == p + w1 + d1
    ensures StripTrailingDate(p + w1 + d1) == p
    ensures StripTrailingDate(StripTrailingDate(p + w1 + d1 + w2 + d2)) != StripTrailingDate(p + w1 + d1 + w2 + d2)
  {
    var stem := p + w1 + d1;
    assert stem[|stem| - 1] == d1[9];
    StripDateAfterStem(stem, w2, d2);
    StripDateAfterStem(p, w1, d1);
    assert |p| < |stem|;
  }
}
