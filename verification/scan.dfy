/** Character classes and the greedy, leftmost scanning primitives from which the regexes are built. */
module Scan {
  import opened Outcomes

  /** `\d`, restricted to ASCII digits. */
  predicate IsDigit(c: char) {
    '0' <= c <= '9'
  }

  /** `\s` on a `str` pattern: exactly the characters for which `str.isspace()` holds. */
  predicate IsSpace(c: char) {
    || c == ' '
    || '\t' <= c <= '\r'
    || '\U{1C}' <= c <= '\U{1F}'
    || c == '\U{85}'
    || c == '\U{A0}'
    || c == '\U{1680}'
    || '\U{2000}' <= c <= '\U{200A}'
    || c == '\U{2028}'
    || c == '\U{2029}'
    || c == '\U{202F}'
    || c == '\U{205F}'
    || c == '\U{3000}'
  }

  /** A single or a double quote: the class `['"]`. */
  predicate IsQuote(c: char) {
    c == '\'' || c == '"'
  }

  /** The class `[^'"]`. */
  predicate NotQuote(c: char) {
    !IsQuote(c)
  }

  /** `s` holds `w` starting at position `i`. */
  predicate PrefixAt(s: string, i: nat, w: string) {
    i + |w| <= |s| && s[i..i + |w|] == w
  }

  /** End of the longest run of `p`-characters that starts at `i`: how far a greedy `p*` reaches. */
  function SpanEnd(s: string, i: nat, p: char -> bool): (j: nat)
    requires i <= |s|
    ensures i <= j <= |s|
    ensures forall k :: i <= k < j ==> p(s[k])
    ensures j == |s| || !p(s[j])
    decreases |s| - i
  {
    if i == |s| || !p(s[i]) then i else SpanEnd(s, i + 1, p)
  }

  /** Start of the longest run of `p`-characters that ends at `j`. */
  function SpanStart(s: string, j: nat, p: char -> bool): (i: nat)
    requires j <= |s|
    ensures i <= j
    ensures forall k :: i <= k < j ==> p(s[k])
    ensures i == 0 || !p(s[i - 1])
    decreases j
  {
    if j == 0 || !p(s[j - 1]) then j else SpanStart(s, j - 1, p)
  }

  /** The first position in `from..n` where `at` holds: the order in which `re.search` tries starts. */
  function Leftmost(n: nat, from: nat, at: nat -> bool): (r: Option<nat>)
    requires from <= n
    ensures r.Some? ==> from <= r.value <= n && at(r.value)
    ensures r.Some? ==> forall j :: from <= j < r.value ==> !at(j)
    ensures r.None? ==> forall j :: from <= j <= n ==> !at(j)
    decreases n - from
  {
    if at(from) then Some(from)
    else if from == n then None
    else Leftmost(n, from + 1, at)
  }

  /** Substring test, `w in s`. */
  function Contains(s: string, w: string): (b: bool)
    ensures b <==> exists i: nat :: PrefixAt(s, i, w)
  {
    var at := (i: nat) => PrefixAt(s, i, w);
    var r := Leftmost(|s|, 0, at);
    assert r.Some? ==> PrefixAt(s, r.value, w);
    assert r.None? ==> forall i: nat :: !PrefixAt(s, i, w) by {
      if r.None? {
        forall i: nat | i <= |s| ensures !PrefixAt(s, i, w) {
          assert !at(i);
        }
      }
    }
    r.Some?
  }

  /** A run is determined by its extent: any maximal `p`-run from `i` ends where `SpanEnd` says. */
  lemma SpanEndExact(s: string, i: nat, j: nat, p: char -> bool)
    requires i <= j <= |s|
    requires forall k :: i <= k < j ==> p(s[k])
    requires j == |s| || !p(s[j])
    ensures SpanEnd(s, i, p) == j
  {
  }

  /** Likewise leftwards: any maximal `p`-run ending at `j` starts where `SpanStart` says. */
  lemma SpanStartExact(s: string, i: nat, j: nat, p: char -> bool)
    requires i <= j <= |s|
    requires forall k :: i <= k < j ==> p(s[k])
    requires i == 0 || !p(s[i - 1])
    ensures SpanStart(s, j, p) == i
  {
  }

  /** `s` holds `u + v` at `i` exactly when it holds `u` there and `v` right after it. */
  lemma PrefixAtConcat(s: string, i: nat, u: string, v: string)
    ensures PrefixAt(s, i, u + v) <==> PrefixAt(s, i, u) && PrefixAt(s, i + |u|, v)
  {
    if i + |u| + |v| <= |s| {
      var m := i + |u|;
      assert s[i..m + |v|] == s[i..m] + s[m..m + |v|];
      if s[i..m + |v|] == u + v {
        assert s[i..m] == (u + v)[..|u|];
        assert s[m..m + |v|] == (u + v)[|u|..];
      }
    }
  }
}
