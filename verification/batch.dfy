/**
 * The client's catch-and-continue loops: a batch of items is processed in order, the
 * items whose conversion fails are skipped, and the survivors keep their order.
 */
module Batch {
  import opened Outcomes

  /** Applies `f` to every item in order, keeping what it yields and skipping the items it rejects. */
  function Collect<A, B>(xs: seq<A>, f: A -> Option<B>): (ys: seq<B>)
    ensures |ys| <= |xs|
    ensures forall y :: y in ys ==> exists i :: 0 <= i < |xs| && f(xs[i]) == Some(y)
    decreases |xs|
  {
    if |xs| == 0 then []
    else
      assert forall i :: 1 <= i < |xs| ==> xs[1..][i - 1] == xs[i];
      match f(xs[0])
      case Some(y) => [y] + Collect(xs[1..], f)
      case None => Collect(xs[1..], f)
  }

  /** Item `idx[k]` of `xs` is accepted by `f` and yields `ys[k]`. */
  ghost predicate Picks<A, B>(xs: seq<A>, f: A -> Option<B>, ys: seq<B>, idx: seq<nat>) {
    && |idx| == |ys|
    && forall k :: 0 <= k < |idx| ==> idx[k] < |xs| && f(xs[idx[k]]) == Some(ys[k])
  }

  ghost predicate Increasing(idx: seq<nat>) {
    forall k, l :: 0 <= k < l < |idx| ==> idx[k] < idx[l]
  }

  /** Every item of `xs` that `f` accepts is picked. */
  ghost predicate Covers<A, B>(xs: seq<A>, f: A -> Option<B>, idx: seq<nat>) {
    forall i :: 0 <= i < |xs| && f(xs[i]).Some? ==> i in idx
  }

  /**
   * `idx` picks, in increasing order, exactly the items of `xs` that `f` accepts, and `ys`
   * holds what `f` yields for them: the survivors of the batch, in input order.
   */
  ghost predicate OrderedSelection<A, B>(xs: seq<A>, f: A -> Option<B>, ys: seq<B>, idx: seq<nat>) {
    Picks(xs, f, ys, idx) && Increasing(idx) && Covers(xs, f, idx)
  }

  /** `ys` is the ordered selection of what `f` accepts in `xs`. */
  ghost predicate Survivors<A, B>(xs: seq<A>, f: A -> Option<B>, ys: seq<B>) {
    exists idx :: OrderedSelection(xs, f, ys, idx)
  }

  /** Indices moved one item to the right. */
  function Shift(idx: seq<nat>): (r: seq<nat>)
    ensures |r| == |idx|
    ensures forall k :: 0 <= k < |idx| ==> r[k] == idx[k] + 1
  {
    seq(|idx|, k requires 0 <= k < |idx| => idx[k] + 1)
  }

  /** Indices moved one item to the left; none may be 0. */
  function Unshift(idx: seq<nat>): (r: seq<nat>)
    requires forall k :: 0 <= k < |idx| ==> idx[k] >= 1
    ensures |r| == |idx|
    ensures forall k :: 0 <= k < |idx| ==> r[k] == idx[k] - 1
  {
    seq(|idx|, k requires 0 <= k < |idx| => idx[k] - 1)
  }

  /** A rejected head item leaves the selection of the tail in place, one position further right. */
  lemma SelectionSkip<A, B>(xs: seq<A>, f: A -> Option<B>, ys: seq<B>, rest: seq<nat>)
    requires |xs| > 0 && f(xs[0]).None?
    requires OrderedSelection(xs[1..], f, ys, rest)
    ensures OrderedSelection(xs, f, ys, Shift(rest))
  {
    var idx := Shift(rest);
    forall k | 0 <= k < |idx| ensures idx[k] < |xs| && f(xs[idx[k]]) == Some(ys[k]) {
      assert xs[idx[k]] == xs[1..][rest[k]];
    }
    forall i | 0 <= i < |xs| && f(xs[i]).Some? ensures i in idx {
      assert xs[1..][i - 1] == xs[i];
      var k :| 0 <= k < |rest| && rest[k] == i - 1;
      assert idx[k] == i;
    }
  }

  /** An accepted head item goes first, before the tail's selection. */
  lemma SelectionKeep<A, B>(xs: seq<A>, f: A -> Option<B>, y: B, ys: seq<B>, rest: seq<nat>)
    requires |xs| > 0 && f(xs[0]) == Some(y)
    requires OrderedSelection(xs[1..], f, ys, rest)
    ensures OrderedSelection(xs, f, [y] + ys, [0] + Shift(rest))
  {
    var shifted := Shift(rest);
    var idx := [0] + shifted;
    var out := [y] + ys;
    forall k | 0 <= k < |idx| ensures idx[k] < |xs| && f(xs[idx[k]]) == Some(out[k]) {
      if k > 0 {
        assert idx[k] == rest[k - 1] + 1 && out[k] == ys[k - 1];
        assert xs[idx[k]] == xs[1..][rest[k - 1]];
      }
    }
    assert Picks(xs, f, out, idx);
    forall k, l | 0 <= k < l < |idx| ensures idx[k] < idx[l] {
      assert idx[l] == rest[l - 1] + 1;
      if k > 0 {
        assert idx[k] == rest[k - 1] + 1;
      }
    }
    assert Increasing(idx);
    forall i | 0 <= i < |xs| && f(xs[i]).Some? ensures i in idx {
      if i > 0 {
        assert xs[1..][i - 1] == xs[i];
        var k :| 0 <= k < |rest| && rest[k] == i - 1;
        assert idx[k + 1] == i;
      }
    }
  }

  /** The indices behind `Collect`'s output. */
  lemma {:induction false} CollectIndices<A, B>(xs: seq<A>, f: A -> Option<B>) returns (idx: seq<nat>)
    ensures OrderedSelection(xs, f, Collect(xs, f), idx)
    decreases |xs|
  {
    if |xs| == 0 {
      idx := [];
    } else {
      var rest := CollectIndices(xs[1..], f);
      if f(xs[0]).Some? {
        SelectionKeep(xs, f, f(xs[0]).value, Collect(xs[1..], f), rest);
        idx := [0] + Shift(rest);
      } else {
        SelectionSkip(xs, f, Collect(xs[1..], f), rest);
        idx := Shift(rest);
      }
    }
  }

  /** `Collect` keeps exactly the accepted items, in input order. */
  lemma CollectKeepsSurvivors<A, B>(xs: seq<A>, f: A -> Option<B>)
    ensures Survivors(xs, f, Collect(xs, f))
  {
    var idx := CollectIndices(xs, f);
  }

  /** Nothing `f` accepts is lost: what it yields for an accepted item is in `Collect`'s output. */
  lemma CollectKeepsAccepted<A, B>(xs: seq<A>, f: A -> Option<B>, i: int)
    requires 0 <= i < |xs| && f(xs[i]).Some?
    ensures f(xs[i]).value in Collect(xs, f)
  {
    var idx := CollectIndices(xs, f);
    var k :| 0 <= k < |idx| && idx[k] == i;
  }

  /** With the head rejected, the selection is one of the tail. */
  lemma SelectionOfTailAfterSkip<A, B>(xs: seq<A>, f: A -> Option<B>, ys: seq<B>, idx: seq<nat>)
    requires |xs| > 0 && f(xs[0]).None?
    requires OrderedSelection(xs, f, ys, idx)
    ensures forall k :: 0 <= k < |idx| ==> idx[k] >= 1
    ensures OrderedSelection(xs[1..], f, ys, Unshift(idx))
  {
    forall k | 0 <= k < |idx| ensures idx[k] >= 1 {
      assert f(xs[idx[k]]) == Some(ys[k]);
    }
    var idx' := Unshift(idx);
    forall k | 0 <= k < |idx'| ensures idx'[k] < |xs[1..]| && f(xs[1..][idx'[k]]) == Some(ys[k]) {
      assert xs[1..][idx'[k]] == xs[idx[k]];
    }
    assert Picks(xs[1..], f, ys, idx');
    forall k, l | 0 <= k < l < |idx'| ensures idx'[k] < idx'[l] {
      assert idx[k] < idx[l];
    }
    assert Increasing(idx');
    forall i | 0 <= i < |xs[1..]| && f(xs[1..][i]).Some? ensures i in idx' {
      assert xs[1..][i] == xs[i + 1];
      var k :| 0 <= k < |idx| && idx[k] == i + 1;
      assert idx'[k] == i;
    }
    assert Covers(xs[1..], f, idx');
  }

  /** With the head accepted, it is picked first and the rest is a selection of the tail. */
  lemma SelectionOfTailAfterKeep<A, B>(xs: seq<A>, f: A -> Option<B>, ys: seq<B>, idx: seq<nat>)
    requires |xs| > 0 && f(xs[0]).Some?
    requires OrderedSelection(xs, f, ys, idx)
    ensures |idx| > 0 && idx[0] == 0 && ys[0] == f(xs[0]).value
    ensures forall k :: 0 <= k < |idx[1..]| ==> idx[1..][k] >= 1
    ensures OrderedSelection(xs[1..], f, ys[1..], Unshift(idx[1..]))
  {
    var k0 :| 0 <= k0 < |idx| && idx[k0] == 0;
    var tail := idx[1..];
    forall k | 0 <= k < |tail| ensures tail[k] >= 1 {
      assert idx[0] < idx[k + 1];
    }
    var idx' := Unshift(tail);
    forall k | 0 <= k < |idx'| ensures idx'[k] < |xs[1..]| && f(xs[1..][idx'[k]]) == Some(ys[1..][k]) {
      assert xs[1..][idx'[k]] == xs[idx[k + 1]];
    }
    forall k, l | 0 <= k < l < |idx'| ensures idx'[k] < idx'[l] {
      assert idx[k + 1] < idx[l + 1];
    }
    forall i | 0 <= i < |xs[1..]| && f(xs[1..][i]).Some? ensures i in idx' {
      assert xs[1..][i] == xs[i + 1];
      var k :| 0 <= k < |idx| && idx[k] == i + 1;
      assert idx'[k - 1] == i;
    }
  }

  /** An accepted head followed by the tail's output is the whole batch's output. */
  lemma CollectOfKeptHead<A, B>(xs: seq<A>, f: A -> Option<B>, ys: seq<B>)
    requires |xs| > 0 && f(xs[0]).Some?
    requires |ys| > 0 && ys[0] == f(xs[0]).value && ys[1..] == Collect(xs[1..], f)
    ensures ys == Collect(xs, f)
  {
    assert ys == [ys[0]] + ys[1..];
  }

  /** The ordered selection leaves no choice: whatever satisfies it is `Collect`'s output. */
  lemma {:induction false} SurvivorsAreUnique<A, B>(xs: seq<A>, f: A -> Option<B>, ys: seq<B>, idx: seq<nat>)
    requires OrderedSelection(xs, f, ys, idx)
    ensures ys == Collect(xs, f)
    decreases |xs|
  {
    if |xs| == 0 {
    } else if f(xs[0]).Some? {
      SelectionOfTailAfterKeep(xs, f, ys, idx);
      SurvivorsAreUnique(xs[1..], f, ys[1..], Unshift(idx[1..]));
      CollectOfKeptHead(xs, f, ys);
    } else {
      SelectionOfTailAfterSkip(xs, f, ys, idx);
      SurvivorsAreUnique(xs[1..], f, ys, Unshift(idx));
    }
  }

  /** Concatenates, in order, the sequences `f` produces for the items of `xs`. */
  function FlatMap<A, B>(xs: seq<A>, f: A -> seq<B>): (ys: seq<B>)
    ensures forall y :: y in ys ==> exists i :: 0 <= i < |xs| && y in f(xs[i])
    ensures forall i, y :: 0 <= i < |xs| && y in f(xs[i]) ==> y in ys
    ensures (forall i :: 0 <= i < |xs| ==> f(xs[i]) == []) <==> ys == []
    decreases |xs|
  {
    if |xs| == 0 then []
    else
      var rest := FlatMap(xs[1..], f);
      assert forall i :: 1 <= i < |xs| ==> xs[1..][i - 1] == xs[i];
      f(xs[0]) + rest
  }

  /** `Collect` looks at the items only through `f`: two functions that agree on them collect alike. */
  lemma {:induction false} CollectCongruent<A, B>(xs: seq<A>, f: A -> Option<B>, g: A -> Option<B>)
    requires forall i :: 0 <= i < |xs| ==> f(xs[i]) == g(xs[i])
    ensures Collect(xs, f) == Collect(xs, g)
    decreases |xs|
  {
    if |xs| > 0 {
      assert forall i :: 0 <= i < |xs[1..]| ==> xs[1..][i] == xs[i + 1];
      CollectCongruent(xs[1..], f, g);
    }
  }

  /** `FlatMap` looks at the items only through `f`. */
  lemma {:induction false} FlatMapCongruent<A, B>(xs: seq<A>, f: A -> seq<B>, g: A -> seq<B>)
    requires forall i :: 0 <= i < |xs| ==> f(xs[i]) == g(xs[i])
    ensures FlatMap(xs, f) == FlatMap(xs, g)
    decreases |xs|
  {
    if |xs| > 0 {
      assert forall i :: 0 <= i < |xs[1..]| ==> xs[1..][i] == xs[i + 1];
      FlatMapCongruent(xs[1..], f, g);
    }
  }

  /** Item `i` is the last item that `val` accepts under the key `k`. */
  ghost predicate LastAccepted<A, K, V>(xs: seq<A>, key: A -> K, val: A -> Option<V>, k: K, i: int) {
    && 0 <= i < |xs| && key(xs[i]) == k && val(xs[i]).Some?
    && forall j :: i < j < |xs| && key(xs[j]) == k ==> val(xs[j]).None?
  }

  /**
   * A dictionary filled in order: every accepted item stores its value under its key, a later
   * item replacing an earlier one; rejected items store nothing.
   */
  function Tabulate<A, K, V>(xs: seq<A>, key: A -> K, val: A -> Option<V>): (m: map<K, V>)
    ensures forall k :: k in m ==> exists i :: LastAccepted(xs, key, val, k, i) && val(xs[i]) == Some(m[k])
    ensures forall i :: 0 <= i < |xs| && val(xs[i]).Some? ==> key(xs[i]) in m
    decreases |xs|
  {
    if |xs| == 0 then map[]
    else
      var n := |xs| - 1;
      var m := Tabulate(xs[..n], key, val);
      match val(xs[n])
      case Some(v) =>
        TabulateStored(xs, key, val, m, v);
        m[key(xs[n]) := v]
      case None =>
        TabulateSkipped(xs, key, val, m);
        m
  }

  /** What `Tabulate` promises of the items before the last one. */
  ghost predicate TabulatedBefore<A, K, V>(xs: seq<A>, key: A -> K, val: A -> Option<V>, m: map<K, V>)
    requires |xs| > 0
  {
    && (forall k :: k in m ==> exists i :: LastAccepted(xs[..|xs| - 1], key, val, k, i) && val(xs[i]) == Some(m[k]))
    && (forall i :: 0 <= i < |xs| - 1 && val(xs[i]).Some? ==> key(xs[i]) in m)
  }

  /** An accepted last item becomes the last one stored under its key. */
  lemma TabulateStored<A, K, V>(xs: seq<A>, key: A -> K, val: A -> Option<V>, m: map<K, V>, v: V)
    requires |xs| > 0 && TabulatedBefore(xs, key, val, m)
    requires val(xs[|xs| - 1]) == Some(v)
    ensures var r := m[key(xs[|xs| - 1]) := v];
            && (forall k :: k in r ==> exists i :: LastAccepted(xs, key, val, k, i) && val(xs[i]) == Some(r[k]))
            && (forall i :: 0 <= i < |xs| && val(xs[i]).Some? ==> key(xs[i]) in r)
  {
    var n := |xs| - 1;
    var r := m[key(xs[n]) := v];
    forall k | k in r ensures exists i :: LastAccepted(xs, key, val, k, i) && val(xs[i]) == Some(r[k]) {
      if k == key(xs[n]) {
        assert LastAccepted(xs, key, val, k, n);
      } else {
        var i :| LastAccepted(xs[..n], key, val, k, i) && val(xs[i]) == Some(m[k]);
        assert xs[..n][i] == xs[i];
        assert LastAccepted(xs, key, val, k, i);
      }
    }
  }

  /** A rejected last item leaves the dictionary as it was. */
  lemma TabulateSkipped<A, K, V>(xs: seq<A>, key: A -> K, val: A -> Option<V>, m: map<K, V>)
    requires |xs| > 0 && TabulatedBefore(xs, key, val, m)
    requires val(xs[|xs| - 1]).None?
    ensures forall k :: k in m ==> exists i :: LastAccepted(xs, key, val, k, i) && val(xs[i]) == Some(m[k])
    ensures forall i :: 0 <= i < |xs| && val(xs[i]).Some? ==> key(xs[i]) in m
  {
    var n := |xs| - 1;
    forall k | k in m ensures exists i :: LastAccepted(xs, key, val, k, i) && val(xs[i]) == Some(m[k]) {
      var i :| LastAccepted(xs[..n], key, val, k, i) && val(xs[i]) == Some(m[k]);
      assert xs[..n][i] == xs[i];
      assert LastAccepted(xs, key, val, k, i);
    }
  }

  /** A dictionary filled from the survivors of a batch: every entry comes from an item the conversion accepts. */
  lemma TabulateCollectedKey<A, B, K, V>(xs: seq<A>, f: A -> Option<B>, key: B -> K, val: B -> Option<V>, k: K)
    requires k in Tabulate(Collect(xs, f), key, val)
    ensures exists i :: && 0 <= i < |xs| && f(xs[i]).Some? && key(f(xs[i]).value) == k
                        && val(f(xs[i]).value) == Some(Tabulate(Collect(xs, f), key, val)[k])
  {
    var ys := Collect(xs, f);
    var m := Tabulate(ys, key, val);
    var j :| LastAccepted(ys, key, val, k, j) && val(ys[j]) == Some(m[k]);
    assert ys[j] in ys;
    var i :| 0 <= i < |xs| && f(xs[i]) == Some(ys[j]);
  }

  /** Every item the conversion accepts and whose value is accepted leaves its key in the dictionary. */
  lemma TabulateCollectedCovers<A, B, K, V>(xs: seq<A>, f: A -> Option<B>, key: B -> K, val: B -> Option<V>, i: int)
    requires 0 <= i < |xs| && f(xs[i]).Some? && val(f(xs[i]).value).Some?
    ensures key(f(xs[i]).value) in Tabulate(Collect(xs, f), key, val)
  {
    var ys := Collect(xs, f);
    CollectKeepsAccepted(xs, f, i);
    var j :| 0 <= j < |ys| && ys[j] == f(xs[i]).value;
  }

  /** `Tabulate` looks at the items only through `key` and `val`. */
  lemma {:induction false} TabulateCongruent<A, K, V>(xs: seq<A>, key: A -> K, val: A -> Option<V>, other: A -> Option<V>)
    requires forall i :: 0 <= i < |xs| ==> val(xs[i]) == other(xs[i])
    ensures Tabulate(xs, key, val) == Tabulate(xs, key, other)
    decreases |xs|
  {
    if |xs| > 0 {
      var n := |xs| - 1;
      assert forall i :: 0 <= i < |xs[..n]| ==> xs[..n][i] == xs[i];
      TabulateCongruent(xs[..n], key, val, other);
    }
  }
}
