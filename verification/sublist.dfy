/** Kotlin's `filter`: the elements of a list that pass a test, kept in their
    original order and with their multiplicity. */
module Sublist {

  /** `idx` lists, strictly increasing, exactly the positions of `xs` whose
      element passes `p`, and `r` holds the elements at those positions. */
  ghost predicate SelectedAt<T>(xs: seq<T>, p: T -> bool, idx: seq<nat>, r: seq<T>) {
    |idx| == |r|
    && (forall k :: 0 <= k < |idx| ==> idx[k] < |xs| && xs[idx[k]] == r[k] && p(r[k]))
    && (forall k, l :: 0 <= k < l < |idx| ==> idx[k] < idx[l])
    && (forall i :: 0 <= i < |xs| && p(xs[i]) ==> i in idx)
  }

  /** `r` is `xs` with the elements failing `p` struck out. */
  ghost predicate IsSelection<T>(xs: seq<T>, p: T -> bool, r: seq<T>) {
    exists idx :: SelectedAt(xs, p, idx, r)
  }

  function Shift(idx: seq<nat>): (r: seq<nat>)
    ensures |r| == |idx|
    ensures forall k :: 0 <= k < |idx| ==> r[k] == idx[k] + 1
  {
    seq(|idx|, k requires 0 <= k < |idx| => idx[k] + 1)
  }

  /** The positions a selection keeps, built the way `Select` walks. */
  ghost function Positions<T>(xs: seq<T>, p: T -> bool): seq<nat>
    decreases |xs|
  {
    if xs == [] then []
    else if p(xs[0]) then [0] + Shift(Positions(xs[1..], p))
    else Shift(Positions(xs[1..], p))
  }

  /** Positions into `xs`, strictly increasing, all past the head, at which
      `r`'s elements stand and pass `p`, covering every passing position
      but the first. */
  ghost predicate TailSelected<T>(xs: seq<T>, p: T -> bool, s: seq<nat>, r: seq<T>) {
    |s| == |r|
    && (forall k :: 0 <= k < |s| ==> 0 < s[k] < |xs| && xs[s[k]] == r[k] && p(r[k]))
    && (forall k, l :: 0 <= k < l < |s| ==> s[k] < s[l])
    && (forall i :: 1 <= i < |xs| && p(xs[i]) ==> i in s)
  }

  /** The tail's positions, one further along, point at the same elements
      of the whole list. */
  lemma ShiftedSelection<T>(xs: seq<T>, p: T -> bool, idx: seq<nat>, r: seq<T>)
    requires xs != []
    requires SelectedAt(xs[1..], p, idx, r)
    ensures TailSelected(xs, p, Shift(idx), r)
  {
    var s := Shift(idx);
    forall k | 0 <= k < |idx|
      ensures 0 < s[k] < |xs| && xs[s[k]] == r[k]
    {
      assert xs[idx[k] + 1] == xs[1..][idx[k]];
    }
    forall i | 1 <= i < |xs| && p(xs[i])
      ensures i in s
    {
      assert xs[i] == xs[1..][i - 1];
      var k :| 0 <= k < |idx| && idx[k] == i - 1;
      assert s[k] == i;
    }
  }

  /** Putting position 0 in front keeps positions past the head increasing. */
  lemma PrependZero(s: seq<nat>)
    requires forall k :: 0 <= k < |s| ==> 0 < s[k]
    requires forall k, l :: 0 <= k < l < |s| ==> s[k] < s[l]
    ensures forall k, l :: 0 <= k < l < |[0] + s| ==> ([0] + s)[k] < ([0] + s)[l]
  {
    var t := [0] + s;
    forall k, l | 0 <= k < l < |t|
      ensures t[k] < t[l]
    {
      assert t[l] == s[l - 1];
      if k > 0 {
        assert t[k] == s[k - 1];
      }
    }
  }

  /** A selection from the tail, with a passing head in front. */
  lemma SelectedConsKeep<T>(xs: seq<T>, p: T -> bool, s: seq<nat>, r: seq<T>)
    requires xs != [] && p(xs[0])
    requires TailSelected(xs, p, s, r)
    ensures SelectedAt(xs, p, [0] + s, [xs[0]] + r)
  {
    var idx' := [0] + s;
    var r' := [xs[0]] + r;
    PrependZero(s);
    forall k | 0 <= k < |idx'|
      ensures idx'[k] < |xs| && xs[idx'[k]] == r'[k] && p(r'[k])
    {
      if k > 0 {
        assert idx'[k] == s[k - 1] && r'[k] == r[k - 1];
      }
    }
    forall i | 0 <= i < |xs| && p(xs[i])
      ensures i in idx'
    {
      if i > 0 {
        assert i in s;
      } else {
        assert idx'[0] == 0;
      }
    }
  }

  /** A selection from the tail, behind a head that fails the test. */
  lemma SelectedConsDrop<T>(xs: seq<T>, p: T -> bool, s: seq<nat>, r: seq<T>)
    requires xs != [] && !p(xs[0])
    requires TailSelected(xs, p, s, r)
    ensures SelectedAt(xs, p, s, r)
  {
    forall i | 0 <= i < |xs| && p(xs[i])
      ensures i in s
    {
      assert i != 0;
    }
  }

  /** `xs.filter(p)`. */
  function Select<T(!new)>(xs: seq<T>, p: T -> bool): (r: seq<T>)
    ensures forall x :: x in r <==> x in xs && p(x)
    ensures |r| <= |xs|
    decreases |xs|
  {
    if xs == [] then []
    else
      var rest := Select(xs[1..], p);
      assert forall x :: x in xs <==> x == xs[0] || x in xs[1..];
      if p(xs[0]) then [xs[0]] + rest else rest
  }

  /** `Select` strikes out exactly the elements failing the test, at the
      positions `Positions` lists. */
  lemma {:induction false} SelectSelectsAt<T(!new)>(xs: seq<T>, p: T -> bool)
    ensures SelectedAt(xs, p, Positions(xs, p), Select(xs, p))
    decreases |xs|
  {
    if xs == [] {
      assert SelectedAt(xs, p, [], []);
    } else {
      var rest := Select(xs[1..], p);
      SelectSelectsAt(xs[1..], p);
      ShiftedSelection(xs, p, Positions(xs[1..], p), rest);
      if p(xs[0]) {
        SelectedConsKeep(xs, p, Shift(Positions(xs[1..], p)), rest);
      } else {
        SelectedConsDrop(xs, p, Shift(Positions(xs[1..], p)), rest);
      }
    }
  }

  /** `Select` computes a selection. */
  lemma SelectIsSelection<T(!new)>(xs: seq<T>, p: T -> bool)
    ensures IsSelection(xs, p, Select(xs, p))
  {
    SelectSelectsAt(xs, p);
  }

  function Unshift(s: seq<nat>): (r: seq<nat>)
    requires forall k :: 0 <= k < |s| ==> 0 < s[k]
    ensures |r| == |s|
    ensures forall k :: 0 <= k < |s| ==> r[k] == s[k] - 1
  {
    seq(|s|, k requires 0 <= k < |s| && 0 < s[k] => s[k] - 1)
  }

  /** Positions past the head, one back, select from the tail. */
  lemma UnshiftedSelection<T>(xs: seq<T>, p: T -> bool, s: seq<nat>, r: seq<T>)
    requires xs != []
    requires TailSelected(xs, p, s, r)
    ensures SelectedAt(xs[1..], p, Unshift(s), r)
  {
    var u := Unshift(s);
    forall k | 0 <= k < |u|
      ensures u[k] < |xs[1..]| && xs[1..][u[k]] == r[k]
    {
      assert xs[1..][u[k]] == xs[s[k]];
    }
    forall i | 0 <= i < |xs[1..]| && p(xs[1..][i])
      ensures i in u
    {
      assert xs[1..][i] == xs[i + 1];
      var k :| 0 <= k < |s| && s[k] == i + 1;
      assert u[k] == i;
    }
  }

  /** In increasing positions, position 0 can only come first. */
  lemma ZeroFirst(idx: seq<nat>, j: nat)
    requires forall k, l :: 0 <= k < l < |idx| ==> idx[k] < idx[l]
    requires j < |idx| && idx[j] == 0
    ensures idx[0] == 0
  {
  }

  /** A passing head is the first selected element. */
  lemma HeadKept<T>(xs: seq<T>, p: T -> bool, idx: seq<nat>, r: seq<T>)
    requires xs != [] && p(xs[0])
    requires SelectedAt(xs, p, idx, r)
    ensures idx != [] && idx[0] == 0 && r[0] == xs[0]
    ensures TailSelected(xs, p, idx[1..], r[1..])
  {
    assert 0 in idx;
    var j :| 0 <= j < |idx| && idx[j] == 0;
    ZeroFirst(idx, j);
    var t := idx[1..];
    forall k | 0 <= k < |t|
      ensures 0 < t[k] < |xs| && xs[t[k]] == r[1..][k] && p(r[1..][k])
    {
      assert t[k] == idx[k + 1] && r[1..][k] == r[k + 1];
      assert idx[0] < idx[k + 1];
    }
    forall k, l | 0 <= k < l < |t|
      ensures t[k] < t[l]
    {
      assert t[k] == idx[k + 1] && t[l] == idx[l + 1];
    }
    forall i | 1 <= i < |xs| && p(xs[i])
      ensures i in t
    {
      var m :| 0 <= m < |idx| && idx[m] == i;
      assert m != 0;
      assert t[m - 1] == i;
    }
  }

  /** A failing head leaves every selected position past it. */
  lemma HeadDropped<T>(xs: seq<T>, p: T -> bool, idx: seq<nat>, r: seq<T>)
    requires xs != [] && !p(xs[0])
    requires SelectedAt(xs, p, idx, r)
    ensures TailSelected(xs, p, idx, r)
  {
    forall k | 0 <= k < |idx|
      ensures 0 < idx[k]
    {
      assert xs[idx[k]] == r[k] && p(r[k]);
    }
  }

  /** Positions below a bound start below it. */
  lemma FirstBelow(idx: seq<nat>, n: nat)
    requires forall k :: 0 <= k < |idx| ==> idx[k] < n
    ensures idx == [] || idx[0] < n
  {
  }

  /** A selection is determined by its list and test: any `r` the index
      characterisation admits is the one `Select` computes. */
  lemma {:induction false} SelectionUnique<T(!new)>(xs: seq<T>, p: T -> bool, idx: seq<nat>, r: seq<T>)
    requires SelectedAt(xs, p, idx, r)
    ensures r == Select(xs, p)
    decreases |xs|
  {
    if xs == [] {
      FirstBelow(idx, |xs|);
    } else if p(xs[0]) {
      HeadKept(xs, p, idx, r);
      UnshiftedSelection(xs, p, idx[1..], r[1..]);
      SelectionUnique(xs[1..], p, Unshift(idx[1..]), r[1..]);
      assert Select(xs, p) == [xs[0]] + Select(xs[1..], p);
      assert r == [r[0]] + r[1..];
    } else {
      HeadDropped(xs, p, idx, r);
      UnshiftedSelection(xs, p, idx, r);
      SelectionUnique(xs[1..], p, Unshift(idx), r);
      assert Select(xs, p) == Select(xs[1..], p);
    }
  }

  /** Tests that agree on the list's elements select the same elements. */
  lemma {:induction false} SelectAgrees<T(!new)>(xs: seq<T>, p: T -> bool, q: T -> bool)
    requires forall i :: 0 <= i < |xs| ==> p(xs[i]) == q(xs[i])
    ensures Select(xs, p) == Select(xs, q)
    decreases |xs|
  {
    if xs != [] {
      assert forall i :: 0 <= i < |xs[1..]| ==> xs[1..][i] == xs[i + 1];
      SelectAgrees(xs[1..], p, q);
    }
  }

  /** What a test keeps and what its negation keeps together make up the
      list again: a selection and its complement partition it. */
  lemma {:induction false} SelectSplit<T(!new)>(xs: seq<T>, p: T -> bool, q: T -> bool)
    requires forall i :: 0 <= i < |xs| ==> q(xs[i]) == !p(xs[i])
    ensures multiset(Select(xs, p)) + multiset(Select(xs, q)) == multiset(xs)
    decreases |xs|
  {
    if xs != [] {
      assert forall i :: 0 <= i < |xs[1..]| ==> xs[1..][i] == xs[i + 1];
      SelectSplit(xs[1..], p, q);
      assert xs == [xs[0]] + xs[1..];
    }
  }
}
