/**
 * The Python list operations the process manager relies on, as functions on
 * sequences: `list.remove`, the `if x in l: l.remove(x)` idiom, and what a
 * `for x in l:` loop visits when its body removes `x` from `l`.
 */
module PyLists {

  /** No element occurs twice. */
  predicate Distinct<T(==)>(s: seq<T>) {
    forall i, j :: 0 <= i < j < |s| ==> s[i] != s[j]
  }

  /** A prefix one longer is the shorter prefix and one more item. */
  lemma SliceSnoc<T>(s: seq<T>, i: nat)
    requires i < |s|
    ensures s[..i + 1] == s[..i] + [s[i]]
  {
  }

  /** The last item of a sequence adds one to its own count only. */
  lemma CountSnoc<T>(s: seq<T>, x: T)
    requires s != []
    ensures multiset(s)[x] == multiset(s[..|s| - 1])[x] + (if s[|s| - 1] == x then 1 else 0)
  {
    assert s == s[..|s| - 1] + [s[|s| - 1]];
  }

  /** A suffix is its first item and the suffix one shorter. */
  lemma SliceCons<T>(s: seq<T>, i: nat)
    requires i < |s|
    ensures s[i..] == [s[i]] + s[i + 1..]
  {
  }

  /** In `a + [x] + b`, `a` is the prefix before position `|a|`, which holds `x`. */
  lemma AppendAt<T>(a: seq<T>, x: T, b: seq<T>)
    ensures (a + [x] + b)[..|a|] == a && (a + [x] + b)[|a|] == x
  {
  }

  /** Concatenation is associative. */
  lemma AppendAssoc<T>(a: seq<T>, b: seq<T>, c: seq<T>)
    ensures a + b + c == a + (b + c)
  {
  }

  /** `p` written `n` times in a row. */
  function Repeat<T>(p: seq<T>, n: nat): seq<T> {
    if n == 0 then [] else Repeat(p, n - 1) + p
  }

  /** The position of the first occurrence of `x` (Python's `list.index`). */
  function FirstIndex<T(==)>(s: seq<T>, x: T): (i: nat)
    requires x in s
    ensures i < |s| && s[i] == x && x !in s[..i]
  {
    if s[0] == x then 0
    else
      var k := FirstIndex(s[1..], x);
      assert s[..k + 1] == [s[0]] + s[1..][..k];
      k + 1
  }

  /** Python's `list.remove(x)`: the first occurrence of `x` goes, everything else stays in order. */
  function RemoveFirst<T(==)>(s: seq<T>, x: T): (r: seq<T>)
    requires x in s
    ensures |r| == |s| - 1
    ensures multiset(r) == multiset(s) - multiset{x}
  {
    var i := FirstIndex(s, x);
    assert s == s[..i] + [x] + s[i + 1..];
    s[..i] + s[i + 1..]
  }

  /** `list.remove` takes the first item when it is the one asked for. */
  lemma RemoveFirstHead<T>(x: T, t: seq<T>)
    ensures RemoveFirst([x] + t, x) == t
  {
    assert FirstIndex([x] + t, x) == 0;
  }

  /** `list.remove` passes over a leading item that differs from the one asked for. */
  lemma RemoveFirstCons<T>(a: T, t: seq<T>, x: T)
    requires a != x && x in t
    ensures RemoveFirst([a] + t, x) == [a] + RemoveFirst(t, x)
  {
    var s := [a] + t;
    var k := FirstIndex(t, x);
    assert s[1..] == t;
    assert FirstIndex(s, x) == k + 1;
    assert s[..k + 1] == [a] + t[..k];
    assert s[k + 2..] == t[k + 1..];
  }

  /** `list.remove` on `p + [x] + q` with no `x` in `p` leaves `p + q`. */
  lemma RemoveFirstAfter<T>(p: seq<T>, x: T, q: seq<T>)
    requires x !in p
    ensures RemoveFirst(p + [x] + q, x) == p + q
  {
    var s := p + [x] + q;
    var k := FirstIndex(s, x);
    assert s[|p|] == x;
    assert forall i :: 0 <= i < |p| ==> s[i] == p[i];
    assert k == |p|;
    assert s[..k] == p && s[k + 1..] == q;
  }

  /** `if x in s: s.remove(x)`: one occurrence of `x` fewer, if there was one. */
  function RemoveIfPresent<T(==)>(s: seq<T>, x: T): (r: seq<T>)
    ensures multiset(r) == multiset(s) - multiset{x}
    ensures x !in s ==> r == s
  {
    if x in s then RemoveFirst(s, x) else s
  }

  /** `for x in t: if x in s: s.remove(x)`: one occurrence fewer of each item of `t`, as far as there is one. */
  function RemoveAll<T(==)>(s: seq<T>, t: seq<T>): (r: seq<T>)
    ensures multiset(r) == multiset(s) - multiset(t)
  {
    if t == [] then s
    else
      var n := |t| - 1;
      assert t == t[..n] + [t[n]];
      RemoveIfPresent(RemoveAll(s, t[..n]), t[n])
  }

  /** RemoveAll takes the items of `t` in order: one more item is one more removal, last. */
  lemma RemoveAllSnoc<T>(s: seq<T>, t: seq<T>, x: T)
    ensures RemoveAll(s, t + [x]) == RemoveIfPresent(RemoveAll(s, t), x)
  {
    assert (t + [x])[..|t|] == t;
  }

  /** When `s` holds every item of `t` as often as `t` does, an item is in `s` exactly when it is in `t` or left over. */
  lemma RemoveAllMembers<T>(s: seq<T>, t: seq<T>, x: T)
    requires multiset(t) <= multiset(s)
    ensures x in s <==> x in t || x in RemoveAll(s, t)
  {
    var r := RemoveAll(s, t);
    assert multiset(s)[x] == multiset(t)[x] + multiset(r)[x];
    assert x in s <==> multiset(s)[x] > 0;
    assert x in t <==> multiset(t)[x] > 0;
    assert x in r <==> multiset(r)[x] > 0;
  }

  /** The items of `s` without repeats, each where it first occurs: `list(set(s))` with the order fixed. */
  function Dedup<T(==)>(s: seq<T>): (r: seq<T>)
    ensures |r| <= |s|
  {
    if s == [] then []
    else
      var n := |s| - 1;
      var d := Dedup(s[..n]);
      if s[n] in d then d else d + [s[n]]
  }

  /** Dedup lists every item of `s`, and nothing else, once. */
  lemma {:induction false} DedupMembers<T>(s: seq<T>)
    ensures Distinct(Dedup(s))
    ensures forall x :: x in Dedup(s) <==> x in s
  {
    if s != [] {
      var n := |s| - 1;
      var d := Dedup(s[..n]);
      DedupMembers(s[..n]);
      assert s == s[..n] + [s[n]];
      if s[n] !in d {
        assert forall i :: 0 <= i < |d| ==> (d + [s[n]])[i] == d[i] != s[n];
      }
    }
  }

  /** The `i`-th removal of `for x in t: s.remove(x)` finds its item: it is still in what the earlier removals left. */
  predicate RemovableAt<T(==)>(t: seq<T>, s: seq<T>, i: nat)
    requires i < |t|
  {
    t[i] in RemoveAll(s, t[..i])
  }

  /** `for x in t: s.remove(x)` raises no ValueError: each item of `t` is still in `s` when its turn comes. */
  predicate EachRemovable<T(==)>(t: seq<T>, s: seq<T>) {
    forall i :: 0 <= i < |t| ==> RemovableAt(t, s, i)
  }

  /** A removal that succeeds still succeeds when more items follow it. */
  lemma RemovableAtAppend<T>(t: seq<T>, x: T, s: seq<T>, k: nat)
    requires k < |t| && RemovableAt(t, s, k)
    ensures RemovableAt(t + [x], s, k)
  {
    assert (t + [x])[..k] == t[..k];
  }

  /** One more item at the end of `t` is removable when its predecessors are and it is still there. */
  lemma EachRemovableSnoc<T>(t: seq<T>, x: T, s: seq<T>)
    requires EachRemovable(t, s) && x in RemoveAll(s, t)
    ensures EachRemovable(t + [x], s)
  {
    var p := t + [x];
    assert p[..|t|] == t;
    forall k | 0 <= k < |t|
      ensures RemovableAt(p, s, k)
    {
      RemovableAtAppend(t, x, s, k);
    }
  }

  /** When all of `t` can be removed, so can any prefix of it. */
  lemma EachRemovablePrefix<T>(t: seq<T>, s: seq<T>, j: nat)
    requires EachRemovable(t, s) && j <= |t|
    ensures EachRemovable(t[..j], s)
  {
    var q := t[..j];
    forall k | 0 <= k < j
      ensures RemovableAt(q, s, k)
    {
      assert RemovableAt(t, s, k);
      assert q[..k] == t[..k];
    }
  }

  /** Every removal succeeds when `s` holds each item of `t` at least as often as `t` does. */
  lemma EachRemovableWhenIncluded<T>(t: seq<T>, s: seq<T>)
    requires multiset(t) <= multiset(s)
    ensures EachRemovable(t, s)
  {
    forall i | 0 <= i < |t|
      ensures RemovableAt(t, s, i)
    {
      var x := t[i];
      assert t == t[..i] + [x] + t[i + 1..];
      assert multiset(t)[x] >= multiset(t[..i])[x] + 1;
      assert multiset(RemoveAll(s, t[..i]))[x] == multiset(s)[x] - multiset(t[..i])[x];
    }
  }

  /**
   * The items a Python `for x in s:` loop visits when its body removes `x`
   * from `s`: the loop's hidden index `i` moves on by one while the list
   * shifts left under it.
   */
  function LoopVisits<T(==)>(s: seq<T>, i: nat): seq<T>
    decreases |s| - i
  {
    if i >= |s| then [] else [s[i]] + LoopVisits(RemoveFirst(s, s[i]), i + 1)
  }

  /** The items at positions 0, 2, 4, ... */
  function EvenPositions<T>(s: seq<T>): seq<T> {
    if |s| <= 1 then s else [s[0]] + EvenPositions(s[2..])
  }

  /** On a list without repeats the loop of LoopVisits sees only the items at even positions. */
  lemma {:induction false} LoopVisitsEvenPositions<T>(s: seq<T>)
    requires Distinct(s)
    ensures LoopVisits(s, 0) == EvenPositions(s)
  {
    LoopVisitsFrom([], s);
  }

  /** In a list without repeats, the first item after a split point does not occur before it. */
  lemma DistinctSplit<T>(p: seq<T>, q: seq<T>)
    requires Distinct(p + q) && q != []
    ensures q[0] !in p
  {
    var s := p + q;
    assert forall i :: 0 <= i < |p| ==> p[i] == s[i] != s[|p|] == q[0];
  }

  /** Dropping an item from a list without repeats leaves a list without repeats. */
  lemma DistinctWithout<T>(p: seq<T>, x: T, r: seq<T>)
    requires Distinct(p + [x] + r)
    ensures Distinct(p + r)
  {
    var s := p + [x] + r;
    var t := p + r;
    forall i, j | 0 <= i < j < |t|
      ensures t[i] != t[j]
    {
      var i' := if i < |p| then i else i + 1;
      var j' := if j < |p| then j else j + 1;
      assert t[i] == s[i'] && t[j] == s[j'];
    }
  }

  /**
   * One round of the loop of LoopVisits over a list without repeats, at the
   * first item `q[0]` past a prefix `p`: it visits `q[0]` and removes it, so
   * that the next round is at `q[2]`, past the prefix `p` and `q[1]`, and the
   * list left has no repeats either.
   */
  lemma LoopVisitsStep<T>(p: seq<T>, q: seq<T>)
    requires Distinct(p + q) && q != []
    ensures |q| == 1 ==> LoopVisits(p + q, |p|) == q
    ensures |q| >= 2 ==> && LoopVisits(p + q, |p|) == [q[0]] + LoopVisits((p + [q[1]]) + q[2..], |p + [q[1]]|)
                         && Distinct((p + [q[1]]) + q[2..])
  {
    var x, rest := q[0], q[1..];
    assert p + q == p + [x] + rest;
    DistinctSplit(p, q);
    RemoveFirstAfter(p, x, rest);
    DistinctWithout(p, x, rest);
    if |q| >= 2 {
      assert p + rest == (p + [q[1]]) + q[2..];
    } else {
      assert p + rest == p;
    }
  }

  /**
   * Past a prefix `p` the loop of LoopVisits, over a list without repeats,
   * sees the items of the rest `q` at even positions of `q`.
   */
  lemma {:induction false} LoopVisitsFrom<T>(p: seq<T>, q: seq<T>)
    requires Distinct(p + q)
    ensures LoopVisits(p + q, |p|) == EvenPositions(q)
    decreases |q|
  {
    if q != [] {
      LoopVisitsStep(p, q);
      if |q| >= 2 {
        LoopVisitsFrom(p + [q[1]], q[2..]);
      }
    }
  }

  /** Position `j` of EvenPositions(s) holds s[2 * j]. */
  lemma {:induction false} EvenPositionsAt<T>(s: seq<T>, j: nat)
    requires j < |EvenPositions(s)|
    ensures 2 * j < |s| && EvenPositions(s)[j] == s[2 * j]
    decreases |s|
  {
    if |s| > 1 && j > 0 {
      EvenPositionsAt(s[2..], j - 1);
    }
  }

  /** The loop of LoopVisits never reaches an item at an odd position of a list without repeats. */
  lemma {:induction false} LoopVisitsMissesOddPositions<T>(s: seq<T>, k: nat)
    requires Distinct(s) && k < |s| && k % 2 == 1
    ensures s[k] !in LoopVisits(s, 0)
  {
    LoopVisitsEvenPositions(s);
    if s[k] in EvenPositions(s) {
      var j :| 0 <= j < |EvenPositions(s)| && EvenPositions(s)[j] == s[k];
      EvenPositionsAt(s, j);
    }
  }

  /** In a list without repeats an element that occurs, occurs once. */
  lemma {:induction false} DistinctOccursOnce<T>(s: seq<T>, x: T)
    requires Distinct(s) && x in s
    ensures multiset(s)[x] == 1
  {
    assert s == [s[0]] + s[1..];
    if s[0] == x {
      assert x !in s[1..] by {
        assert forall i :: 1 <= i < |s| ==> s[i] != s[0];
      }
    } else {
      DistinctOccursOnce(s[1..], x);
    }
  }

  /** Removing an item from a list without repeats leaves no copy of it behind. */
  lemma RemoveIfPresentDistinct<T>(s: seq<T>, x: T)
    requires Distinct(s)
    ensures x !in RemoveIfPresent(s, x)
  {
    if x in s {
      DistinctOccursOnce(s, x);
      assert multiset(RemoveIfPresent(s, x))[x] == 0;
    }
  }

  /** Every item the loop of LoopVisits reaches is taken from the list, as often as it occurs at most. */
  lemma {:induction false} LoopVisitsSubMultiset<T>(s: seq<T>, i: nat)
    ensures multiset(LoopVisits(s, i)) <= multiset(s)
    decreases |s| - i
  {
    if i < |s| {
      var x := s[i];
      LoopVisitsSubMultiset(RemoveFirst(s, x), i + 1);
      assert multiset(LoopVisits(s, i)) == multiset{x} + multiset(LoopVisits(RemoveFirst(s, x), i + 1));
    }
  }
}
