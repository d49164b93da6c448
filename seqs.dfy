/** `Array.prototype.filter` and `map`-replace over sequences, with the facts the
    list views and stores rely on. */
module Seqs {

  import opened Types

  /** `findIndex` / `indexOf`: the position of the first element that passes, or
      None when none does. */
  function FirstIndex<T>(s: seq<T>, p: T -> bool): (r: Option<nat>)
    ensures r.Some? ==> r.value < |s| && p(s[r.value])
    ensures r.Some? ==> forall j :: 0 <= j < r.value ==> !p(s[j])
    ensures r.None? <==> forall j :: 0 <= j < |s| ==> !p(s[j])
  {
    if s == [] then None
    else if p(s[0]) then Some(0)
    else
      match FirstIndex(s[1..], p)
      case None => None
      case Some(i) => Some(i + 1)
  }

  /** `find`: the first element that passes. */
  function Find<T>(s: seq<T>, p: T -> bool): (r: Option<T>)
    ensures r.Some? <==> FirstIndex(s, p).Some?
    ensures r.Some? ==> r.value == s[FirstIndex(s, p).value]
  {
    match FirstIndex(s, p)
    case None => None
    case Some(i) => Some(s[i])
  }

  /** `s.filter(keep)`: the elements that pass, in their original order. */
  function Filter<T(==)>(s: seq<T>, keep: T -> bool): (r: seq<T>)
    ensures |r| <= |s|
    ensures forall i :: 0 <= i < |r| ==> keep(r[i]) && r[i] in s
    ensures forall i :: 0 <= i < |s| && keep(s[i]) ==> s[i] in r
  {
    if s == [] then []
    else
      var s' := s[..|s| - 1];
      var rest := Filter(s', keep);
      assert forall i :: 0 <= i < |s'| ==> s'[i] == s[i];
      if keep(s[|s| - 1]) then rest + [s[|s| - 1]] else rest
  }

  /** `a` is `b` with some elements dropped, the rest kept in order. */
  predicate Subseq<T(==)>(a: seq<T>, b: seq<T>) {
    if a == [] then true
    else if b == [] then false
    else if a[|a| - 1] == b[|b| - 1] then Subseq(a[..|a| - 1], b[..|b| - 1])
    else Subseq(a, b[..|b| - 1])
  }

  lemma {:induction false} SubseqDropLast<T>(a: seq<T>, b: seq<T>)
    requires a != [] && Subseq(a, b)
    ensures Subseq(a[..|a| - 1], b)
    decreases |b|, 0
  {
    var a' := a[..|a| - 1];
    if a' != [] {
      var b' := b[..|b| - 1];
      if a[|a| - 1] == b[|b| - 1] {
        SubseqSnoc(a', b', b[|b| - 1]);
        assert b' + [b[|b| - 1]] == b;
      } else {
        SubseqDropLast(a, b');
        SubseqSnoc(a', b', b[|b| - 1]);
        assert b' + [b[|b| - 1]] == b;
      }
    }
  }

  lemma {:induction false} SubseqSnoc<T>(a: seq<T>, b: seq<T>, x: T)
    requires Subseq(a, b)
    ensures Subseq(a, b + [x])
    decreases |b|, 1
  {
    assert (b + [x])[..|b|] == b;
    if a != [] && a[|a| - 1] == x {
      SubseqDropLast(a, b);
    }
  }

  /** Filtering keeps order: the result is a subsequence of the input. */
  lemma {:induction false} FilterIsSubseq<T>(s: seq<T>, keep: T -> bool)
    ensures Subseq(Filter(s, keep), s)
  {
    if s != [] {
      var s' := s[..|s| - 1];
      FilterIsSubseq(s', keep);
      assert s == s' + [s[|s| - 1]];
      if keep(s[|s| - 1]) {
        var r := Filter(s, keep);
        assert r[..|r| - 1] == Filter(s', keep);
      } else {
        SubseqSnoc(Filter(s', keep), s', s[|s| - 1]);
      }
    }
  }

  /** Filtering with everything passing changes nothing. */
  lemma {:induction false} FilterAll<T>(s: seq<T>, keep: T -> bool)
    requires forall i :: 0 <= i < |s| ==> keep(s[i])
    ensures Filter(s, keep) == s
  {
    if s != [] {
      FilterAll(s[..|s| - 1], keep);
      assert s == s[..|s| - 1] + [s[|s| - 1]];
    }
  }

  /** Splitting by a predicate and its negation loses and duplicates nothing. */
  lemma {:induction false} FilterPartition<T>(s: seq<T>, keep: T -> bool, drop: T -> bool)
    requires forall x :: drop(x) == !keep(x)
    ensures multiset(Filter(s, keep)) + multiset(Filter(s, drop)) == multiset(s)
  {
    if s != [] {
      var s', x := s[..|s| - 1], s[|s| - 1];
      FilterPartition(s', keep, drop);
      assert s == s' + [x];
      assert multiset(s) == multiset(s') + multiset{x};
      if keep(x) {
        assert Filter(s, keep) == Filter(s', keep) + [x];
        assert Filter(s, drop) == Filter(s', drop);
      } else {
        assert Filter(s, keep) == Filter(s', keep);
        assert Filter(s, drop) == Filter(s', drop) + [x];
      }
    }
  }

  /** Filters by two tests that agree everywhere give the same result. */
  lemma {:induction false} FilterSame<T>(s: seq<T>, p: T -> bool, q: T -> bool)
    requires forall x :: p(x) == q(x)
    ensures Filter(s, p) == Filter(s, q)
  {
    if s != [] {
      FilterSame(s[..|s| - 1], p, q);
    }
  }

  /** No element is kept both by a predicate and by its negation. */
  lemma FilterDisjoint<T>(s: seq<T>, keep: T -> bool, drop: T -> bool)
    requires forall x :: drop(x) == !keep(x)
    ensures forall x :: !(x in Filter(s, keep) && x in Filter(s, drop))
  {
    var a, b := Filter(s, keep), Filter(s, drop);
    forall x | x in a ensures keep(x) {
      var i :| 0 <= i < |a| && a[i] == x;
    }
    forall x | x in b ensures !keep(x) {
      var j :| 0 <= j < |b| && b[j] == x;
      assert drop(b[j]);
    }
  }

  /** Filtering twice is filtering once by the conjunction. */
  lemma {:induction false} FilterFilter<T>(s: seq<T>, p: T -> bool, q: T -> bool, both: T -> bool)
    requires forall x :: both(x) == (p(x) && q(x))
    ensures Filter(Filter(s, p), q) == Filter(s, both)
  {
    if s != [] {
      var s' := s[..|s| - 1];
      FilterFilter(s', p, q, both);
      var fp := Filter(s, p);
      if p(s[|s| - 1]) {
        assert fp[..|fp| - 1] == Filter(s', p);
      }
    }
  }

  /** `s.map(x => key(x) == key(y) ? y : x)`: every entry whose key matches that of
      `y` becomes `y`; the others stay where they are. */
  function ReplaceByKey<T>(s: seq<T>, key: T -> string, y: T): (r: seq<T>)
    ensures |r| == |s|
    ensures forall i :: 0 <= i < |s| ==> r[i] == (if key(s[i]) == key(y) then y else s[i])
  {
    seq(|s|, i requires 0 <= i < |s| => if key(s[i]) == key(y) then y else s[i])
  }

  /** Replacing twice with the same entry is replacing once. */
  lemma ReplaceByKeyIdempotent<T>(s: seq<T>, key: T -> string, y: T)
    ensures ReplaceByKey(ReplaceByKey(s, key, y), key, y) == ReplaceByKey(s, key, y)
  {
  }

  /** After the replacement `y` is present exactly when some key matched. */
  lemma ReplaceByKeyPresent<T>(s: seq<T>, key: T -> string, y: T)
    ensures (exists i :: 0 <= i < |s| && key(s[i]) == key(y)) ==> y in ReplaceByKey(s, key, y)
    ensures (forall i :: 0 <= i < |s| ==> key(s[i]) != key(y)) ==> ReplaceByKey(s, key, y) == s
  {
    var r := ReplaceByKey(s, key, y);
    if i :| 0 <= i < |s| && key(s[i]) == key(y) {
      assert r[i] == y;
    }
  }
}
