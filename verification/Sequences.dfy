/** Sums, filters and folds over sequences, built from the back as the loops of the program build their results. */
module Sequences {

  function Last<T>(s: seq<T>): T
    requires s != []
  {
    s[|s| - 1]
  }

  function Init<T>(s: seq<T>): seq<T>
    requires s != []
  {
    s[..|s| - 1]
  }

  function Dropped<T>(s: seq<T>, i: nat): seq<T>
    requires i < |s|
  {
    s[..i] + s[i + 1..]
  }

  function Sum<T>(s: seq<T>, w: T -> int): int {
    if s == [] then 0 else Sum(Init(s), w) + w(Last(s))
  }

  function Filter<T>(s: seq<T>, keep: T -> bool): seq<T> {
    if s == [] then [] else Filter(Init(s), keep) + if keep(Last(s)) then [Last(s)] else []
  }

  lemma {:induction false} SumConcat<T>(a: seq<T>, b: seq<T>, w: T -> int)
    ensures Sum(a + b, w) == Sum(a, w) + Sum(b, w)
  {
    if b == [] {
      assert a + b == a;
    } else {
      SumConcat(a, Init(b), w);
      assert Init(a + b) == a + Init(b);
    }
  }

  lemma {:induction false} SumAppend<T>(s: seq<T>, x: T, w: T -> int)
    ensures Sum(s + [x], w) == Sum(s, w) + w(x)
  {
  }

  lemma {:induction false} SumDropped<T>(s: seq<T>, i: nat, w: T -> int)
    requires i < |s|
    ensures Sum(s, w) == Sum(Dropped(s, i), w) + w(s[i])
  {
    SumAppend(s[..i], s[i], w);
    SumConcat(s[..i] + [s[i]], s[i + 1..], w);
    SumConcat(s[..i], s[i + 1..], w);
    assert s == s[..i] + [s[i]] + s[i + 1..];
  }

  lemma {:induction false} SumUpdated<T>(s: seq<T>, i: nat, x: T, w: T -> int)
    requires i < |s|
    ensures Sum(s[i := x], w) - w(x) == Sum(s, w) - w(s[i])
  {
    SumDropped(s, i, w);
    SumDropped(s[i := x], i, w);
    assert Dropped(s[i := x], i) == Dropped(s, i);
  }

  lemma {:induction false} SumLe<T>(s: seq<T>, v: T -> int, w: T -> int)
    requires forall x :: x in s ==> v(x) <= w(x)
    ensures Sum(s, v) <= Sum(s, w)
  {
    if s == [] {
    } else {
      assert Last(s) in s;
      SumLe(Init(s), v, w);
    }
  }

  lemma {:induction false} SumZero<T>(s: seq<T>, w: T -> int)
    requires forall x :: x in s ==> w(x) == 0
    ensures Sum(s, w) == 0
  {
    if s == [] {
    } else {
      assert Last(s) in s;
      SumZero(Init(s), w);
    }
  }

  lemma {:induction false} FilterConcat<T>(a: seq<T>, b: seq<T>, keep: T -> bool)
    ensures Filter(a + b, keep) == Filter(a, keep) + Filter(b, keep)
  {
    if b == [] {
      assert a + b == a;
    } else {
      FilterConcat(a, Init(b), keep);
      assert Init(a + b) == a + Init(b);
    }
  }

  lemma {:induction false} FilterAppend<T>(s: seq<T>, x: T, keep: T -> bool)
    ensures Filter(s + [x], keep) == Filter(s, keep) + if keep(x) then [x] else []
  {
  }

  lemma {:induction false} FilterDropped<T>(s: seq<T>, i: nat, keep: T -> bool)
    requires i < |s|
    ensures !keep(s[i]) ==> Filter(Dropped(s, i), keep) == Filter(s, keep)
    ensures keep(s[i]) ==> |Filter(Dropped(s, i), keep)| + 1 == |Filter(s, keep)|
  {
    var a, b := Filter(s[..i], keep), Filter(s[i + 1..], keep);
    assert Filter(Dropped(s, i), keep) == a + b by {
      FilterConcat(s[..i], s[i + 1..], keep);
    }
    assert Filter(s, keep) == (a + if keep(s[i]) then [s[i]] else []) + b by {
      FilterAppend(s[..i], s[i], keep);
      FilterConcat(s[..i] + [s[i]], s[i + 1..], keep);
      assert s == s[..i] + [s[i]] + s[i + 1..];
    }
  }

  lemma {:induction false} FilterMembers<T>(s: seq<T>, keep: T -> bool)
    ensures forall x :: x in Filter(s, keep) <==> x in s && keep(x)
    ensures |Filter(s, keep)| <= |s|
  {
    if s == [] {
    } else {
      FilterMembers(Init(s), keep);
      assert s == Init(s) + [Last(s)];
    }
  }

  lemma {:induction false} FilterAll<T>(s: seq<T>, keep: T -> bool)
    requires forall x :: x in s ==> keep(x)
    ensures Filter(s, keep) == s
  {
    if s == [] {
    } else {
      assert s == Init(s) + [Last(s)];
      FilterAll(Init(s), keep);
    }
  }

  lemma {:induction false} FilterTwice<T>(s: seq<T>, p: T -> bool, q: T -> bool, both: T -> bool)
    requires forall x :: x in s ==> (both(x) <==> p(x) && q(x))
    ensures Filter(Filter(s, p), q) == Filter(s, both)
  {
    if s == [] {
    } else {
      assert s == Init(s) + [Last(s)];
      FilterTwice(Init(s), p, q, both);
      if p(Last(s)) {
        FilterAppend(Filter(Init(s), p), Last(s), q);
      } else {
        assert Filter(s, p) == Filter(Init(s), p);
      }
    }
  }

  lemma {:induction false} FilterSame<T>(s: seq<T>, p: T -> bool, q: T -> bool)
    requires forall x :: x in s ==> (p(x) <==> q(x))
    ensures Filter(s, p) == Filter(s, q)
  {
    if s == [] {
    } else {
      assert s == Init(s) + [Last(s)];
      FilterSame(Init(s), p, q);
    }
  }

  /** The positions of the marked elements, in order. */
  function Positions<T>(marks: seq<T>, p: T -> bool): seq<nat> {
    if marks == [] then [] else Positions(Init(marks), p) + if p(Last(marks)) then [|marks| - 1] else []
  }

  lemma {:induction false} PositionsInOrder<T>(marks: seq<T>, p: T -> bool)
    ensures forall i, j :: 0 <= i < j < |Positions(marks, p)| ==> Positions(marks, p)[i] < Positions(marks, p)[j]
    ensures forall i :: 0 <= i < |Positions(marks, p)| ==>
      Positions(marks, p)[i] < |marks| && p(marks[Positions(marks, p)[i]])
    ensures forall j :: 0 <= j < |marks| && p(marks[j]) ==> j in Positions(marks, p)
  {
    if marks == [] {
    } else {
      PositionsInOrder(Init(marks), p);
    }
  }

  /** The elements at the marked positions, in order. */
  function Selected<X, T>(xs: seq<X>, marks: seq<T>, p: T -> bool): seq<X>
    requires |marks| <= |xs|
  {
    if marks == [] then [] else Selected(xs, Init(marks), p) + if p(Last(marks)) then [xs[|marks| - 1]] else []
  }

  lemma {:induction false} SelectedAtPositions<X, T>(xs: seq<X>, marks: seq<T>, p: T -> bool)
    requires |marks| <= |xs|
    ensures |Selected(xs, marks, p)| == |Positions(marks, p)|
    ensures forall i :: 0 <= i < |Positions(marks, p)| ==>
      Positions(marks, p)[i] < |marks| && Selected(xs, marks, p)[i] == xs[Positions(marks, p)[i]]
  {
    if marks == [] {
    } else {
      SelectedAtPositions(xs, Init(marks), p);
    }
  }

  // ---------- folds that run side by side ----------

  function Fold<S, T>(f: (S, T) -> S, start: S, xs: seq<T>): S {
    if xs == [] then start else f(Fold(f, start, Init(xs)), Last(xs))
  }

  /** A sequence whose last element takes in one more item. */
  function Fed<S, T>(f: (S, T) -> S, values: seq<S>, feeds: bool, x: T): seq<S> {
    if feeds && values != [] then Init(values) + [f(Last(values), x)] else values
  }

  function Begun<S>(values: seq<S>, begins: bool, value: S): seq<S> {
    if begins then values + [value] else values
  }

  function Append<T>(xs: seq<T>, x: T): seq<T> {
    xs + [x]
  }

  ghost predicate AreFolds<A, S, T>(f: (S, T) -> S, start: A -> S, keys: seq<A>, values: seq<S>, segs: seq<seq<T>>) {
    && |keys| == |values| == |segs|
    && forall k :: 0 <= k < |values| ==> values[k] == Fold(f, start(keys[k]), segs[k])
  }

  lemma {:induction false} FoldsFed<A, S, T>(f: (S, T) -> S, start: A -> S, keys: seq<A>, values: seq<S>,
      segs: seq<seq<T>>, feeds: bool, x: T)
    requires AreFolds(f, start, keys, values, segs)
    ensures AreFolds(f, start, keys, Fed(f, values, feeds, x), Fed(Append, segs, feeds, x))
  {
    if feeds && values != [] {
      assert Init(Last(segs) + [x]) == Last(segs);
    }
  }

  lemma {:induction false} FoldsBegun<A, S, T>(f: (S, T) -> S, start: A -> S, keys: seq<A>, values: seq<S>,
      segs: seq<seq<T>>, begins: bool, a: A)
    requires AreFolds(f, start, keys, values, segs)
    ensures AreFolds(f, start, Begun(keys, begins, a), Begun(values, begins, start(a)), Begun(segs, begins, []))
  {
  }

  lemma {:induction false} FoldsStep<A, S, T>(f: (S, T) -> S, start: A -> S, keys: seq<A>, values: seq<S>,
      segs: seq<seq<T>>, feeds: bool, x: T, begins: bool, a: A, feedsAgain: bool, y: T)
    requires AreFolds(f, start, keys, values, segs)
    ensures AreFolds(f, start, Begun(keys, begins, a),
      Fed(f, Begun(Fed(f, values, feeds, x), begins, start(a)), feedsAgain, y),
      Fed(Append, Begun(Fed(Append, segs, feeds, x), begins, []), feedsAgain, y))
  {
    var values1, segs1 := Fed(f, values, feeds, x), Fed(Append, segs, feeds, x);
    FoldsFed(f, start, keys, values, segs, feeds, x);
    FoldsBegun(f, start, keys, values1, segs1, begins, a);
    FoldsFed(f, start, Begun(keys, begins, a), Begun(values1, begins, start(a)), Begun(segs1, begins, []), feedsAgain, y);
  }
}
