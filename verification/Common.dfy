/** Small shared vocabulary: options, bounds and sequences read from their last element. */
module Common {
  datatype Option<+T> = None | Some(value: T)

  function Max(a: int, b: int): int {
    if a < b then b else a
  }

  function Min(a: int, b: int): int {
    if a < b then a else b
  }

  function Init<T>(xs: seq<T>): seq<T>
    requires xs != []
  {
    xs[..|xs| - 1]
  }

  function Last<T>(xs: seq<T>): T
    requires xs != []
  {
    xs[|xs| - 1]
  }

  lemma SnocParts<T>(xs: seq<T>, x: T)
    ensures Init(xs + [x]) == xs && Last(xs + [x]) == x
  {
  }

  lemma InitLast<T>(xs: seq<T>)
    requires xs != []
    ensures xs == Init(xs) + [Last(xs)]
  {
  }

  lemma SnocMultiset<T>(xs: seq<T>, x: T)
    ensures multiset(xs + [x]) == multiset(xs) + multiset{x}
  {
  }

  lemma InitMultiset<T>(xs: seq<T>)
    requires xs != []
    ensures multiset(Init(xs)) == multiset(xs) - multiset{Last(xs)} && Last(xs) in multiset(xs)
  {
    InitLast(xs);
    SnocMultiset(Init(xs), Last(xs));
  }

  /** All the results, in order, or nothing when one is missing. */
  function Collect<A, B>(xs: seq<A>, f: A -> Option<B>): Option<seq<B>> {
    if xs == [] then Some([])
    else
      match Collect(Init(xs), f)
      case None => None
      case Some(ys) =>
        match f(Last(xs))
        case None => None
        case Some(y) => Some(ys + [y])
  }

  lemma {:induction false} CollectAt<A, B>(xs: seq<A>, f: A -> Option<B>)
    ensures Collect(xs, f).Some? <==> forall i :: 0 <= i < |xs| ==> f(xs[i]).Some?
    ensures Collect(xs, f).Some? ==>
              |Collect(xs, f).value| == |xs| && forall i :: 0 <= i < |xs| ==> f(xs[i]) == Some(Collect(xs, f).value[i])
  {
    if xs != [] {
      CollectAt(Init(xs), f);
      assert forall i :: 0 <= i < |xs| - 1 ==> Init(xs)[i] == xs[i];
    }
  }

  /** One more element collected; a missing one leaves nothing at all. */
  lemma CollectStops<A, B>(values: seq<A>, i: nat, f: A -> Option<B>)
    requires i < |values| && Collect(values[..i], f).Some?
    ensures Collect(values[..i + 1], f)
         == if f(values[i]).None? then None else Some(Collect(values[..i], f).value + [f(values[i]).value])
    ensures f(values[i]).None? ==> Collect(values, f).None?
  {
    var next := values[..i + 1];
    assert Init(next) == values[..i] && Last(next) == values[i];
    CollectAt(values, f);
  }

  lemma {:induction false} CollectJoin<A, B>(xs: seq<A>, ys: seq<A>, f: A -> Option<B>)
    ensures Collect(xs + ys, f).Some? <==> Collect(xs, f).Some? && Collect(ys, f).Some?
    ensures Collect(xs + ys, f).Some? ==> Collect(xs + ys, f).value == Collect(xs, f).value + Collect(ys, f).value
  {
    if ys == [] {
      assert xs + ys == xs;
    } else {
      CollectJoin(xs, Init(ys), f);
      assert Init(xs + ys) == xs + Init(ys) && Last(xs + ys) == Last(ys);
    }
  }

  lemma CollectOne<A, B>(x: A, f: A -> Option<B>)
    ensures f(x).None? ==> Collect([x], f) == None
    ensures f(x).Some? ==> Collect([x], f) == Some([f(x).value])
  {
    SnocParts([], x);
    assert [] + [x] == [x];
    assert Collect(Init([x]), f) == Some([]);
    assert f(x).Some? ==> [] + [f(x).value] == [f(x).value];
  }

  /** An element of a sequence, and what is left without it. */
  lemma TakeOut<T>(xs: seq<T>, x: T) returns (front: seq<T>, back: seq<T>)
    requires x in multiset(xs)
    ensures xs == front + ([x] + back)
    ensures multiset(front + back) == multiset(xs) - multiset{x}
  {
    var i :| 0 <= i < |xs| && xs[i] == x;
    front, back := xs[..i], xs[i + 1..];
    assert xs == front + ([x] + back);
  }

  /** Rearranging the inputs rearranges the results. */
  lemma {:induction false} CollectPermutes<A, B>(xs: seq<A>, ys: seq<A>, f: A -> Option<B>)
    requires multiset(xs) == multiset(ys)
    ensures Collect(xs, f).Some? <==> Collect(ys, f).Some?
    ensures Collect(xs, f).Some? ==> multiset(Collect(xs, f).value) == multiset(Collect(ys, f).value)
  {
    assert |xs| == |multiset(xs)| == |multiset(ys)| == |ys|;
    if xs != [] {
      var rest, x := Init(xs), Last(xs);
      InitMultiset(xs);
      var front, back := TakeOut(ys, x);
      CollectPermutes(rest, front + back, f);
      CollectAround(front, x, back, f);
    }
  }

  lemma CollectAround<A, B>(front: seq<A>, x: A, back: seq<A>, f: A -> Option<B>)
    ensures var whole := Collect(front + ([x] + back), f); var rest := Collect(front + back, f);
            && (whole.Some? <==> rest.Some? && f(x).Some?)
            && (whole.Some? ==> multiset(whole.value) == multiset(rest.value) + multiset{f(x).value})
  {
    CollectJoin(front, back, f);
    CollectJoin(front, [x] + back, f);
    CollectJoin([x], back, f);
    CollectOne(x, f);
  }

  /** The length of the set of elements tells whether they are distinct. */
  predicate Distinct<T(==)>(xs: seq<T>) {
    |(set x | x in xs)| == |xs|
  }

  lemma {:induction false} DistinctPairs<T>(xs: seq<T>)
    ensures |(set x | x in xs)| <= |xs|
    ensures Distinct(xs) <==> forall i, j :: 0 <= i < j < |xs| ==> xs[i] != xs[j]
  {
    if xs != [] {
      var rest, x := Init(xs), Last(xs);
      DistinctPairs(rest);
      var s := set y | y in rest;
      assert (set y | y in xs) == s + {x};
      if x in rest {
        assert s + {x} == s;
      } else {
        assert |s + {x}| == |s| + 1;
      }
    }
  }

  /** The nearest integer, ties to even. */
  function HalfEven(x: real): int {
    var f := x.Floor;
    var rest := x - f as real;
    if rest < 0.5 then f
    else if 0.5 < rest then f + 1
    else if f % 2 == 0 then f
    else f + 1
  }
}
