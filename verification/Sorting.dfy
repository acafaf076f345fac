/** A stable sort by a strict order, and why its result forgets the order of its input. */
module Sorting {
  import opened Common

  /** `x` goes after everything that is not greater. */
  function Insert<T>(x: T, xs: seq<T>, lt: (T, T) -> bool): seq<T> {
    if xs == [] then [x]
    else if lt(x, Last(xs)) then Insert(x, Init(xs), lt) + [Last(xs)]
    else xs + [x]
  }

  function Sort<T>(xs: seq<T>, lt: (T, T) -> bool): seq<T> {
    if xs == [] then [] else Insert(Last(xs), Sort(Init(xs), lt), lt)
  }

  ghost predicate StrictOrder<T(!new)>(lt: (T, T) -> bool) {
    && (forall x :: !lt(x, x))
    && (forall x, y, z :: lt(x, y) && lt(y, z) ==> lt(x, z))
  }

  ghost predicate Strict<T>(xs: seq<T>, lt: (T, T) -> bool) {
    forall i, j :: 0 <= i < j < |xs| ==> lt(xs[i], xs[j])
  }

  /** No element occurs twice, and any two are ordered one way or the other. */
  ghost predicate Separated<T(!new)>(m: multiset<T>, lt: (T, T) -> bool) {
    && (forall x :: x in m ==> m[x] == 1)
    && (forall x, y :: x in m && y in m && x != y ==> lt(x, y) || lt(y, x))
  }

  lemma {:induction false} InsertPermutes<T>(x: T, xs: seq<T>, lt: (T, T) -> bool)
    ensures multiset(Insert(x, xs, lt)) == multiset(xs) + multiset{x}
  {
    if xs != [] && lt(x, Last(xs)) {
      InsertPermutes(x, Init(xs), lt);
      InitLast(xs);
    }
  }

  /** Sorting keeps the elements and their multiplicities. */
  lemma {:induction false} SortPermutes<T>(xs: seq<T>, lt: (T, T) -> bool)
    ensures multiset(Sort(xs, lt)) == multiset(xs)
  {
    if xs != [] {
      SortPermutes(Init(xs), lt);
      InsertPermutes(Last(xs), Sort(Init(xs), lt), lt);
      InitLast(xs);
    }
  }

  lemma {:induction false} InsertStrict<T(!new)>(x: T, xs: seq<T>, lt: (T, T) -> bool)
    requires StrictOrder(lt) && Strict(xs, lt) && forall y :: y in xs ==> lt(x, y) || lt(y, x)
    ensures Strict(Insert(x, xs, lt), lt)
  {
    if xs != [] {
      var last := Last(xs);
      assert last in xs;
      if lt(x, last) {
        InsertStrict(x, Init(xs), lt);
        var ys := Insert(x, Init(xs), lt);
        InsertPermutes(x, Init(xs), lt);
        forall i | 0 <= i < |ys| ensures lt(ys[i], last) {
          assert ys[i] in multiset(ys);
          assert ys[i] in Init(xs) || ys[i] == x;
        }
      } else {
        forall i | 0 <= i < |xs| ensures lt(xs[i], x) {
          assert i < |xs| - 1 ==> lt(xs[i], last);
        }
      }
    }
  }

  /** Sorting separated elements gives a strictly increasing sequence. */
  lemma {:induction false} SortStrict<T(!new)>(xs: seq<T>, lt: (T, T) -> bool)
    requires StrictOrder(lt) && Separated(multiset(xs), lt)
    ensures Strict(Sort(xs, lt), lt)
  {
    if xs != [] {
      var rest, x := Init(xs), Last(xs);
      InitLast(xs);
      SnocMultiset(rest, x);
      assert forall y :: multiset(xs)[y] == multiset(rest)[y] + multiset{x}[y];
      SortStrict(rest, lt);
      SortPermutes(rest, lt);
      forall y | y in Sort(rest, lt) ensures lt(x, y) || lt(y, x) {
        assert y in multiset(rest);
        assert multiset(xs)[y] == 1;
      }
      InsertStrict(x, Sort(rest, lt), lt);
    }
  }

  lemma LastIsGreatest<T(!new)>(xs: seq<T>, x: T, lt: (T, T) -> bool)
    requires Strict(xs, lt) && x in xs
    ensures x == Last(xs) || lt(x, Last(xs))
  {
    var i :| 0 <= i < |xs| && xs[i] == x;
  }

  /** A strictly increasing sequence is determined by its elements. */
  lemma {:induction false} StrictUnique<T(!new)>(xs: seq<T>, ys: seq<T>, lt: (T, T) -> bool)
    requires StrictOrder(lt) && Strict(xs, lt) && Strict(ys, lt) && multiset(xs) == multiset(ys)
    ensures xs == ys
  {
    assert |xs| == |multiset(xs)| == |multiset(ys)| == |ys|;
    if xs != [] {
      InitMultiset(xs);
      InitMultiset(ys);
      var x, y := Last(xs), Last(ys);
      assert x in multiset(ys) && y in multiset(xs);
      LastIsGreatest(xs, y, lt);
      LastIsGreatest(ys, x, lt);
      assert !(lt(x, y) && lt(y, x));
      StrictUnique(Init(xs), Init(ys), lt);
      InitLast(xs);
      InitLast(ys);
    }
  }

  /** Any two arrangements of separated elements sort alike. */
  lemma SortCanonical<T(!new)>(xs: seq<T>, ys: seq<T>, lt: (T, T) -> bool)
    requires StrictOrder(lt) && multiset(xs) == multiset(ys) && Separated(multiset(xs), lt)
    ensures Sort(xs, lt) == Sort(ys, lt)
  {
    SortPermutes(xs, lt);
    SortPermutes(ys, lt);
    SortStrict(xs, lt);
    SortStrict(ys, lt);
    StrictUnique(Sort(xs, lt), Sort(ys, lt), lt);
  }

  /** Sorting a strictly increasing sequence changes nothing. */
  lemma SortFixes<T(!new)>(xs: seq<T>, lt: (T, T) -> bool)
    requires StrictOrder(lt) && Strict(xs, lt)
    ensures Sort(xs, lt) == xs
  {
    StrictSeparated(xs, lt);
    SortPermutes(xs, lt);
    SortStrict(xs, lt);
    StrictUnique(Sort(xs, lt), xs, lt);
  }

  lemma {:induction false} StrictSeparated<T(!new)>(xs: seq<T>, lt: (T, T) -> bool)
    requires StrictOrder(lt) && Strict(xs, lt)
    ensures Separated(multiset(xs), lt)
  {
    if xs != [] {
      StrictSeparated(Init(xs), lt);
      InitLast(xs);
      SnocMultiset(Init(xs), Last(xs));
      assert forall y :: y in Init(xs) ==> lt(y, Last(xs));
      assert forall y :: multiset(xs)[y] == multiset(Init(xs))[y] + multiset{Last(xs)}[y];
      assert Last(xs) !in Init(xs);
    }
  }

  /** Strictly increasing sequences with the same members are the same. */
  lemma StrictSameMembers<T(!new)>(xs: seq<T>, ys: seq<T>, lt: (T, T) -> bool)
    requires StrictOrder(lt) && Strict(xs, lt) && Strict(ys, lt) && forall x :: x in xs <==> x in ys
    ensures xs == ys
  {
    StrictSeparated(xs, lt);
    StrictSeparated(ys, lt);
    forall x ensures multiset(xs)[x] == multiset(ys)[x] {
      assert x in multiset(xs) <==> x in xs;
      assert x in multiset(ys) <==> x in ys;
    }
    assert multiset(xs) == multiset(ys);
    StrictUnique(xs, ys, lt);
  }

  /** Elements with pairwise different keys are separated by any order that separates keys. */
  lemma {:induction false} SeparatedByKey<T(!new)>(xs: seq<T>, key: T -> int, lt: (T, T) -> bool)
    requires forall i, j :: 0 <= i < j < |xs| ==> key(xs[i]) != key(xs[j])
    requires forall x, y :: key(x) < key(y) ==> lt(x, y)
    ensures Separated(multiset(xs), lt)
  {
    if xs != [] {
      var rest, x := Init(xs), Last(xs);
      SeparatedByKey(rest, key, lt);
      InitLast(xs);
      SnocMultiset(rest, x);
      assert forall y :: y in rest ==> key(y) != key(x);
      assert forall y :: multiset(xs)[y] == multiset(rest)[y] + multiset{x}[y];
    }
  }

  /** A list whose sorted form is separated sorts to that form from every arrangement. */
  lemma SortAgrees<T(!new)>(xs: seq<T>, ys: seq<T>, lt: (T, T) -> bool)
    requires StrictOrder(lt) && multiset(xs) == multiset(ys)
    requires Separated(multiset(Sort(xs, lt)), lt) || Separated(multiset(Sort(ys, lt)), lt)
    ensures Sort(xs, lt) == Sort(ys, lt)
  {
    SortPermutes(xs, lt);
    SortPermutes(ys, lt);
    SortCanonical(xs, ys, lt);
  }

  lemma CollectFixed<A, B(!new)>(xs: seq<A>, f: A -> Option<B>, ys: seq<B>)
    requires |xs| == |ys| && forall i :: 0 <= i < |xs| ==> f(xs[i]) == Some(ys[i])
    ensures Collect(xs, f) == Some(ys)
  {
    CollectAt(xs, f);
    assert forall i :: 0 <= i < |xs| ==> f(xs[i]).Some?;
    assert Collect(xs, f).value == ys;
  }

  /** Every sorted result is the normal form of some input. */
  lemma SortedCollected<A, B(!new)>(xs: seq<A>, f: A -> Option<B>, lt: (B, B) -> bool, i: nat) returns (x: A)
    requires Collect(xs, f).Some? && i < |Sort(Collect(xs, f).value, lt)|
    ensures f(x) == Some(Sort(Collect(xs, f).value, lt)[i])
  {
    var ys := Collect(xs, f).value;
    var sorted := Sort(ys, lt);
    SortPermutes(ys, lt);
    CollectAt(xs, f);
    assert sorted[i] in multiset(sorted);
    assert sorted[i] in ys;
    var j :| 0 <= j < |ys| && ys[j] == sorted[i];
    x := xs[j];
  }

  lemma SortedAgain<T(!new)>(ys: seq<T>, lt: (T, T) -> bool)
    requires StrictOrder(lt) && Separated(multiset(Sort(ys, lt)), lt)
    ensures Sort(Sort(ys, lt), lt) == Sort(ys, lt) && |Sort(ys, lt)| == |ys|
  {
    SortPermutes(ys, lt);
    SortStrict(ys, lt);
    SortFixes(Sort(ys, lt), lt);
    assert |Sort(ys, lt)| == |multiset(Sort(ys, lt))| == |multiset(ys)| == |ys|;
  }

  // ---- one-to-one correspondence ----

  /** `p` lists every position below `n` once. */
  ghost predicate Permutation(p: seq<nat>, n: nat) {
    && |p| == n
    && (forall i :: 0 <= i < n ==> p[i] < n)
    && (forall i, j :: 0 <= i < j < n ==> p[i] != p[j])
  }

  /** Some rearrangement pairs the elements off, each pair related. */
  ghost predicate OneToOne<A, B>(xs: seq<A>, ys: seq<B>, related: (A, B) -> bool) {
    && |xs| == |ys|
    && exists p: seq<nat> :: Permutation(p, |xs|) && forall i :: 0 <= i < |xs| ==> related(xs[i], ys[p[i]])
  }

  /** Where each element of a sequence goes in a rearrangement of it. */
  lemma {:induction false} Rearranged<T>(us: seq<T>, vs: seq<T>) returns (p: seq<nat>)
    requires multiset(us) == multiset(vs)
    ensures |us| == |vs| && Permutation(p, |us|) && forall i :: 0 <= i < |us| ==> us[i] == vs[p[i]]
  {
    assert |us| == |multiset(us)| == |multiset(vs)| == |vs|;
    if us == [] {
      p := [];
    } else {
      InitMultiset(us);
      var front, back := TakeOut(vs, Last(us));
      var q := Rearranged(Init(us), front + back);
      p := PutBack(q, |front|);
      PutBackReads(us, vs, front, back, q, p);
    }
  }

  lemma PutBackReads<T>(us: seq<T>, vs: seq<T>, front: seq<T>, back: seq<T>, q: seq<nat>, p: seq<nat>)
    requires us != [] && vs == front + ([Last(us)] + back) && |q| + 1 == |us| == |vs| == |p| && p[|q|] == |front|
    requires forall i :: 0 <= i < |q| ==> q[i] < |q| && us[i] == (front + back)[q[i]]
    requires forall i :: 0 <= i < |q| ==> p[i] == if q[i] < |front| then q[i] else q[i] + 1
    ensures forall i :: 0 <= i < |us| ==> us[i] == vs[p[i]]
  {
    forall i | 0 <= i < |q| ensures us[i] == vs[p[i]] {
      assert us[i] == (front + back)[q[i]];
    }
  }

  /** Positions after an element has been put back at `k`, and then that element's own. */
  lemma PutBack(q: seq<nat>, k: nat) returns (p: seq<nat>)
    requires Permutation(q, |q|) && k <= |q|
    ensures Permutation(p, |q| + 1) && p[|q|] == k
    ensures forall i :: 0 <= i < |q| ==> p[i] == if q[i] < k then q[i] else q[i] + 1
  {
    p := seq(|q|, i requires 0 <= i < |q| => if q[i] < k then q[i] else q[i] + 1) + [k];
  }

  /** Collecting and sorting pairs every input off with its own result. */
  lemma SortedPairs<A, B>(xs: seq<A>, f: A -> Option<B>, lt: (B, B) -> bool, related: (A, B) -> bool)
    requires Collect(xs, f).Some?
    requires forall i :: 0 <= i < |xs| && f(xs[i]).Some? ==> related(xs[i], f(xs[i]).value)
    ensures OneToOne(xs, Sort(Collect(xs, f).value, lt), related)
  {
    var ys := Collect(xs, f).value;
    CollectAt(xs, f);
    SortPermutes(ys, lt);
    var p := Rearranged(ys, Sort(ys, lt));
    assert Permutation(p, |xs|);
  }

  function Mapped<A, B>(xs: seq<A>, f: A -> B): (ys: seq<B>)
    ensures |ys| == |xs|
  {
    seq(|xs|, i requires 0 <= i < |xs| => f(xs[i]))
  }

  /** A permutation without its last entry, on the positions that are left. */
  function Without(p: seq<nat>): (q: seq<nat>)
    requires p != []
    ensures |q| == |p| - 1
  {
    var k := Last(p);
    seq(|p| - 1, i requires 0 <= i < |p| - 1 => if 0 < p[i] && k < p[i] then p[i] - 1 else p[i])
  }

  lemma WithoutPermutes(p: seq<nat>)
    requires Permutation(p, |p|) && p != []
    ensures Permutation(Without(p), |p| - 1)
  {
  }

  lemma {:induction false} PermutedMultiset<T>(us: seq<T>, vs: seq<T>, p: seq<nat>)
    requires |us| == |vs| && Permutation(p, |us|) && forall i :: 0 <= i < |us| ==> us[i] == vs[p[i]]
    ensures multiset(us) == multiset(vs)
  {
    if us != [] {
      var k := Last(p);
      var front, back := vs[..k], vs[k + 1..];
      WithoutPermutes(p);
      PermutedMultiset(Init(us), front + back, Without(p));
      assert vs == front + ([vs[k]] + back);
      InitLast(us);
    }
  }

  /** What paired elements have in common, the two sequences have in common. */
  lemma PairedImages<A(!new), B(!new), C>(xs: seq<A>, ys: seq<B>, related: (A, B) -> bool, f: A -> C, g: B -> C)
    requires OneToOne(xs, ys, related) && forall x, y :: related(x, y) ==> f(x) == g(y)
    ensures multiset(Mapped(xs, f)) == multiset(Mapped(ys, g))
  {
    var p: seq<nat> :| Permutation(p, |xs|) && forall i :: 0 <= i < |xs| ==> related(xs[i], ys[p[i]]);
    PermutedMultiset(Mapped(xs, f), Mapped(ys, g), p);
  }

  /** A permutation reaches every position. */
  lemma {:induction false} Reached(p: seq<nat>, j: nat) returns (i: nat)
    requires Permutation(p, |p|) && j < |p|
    ensures i < |p| && p[i] == j
    decreases |p|
  {
    var k := Last(p);
    if k == j {
      i := |p| - 1;
    } else {
      WithoutPermutes(p);
      i := Reached(Without(p), if k < j then j - 1 else j);
    }
  }

  /** Every element of the second sequence is somebody's partner. */
  lemma PartnerOf<A, B>(xs: seq<A>, ys: seq<B>, related: (A, B) -> bool, j: nat) returns (i: nat)
    requires OneToOne(xs, ys, related) && j < |ys|
    ensures i < |xs| && related(xs[i], ys[j])
  {
    var p: seq<nat> :| Permutation(p, |xs|) && forall i :: 0 <= i < |xs| ==> related(xs[i], ys[p[i]]);
    i := Reached(p, j);
  }

  lemma PartnerFor<A, B>(xs: seq<A>, ys: seq<B>, related: (A, B) -> bool, i: nat) returns (j: nat)
    requires OneToOne(xs, ys, related) && i < |xs|
    ensures j < |ys| && related(xs[i], ys[j])
  {
    var p: seq<nat> :| Permutation(p, |xs|) && forall i :: 0 <= i < |xs| ==> related(xs[i], ys[p[i]]);
    j := p[i];
  }

  lemma ComposedPermutation(p: seq<nat>, q: seq<nat>) returns (r: seq<nat>)
    requires Permutation(p, |p|) && Permutation(q, |p|)
    ensures Permutation(r, |p|) && forall i :: 0 <= i < |p| ==> r[i] == q[p[i]]
  {
    r := seq(|p|, i requires 0 <= i < |p| => q[p[i]]);
    forall i, j | 0 <= i < j < |p| ensures r[i] != r[j] {
      assert p[i] != p[j];
    }
  }

  /** Partners of partners are partners. */
  lemma PairedThrough<A(!new), B(!new), C(!new)>(
    xs: seq<A>, ys: seq<B>, zs: seq<C>, first: (A, B) -> bool, second: (B, C) -> bool, both: (A, C) -> bool)
    requires OneToOne(xs, ys, first) && OneToOne(ys, zs, second)
    requires forall x, y, z :: first(x, y) && second(y, z) ==> both(x, z)
    ensures OneToOne(xs, zs, both)
  {
    var p: seq<nat> :| Permutation(p, |xs|) && forall i :: 0 <= i < |xs| ==> first(xs[i], ys[p[i]]);
    var q: seq<nat> :| Permutation(q, |ys|) && forall i :: 0 <= i < |ys| ==> second(ys[i], zs[q[i]]);
    var r := ComposedPermutation(p, q);
    forall i | 0 <= i < |xs| ensures both(xs[i], zs[r[i]]) {
      LinkedThrough(xs[i], ys[p[i]], zs[r[i]], first, second, both);
    }
  }

  lemma LinkedThrough<A(!new), B(!new), C(!new)>(
    x: A, y: B, z: C, first: (A, B) -> bool, second: (B, C) -> bool, both: (A, C) -> bool)
    requires first(x, y) && second(y, z)
    requires forall x, y, z :: first(x, y) && second(y, z) ==> both(x, z)
    ensures both(x, z)
  {
  }

  /** Where partners are determined, a sorted pairing is too. */
  lemma PairedOnce<A(!new), B(!new)>(xs: seq<A>, ys: seq<B>, zs: seq<B>, related: (A, B) -> bool, lt: (B, B) -> bool)
    requires OneToOne(xs, ys, related) && OneToOne(xs, zs, related)
    requires forall x, y, z :: related(x, y) && related(x, z) ==> y == z
    requires StrictOrder(lt) && Strict(ys, lt) && Strict(zs, lt)
    ensures ys == zs
  {
    forall y ensures y in ys <==> y in zs {
      if y in ys {
        PartnerShared(xs, ys, zs, related, y);
      }
      if y in zs {
        PartnerShared(xs, zs, ys, related, y);
      }
    }
    StrictSameMembers(ys, zs, lt);
  }

  lemma PartnerShared<A(!new), B(!new)>(xs: seq<A>, ys: seq<B>, zs: seq<B>, related: (A, B) -> bool, y: B)
    requires OneToOne(xs, ys, related) && OneToOne(xs, zs, related) && y in ys
    requires forall x, y, z :: related(x, y) && related(x, z) ==> y == z
    ensures y in zs
  {
    var j :| 0 <= j < |ys| && ys[j] == y;
    var i := PartnerOf(xs, ys, related, j);
    var k := PartnerFor(xs, zs, related, i);
    assert zs[k] == y;
  }

  // ---- text, compared code point by code point ----

  predicate TextLess(a: string, b: string) {
    if b == "" then false
    else if a == "" then true
    else if a[0] != b[0] then a[0] < b[0]
    else TextLess(a[1..], b[1..])
  }

  /** The first difference decides, and a proper beginning comes first. */
  lemma {:induction false} TextLessMeans(a: string, b: string)
    ensures TextLess(a, b) <==>
              || (|a| < |b| && a == b[..|a|])
              || exists n :: 0 <= n < |a| && n < |b| && a[..n] == b[..n] && a[n] < b[n]
  {
    if a != "" && b != "" {
      if a[0] == b[0] {
        TextLessMeans(a[1..], b[1..]);
        SameHead(a, b);
      } else {
        assert a[0] < b[0] ==> a[..0] == b[..0];
        assert forall n :: 0 < n < |a| && n < |b| ==> a[..n][0] == a[0] && b[..n][0] == b[0];
      }
    }
  }

  lemma SameHead(a: string, b: string)
    requires a != "" && b != "" && a[0] == b[0]
    ensures |a| < |b| && a == b[..|a|] <==> |a[1..]| < |b[1..]| && a[1..] == b[1..][..|a[1..]|]
    ensures (exists n :: 0 <= n < |a| && n < |b| && a[..n] == b[..n] && a[n] < b[n]) <==>
            (exists n :: 0 <= n < |a[1..]| && n < |b[1..]| && a[1..][..n] == b[1..][..n] && a[1..][n] < b[1..][n])
  {
    if |a| < |b| {
      assert a == [a[0]] + a[1..] && b[..|a|] == [b[0]] + b[1..][..|a| - 1];
    }
    if n :| 0 <= n < |a| && n < |b| && a[..n] == b[..n] && a[n] < b[n] {
      assert n > 0;
      assert a[1..][..n - 1] == a[..n][1..] && b[1..][..n - 1] == b[..n][1..];
      assert a[1..][n - 1] < b[1..][n - 1];
    }
    if n :| 0 <= n < |a[1..]| && n < |b[1..]| && a[1..][..n] == b[1..][..n] && a[1..][n] < b[1..][n] {
      assert a[..n + 1] == [a[0]] + a[1..][..n] && b[..n + 1] == [b[0]] + b[1..][..n];
      assert a[n + 1] < b[n + 1];
    }
  }

  lemma {:induction false} TextLessIrreflexive(a: string)
    ensures !TextLess(a, a)
  {
    if a != "" {
      TextLessIrreflexive(a[1..]);
    }
  }

  lemma {:induction false} TextLessTransitive(a: string, b: string, c: string)
    requires TextLess(a, b) && TextLess(b, c)
    ensures TextLess(a, c)
  {
    if a != "" && a[0] == b[0] == c[0] {
      TextLessTransitive(a[1..], b[1..], c[1..]);
    }
  }

  lemma {:induction false} TextLessTotal(a: string, b: string)
    ensures TextLess(a, b) || TextLess(b, a) || a == b
  {
    if a != "" && b != "" && a[0] == b[0] {
      TextLessTotal(a[1..], b[1..]);
      assert a == [a[0]] + a[1..] && b == [b[0]] + b[1..];
    }
  }

  /** No text stands before a smaller one. */
  ghost predicate InTextOrder(xs: seq<string>) {
    forall i, j :: 0 <= i < j < |xs| ==> !TextLess(xs[j], xs[i])
  }

  lemma {:induction false} InsertInTextOrder(x: string, xs: seq<string>)
    requires InTextOrder(xs)
    ensures InTextOrder(Insert(x, xs, TextLess))
  {
    if xs != [] {
      var last := Last(xs);
      if TextLess(x, last) {
        InsertInTextOrder(x, Init(xs));
        var ys := Insert(x, Init(xs), TextLess);
        InsertPermutes(x, Init(xs), TextLess);
        forall i | 0 <= i < |ys| ensures !TextLess(last, ys[i]) {
          assert ys[i] in multiset(ys);
          assert ys[i] in Init(xs) || ys[i] == x;
          if ys[i] == x && TextLess(last, x) {
            TextLessTransitive(x, last, x);
            TextLessIrreflexive(x);
          }
        }
      } else {
        forall i | 0 <= i < |xs| ensures !TextLess(x, xs[i]) {
          TextLessTotal(xs[i], last);
          if TextLess(x, xs[i]) && TextLess(xs[i], last) {
            TextLessTransitive(x, xs[i], last);
          }
        }
      }
    }
  }

  lemma {:induction false} TextsSorted(xs: seq<string>)
    ensures InTextOrder(Sort(xs, TextLess))
  {
    if xs != [] {
      TextsSorted(Init(xs));
      InsertInTextOrder(Last(xs), Sort(Init(xs), TextLess));
    }
  }
}
