/** One ingest batch of bar rows: deduplication by conflict key. */
module BarBatches {
  import opened Common
  import opened Sorting

  datatype BarKey = BarKey(symbol: string, timespan: string, multiplier: int, ts: int, source: string, basis: string)

  datatype Values = Values(
    open: real, high: real, low: real, close: real, volume: real, vwap: Option<real>, tradeCount: Option<int>)

  datatype BarRow = BarRow(key: BarKey, values: Values, fetchedAt: int, asOf: int)

  // ---- the conflict-key order ----

  function TextOrder(a: string, b: string): int {
    if TextLess(a, b) then -1 else if a == b then 0 else 1
  }

  function NumberOrder(a: int, b: int): int {
    if a < b then -1 else if a == b then 0 else 1
  }

  function Then(first: int, second: int): int {
    if first != 0 then first else second
  }

  /** Field by field, the first difference deciding. */
  function KeyCompare(a: BarKey, b: BarKey): int {
    Then(TextOrder(a.symbol, b.symbol),
         Then(TextOrder(a.timespan, b.timespan),
              Then(NumberOrder(a.multiplier, b.multiplier),
                   Then(NumberOrder(a.ts, b.ts),
                        Then(TextOrder(a.source, b.source), TextOrder(a.basis, b.basis))))))
  }

  predicate KeyLess(a: BarKey, b: BarKey) {
    KeyCompare(a, b) < 0
  }

  const ROW_ORDER: (BarRow, BarRow) -> bool := (x: BarRow, y: BarRow) => KeyLess(x.key, y.key)

  /** Comparisons of three values, pairwise, fit together. */
  predicate Consistent(ab: int, bc: int, ac: int) {
    && (ab < 0 && bc < 0 ==> ac < 0)
    && (ab == 0 ==> ac == bc)
    && (bc == 0 ==> ac == ab)
  }

  lemma TextConsistent(a: string, b: string, c: string)
    ensures Consistent(TextOrder(a, b), TextOrder(b, c), TextOrder(a, c))
  {
    if TextLess(a, b) && TextLess(b, c) {
      TextLessTransitive(a, b, c);
    }
    TextLessIrreflexive(a);
    TextLessIrreflexive(b);
  }

  lemma TextAntisymmetric(a: string, b: string)
    ensures TextOrder(a, b) == -TextOrder(b, a) && (TextOrder(a, b) == 0 <==> a == b)
  {
    TextLessTotal(a, b);
    TextLessIrreflexive(a);
    if TextLess(a, b) && TextLess(b, a) {
      TextLessTransitive(a, b, a);
    }
  }

  lemma KeyConsistent(a: BarKey, b: BarKey, c: BarKey)
    ensures Consistent(KeyCompare(a, b), KeyCompare(b, c), KeyCompare(a, c))
  {
    TextConsistent(a.symbol, b.symbol, c.symbol);
    TextConsistent(a.timespan, b.timespan, c.timespan);
    TextConsistent(a.source, b.source, c.source);
    TextConsistent(a.basis, b.basis, c.basis);
  }

  lemma KeyAntisymmetric(a: BarKey, b: BarKey)
    ensures KeyCompare(a, b) == -KeyCompare(b, a) && (KeyCompare(a, b) == 0 <==> a == b)
  {
    TextAntisymmetric(a.symbol, b.symbol);
    TextAntisymmetric(a.timespan, b.timespan);
    TextAntisymmetric(a.source, b.source);
    TextAntisymmetric(a.basis, b.basis);
  }

  lemma KeyOrder(a: BarKey, b: BarKey, c: BarKey)
    ensures !KeyLess(a, a)
    ensures KeyLess(a, b) && KeyLess(b, c) ==> KeyLess(a, c)
    ensures a != b ==> KeyLess(a, b) || KeyLess(b, a)
  {
    KeyAntisymmetric(a, a);
    KeyAntisymmetric(a, b);
    KeyConsistent(a, b, c);
  }

  lemma RowOrder()
    ensures StrictOrder(ROW_ORDER)
  {
    forall x: BarRow, y: BarRow, z: BarRow
      ensures !ROW_ORDER(x, x) && (ROW_ORDER(x, y) && ROW_ORDER(y, z) ==> ROW_ORDER(x, z))
    {
      KeyOrder(x.key, y.key, z.key);
    }
  }

  // ---- deduplication ----

  /** `(as_of, fetched_at)` as a pair. */
  predicate Earlier(x: BarRow, y: BarRow) {
    x.asOf < y.asOf || (x.asOf == y.asOf && x.fetchedAt < y.fetchedAt)
  }

  /** No two rows of one key disagree on a value. */
  ghost predicate Agreeing(rows: seq<BarRow>) {
    forall x, y :: x in rows && y in rows && x.key == y.key ==> x.values == y.values
  }

  /** `result` has a row of the same key, available no later. */
  ghost predicate Represented(x: BarRow, result: seq<BarRow>) {
    exists y :: y in result && y.key == x.key && !Earlier(x, y)
  }

  /** Every result is one of the rows, and every row is represented. */
  ghost predicate Covers(rows: seq<BarRow>, result: seq<BarRow>) {
    && (forall y :: y in result ==> y in rows)
    && (forall x :: x in rows ==> Represented(x, result))
  }

  /** One row per key, sorted by the full key, each the earliest available of its key. */
  ghost predicate IsDeduped(rows: seq<BarRow>, result: seq<BarRow>) {
    Strict(result, ROW_ORDER) && Covers(rows, result)
  }

  /** What the loop has found after `rows`: the distinct keys in order of first sight, and their rows. */
  datatype Found = Found(order: seq<BarKey>, byKey: map<BarKey, BarRow>)

  function Add(f: Found, row: BarRow): Option<Found> {
    if row.key !in f.byKey then Some(Found(f.order + [row.key], f.byKey[row.key := row]))
    else
      var previous := f.byKey[row.key];
      if previous.values != row.values then None
      else if Earlier(row, previous) then Some(f.(byKey := f.byKey[row.key := row]))
      else Some(f)
  }

  function Fold(rows: seq<BarRow>): Option<Found> {
    if rows == [] then Some(Found([], map[]))
    else
      match Fold(Init(rows))
      case None => None
      case Some(f) => Add(f, Last(rows))
  }

  function Listed(f: Found): seq<BarRow>
    requires forall i :: 0 <= i < |f.order| ==> f.order[i] in f.byKey
  {
    seq(|f.order|, i requires 0 <= i < |f.order| => f.byKey[f.order[i]])
  }

  ghost predicate RowFound(x: BarRow, f: Found) {
    x.key in f.byKey && x.values == f.byKey[x.key].values && !Earlier(x, f.byKey[x.key])
  }

  ghost predicate Indexed(rows: seq<BarRow>, f: Found) {
    && (forall i, j :: 0 <= i < j < |f.order| ==> f.order[i] != f.order[j])
    && (forall k :: k in f.byKey <==> k in f.order)
    && (forall k :: k in f.byKey ==> f.byKey[k].key == k && f.byKey[k] in rows)
  }

  ghost predicate FoundOk(rows: seq<BarRow>, f: Found) {
    Indexed(rows, f) && forall x :: x in rows ==> RowFound(x, f)
  }

  lemma AddFinds(rows: seq<BarRow>, f: Found, row: BarRow, x: BarRow)
    requires FoundOk(rows, f) && Add(f, row).Some? && (x in rows || x == row)
    ensures RowFound(x, Add(f, row).value)
  {
    assert x in rows ==> RowFound(x, f);
  }

  lemma AddIndexed(rows: seq<BarRow>, f: Found, row: BarRow)
    requires Indexed(rows, f) && Add(f, row).Some?
    ensures Indexed(rows + [row], Add(f, row).value)
  {
    var g, all := Add(f, row).value, rows + [row];
    assert forall x :: x in all <==> x in rows || x == row;
    assert forall k :: k in g.order <==> k in f.order || k == row.key;
  }

  lemma AddRefuses(rows: seq<BarRow>, f: Found, row: BarRow)
    requires Indexed(rows, f) && Add(f, row).None?
    ensures !Agreeing(rows + [row])
  {
    var all := rows + [row];
    assert f.byKey[row.key] in all && row in all;
  }

  lemma AddOk(rows: seq<BarRow>, f: Found, row: BarRow)
    requires FoundOk(rows, f)
    ensures Add(f, row).Some? ==> FoundOk(rows + [row], Add(f, row).value)
    ensures Add(f, row).None? ==> !Agreeing(rows + [row])
  {
    hide Indexed, RowFound, Add, Agreeing;
    if Add(f, row).Some? {
      AddIndexed(rows, f, row);
      forall x | x in rows + [row] ensures RowFound(x, Add(f, row).value) {
        AddFinds(rows, f, row, x);
      }
    } else {
      AddRefuses(rows, f, row);
    }
  }

  lemma {:induction false} FoldOk(rows: seq<BarRow>)
    ensures Fold(rows).Some? ==> FoundOk(rows, Fold(rows).value)
    ensures Fold(rows).None? ==> !Agreeing(rows)
  {
    if rows != [] {
      FoldOk(Init(rows));
      InitLast(rows);
      assert forall x :: x in Init(rows) ==> x in rows;
      if Fold(Init(rows)).Some? {
        AddOk(Init(rows), Fold(Init(rows)).value, Last(rows));
      } else {
        assert Agreeing(rows) ==> Agreeing(Init(rows));
      }
    }
  }

  function Deduped(rows: seq<BarRow>): Option<seq<BarRow>> {
    match Fold(rows)
    case None => None
    case Some(f) =>
      FoldOk(rows);
      Some(Sort(Listed(f), ROW_ORDER))
  }

  method DedupeRows(rows: seq<BarRow>) returns (r: Option<seq<BarRow>>)
    ensures r == Deduped(rows)
  {
    var order: seq<BarKey>, byKey: map<BarKey, BarRow> := [], map[];
    for i := 0 to |rows|
      invariant Fold(rows[..i]) == Some(Found(order, byKey))
    {
      var row := rows[i];
      assert Init(rows[..i + 1]) == rows[..i] && Last(rows[..i + 1]) == row;
      if row.key !in byKey {
        order := order + [row.key];
        byKey := byKey[row.key := row];
      } else if byKey[row.key].values != row.values {
        FoldStops(rows, i + 1);
        return None;
      } else if Earlier(row, byKey[row.key]) {
        byKey := byKey[row.key := row];
      }
    }
    assert rows[..|rows|] == rows;
    FoldOk(rows);
    return Some(Sort(Listed(Found(order, byKey)), ROW_ORDER));
  }

  lemma {:induction false} FoldStops(rows: seq<BarRow>, i: nat)
    requires i <= |rows| && Fold(rows[..i]).None?
    ensures Fold(rows).None?
  {
    if i == |rows| {
      assert rows[..i] == rows;
    } else {
      assert Init(rows)[..i] == rows[..i];
      FoldStops(Init(rows), i);
    }
  }

  lemma FoundAgrees(rows: seq<BarRow>, f: Found)
    requires FoundOk(rows, f)
    ensures Agreeing(rows)
  {
    forall x, y | x in rows && y in rows && x.key == y.key ensures x.values == y.values {
      assert RowFound(x, f) && RowFound(y, f);
    }
  }

  lemma SortedFound(rows: seq<BarRow>, f: Found)
    requires FoundOk(rows, f)
    ensures IsDeduped(rows, Sort(Listed(f), ROW_ORDER))
  {
    RowOrder();
    ListedSeparated(Listed(f));
    SortStrict(Listed(f), ROW_ORDER);
    FoundCovers(rows, f);
  }

  lemma FoundCovers(rows: seq<BarRow>, f: Found)
    requires FoundOk(rows, f)
    ensures Covers(rows, Sort(Listed(f), ROW_ORDER))
  {
    var ys := Sort(Listed(f), ROW_ORDER);
    SortMembers(Listed(f));
    forall x | x in rows ensures Represented(x, ys) {
      FoundListed(rows, f, x);
    }
    forall y | y in ys ensures y in rows {
      assert y in Listed(f);
    }
  }

  lemma FoundListed(rows: seq<BarRow>, f: Found, x: BarRow)
    requires FoundOk(rows, f) && x in rows
    ensures x.key in f.byKey && f.byKey[x.key] in Listed(f)
    ensures f.byKey[x.key].key == x.key && !Earlier(x, f.byKey[x.key])
  {
    assert RowFound(x, f);
    var k :| 0 <= k < |f.order| && f.order[k] == x.key;
    assert Listed(f)[k] == f.byKey[x.key];
  }

  lemma SortMembers(xs: seq<BarRow>)
    ensures forall x :: x in Sort(xs, ROW_ORDER) <==> x in xs
  {
    SortPermutes(xs, ROW_ORDER);
    forall x ensures x in Sort(xs, ROW_ORDER) <==> x in xs {
      assert x in multiset(Sort(xs, ROW_ORDER)) <==> x in multiset(xs);
    }
  }

  lemma {:induction false} ListedSeparated(xs: seq<BarRow>)
    requires forall i, j :: 0 <= i < j < |xs| ==> xs[i].key != xs[j].key
    ensures Separated(multiset(xs), ROW_ORDER)
  {
    if xs != [] {
      var rest, x := Init(xs), Last(xs);
      ListedSeparated(rest);
      InitLast(xs);
      SnocMultiset(rest, x);
      forall y | y in rest ensures ROW_ORDER(x, y) || ROW_ORDER(y, x) {
        KeyOrder(x.key, y.key, x.key);
      }
      assert forall y :: multiset(xs)[y] == multiset(rest)[y] + multiset{x}[y];
      assert x !in rest;
    }
  }

  /** Deduplication fails exactly when two rows of one key differ in value, and otherwise returns one
      row per key, sorted, each with the earliest availability. */
  lemma DedupedMeans(rows: seq<BarRow>)
    ensures Deduped(rows).Some? <==> Agreeing(rows)
    ensures Deduped(rows).Some? ==> IsDeduped(rows, Deduped(rows).value)
  {
    FoldOk(rows);
    if Fold(rows).Some? {
      FoundAgrees(rows, Fold(rows).value);
      SortedFound(rows, Fold(rows).value);
    }
  }

  lemma StrictKeys(xs: seq<BarRow>, x: BarRow, y: BarRow)
    requires Strict(xs, ROW_ORDER) && x in xs && y in xs && x.key == y.key
    ensures x == y
  {
    KeyOrder(x.key, x.key, x.key);
    var i :| 0 <= i < |xs| && xs[i] == x;
    var j :| 0 <= j < |xs| && xs[j] == y;
    assert !ROW_ORDER(x, y) && !ROW_ORDER(y, x);
  }

  ghost predicate OnePerKey(xs: seq<BarRow>) {
    forall x, y :: x in xs && y in xs && x.key == y.key ==> x == y
  }

  lemma StrictOnePerKey(xs: seq<BarRow>)
    requires Strict(xs, ROW_ORDER)
    ensures OnePerKey(xs)
  {
    forall x, y | x in xs && y in xs && x.key == y.key ensures x == y {
      StrictKeys(xs, x, y);
    }
  }

  lemma RepresentativeOf(x: BarRow, rows: seq<BarRow>, result: seq<BarRow>) returns (y: BarRow)
    requires Covers(rows, result) && x in rows
    ensures y in result && y in rows && y.key == x.key && !Earlier(x, y)
  {
    assert Represented(x, result);
    y :| y in result && y.key == x.key && !Earlier(x, y);
  }

  /** A row of one result is the other result's row of that key: same values, and neither earlier. */
  lemma DedupedWithin(rows: seq<BarRow>, others: seq<BarRow>, xs: seq<BarRow>, ys: seq<BarRow>, x: BarRow)
    requires Agreeing(rows) && Covers(rows, xs) && OnePerKey(xs) && Covers(others, ys)
    requires forall r :: r in rows <==> r in others
    requires x in xs
    ensures x in ys
  {
    var y := RepresentativeOf(x, others, ys);
    var z := RepresentativeOf(y, rows, xs);
    assert x.key == z.key;
    OneRow(rows, xs, x, y, z);
  }

  lemma OneRow(rows: seq<BarRow>, xs: seq<BarRow>, x: BarRow, y: BarRow, z: BarRow)
    requires Agreeing(rows) && OnePerKey(xs) && x in xs && z in xs && x in rows && y in rows
    requires x.key == y.key == z.key && !Earlier(x, y) && !Earlier(y, z)
    ensures x == y
  {
  }

  /** The result depends on nothing but which rows are present: not their order, not repetitions. */
  lemma DedupeForgetsOrder(rows: seq<BarRow>, others: seq<BarRow>)
    requires forall r :: r in rows <==> r in others
    ensures Deduped(rows) == Deduped(others)
  {
    DedupedMeans(rows);
    DedupedMeans(others);
    assert Agreeing(rows) <==> Agreeing(others);
    if Agreeing(rows) {
      var xs, ys := Deduped(rows).value, Deduped(others).value;
      StrictOnePerKey(xs);
      StrictOnePerKey(ys);
      forall x ensures x in xs <==> x in ys {
        if x in xs {
          DedupedWithin(rows, others, xs, ys, x);
        } else if x in ys {
          DedupedWithin(others, rows, ys, xs, x);
        }
      }
      RowOrder();
      StrictSameMembers(xs, ys, ROW_ORDER);
    }
  }

  /** Deduplicating again changes nothing. */
  lemma DedupeIdempotent(rows: seq<BarRow>)
    requires Deduped(rows).Some?
    ensures Deduped(Deduped(rows).value) == Deduped(rows)
  {
    DedupedMeans(rows);
    var xs := Deduped(rows).value;
    DedupedFixes(xs);
  }

  /** A strictly sorted batch is its own deduplication. */
  lemma DedupedFixes(xs: seq<BarRow>)
    requires Strict(xs, ROW_ORDER)
    ensures Deduped(xs) == Some(xs)
  {
    StrictOnePerKey(xs);
    DedupedMeans(xs);
    var ys := Deduped(xs).value;
    forall x | x in xs ensures x in ys {
      assert Represented(x, ys);
      var y :| y in ys && y.key == x.key && !Earlier(x, y);
      assert y in xs;
    }
    RowOrder();
    StrictSameMembers(xs, ys, ROW_ORDER);
  }
}
