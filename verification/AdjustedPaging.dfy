/** Keyset pages over adjusted rows: the newest page first, each next request ending where the last
    page began. */
module AdjustedPaging {
  import opened Common

  datatype Request = Request(start: Option<int>, end: Option<int>, limit: nat)

  /** One adjusted bar, keyed by its observation time. */
  datatype Row<T> = Row(timestamp: int, values: T)

  datatype Page<T> = Page(rows: seq<Row<T>>, hasMore: bool, nextEnd: Option<int>)

  /** What request validation demands. */
  predicate Valid(q: Request) {
    1 <= q.limit <= 1000 && (q.start.Some? && q.end.Some? ==> q.start.value < q.end.value)
  }

  predicate Inside<T>(q: Request, row: Row<T>) {
    (q.start.None? || q.start.value <= row.timestamp) && (q.end.None? || row.timestamp < q.end.value)
  }

  function Selected<T>(rows: seq<Row<T>>, q: Request): seq<Row<T>> {
    if rows == [] then []
    else Selected(Init(rows), q) + (if Inside(q, Last(rows)) then [Last(rows)] else [])
  }

  function Reversed<T>(xs: seq<T>): (r: seq<T>)
    ensures |r| == |xs|
  {
    seq(|xs|, i requires 0 <= i < |xs| => xs[|xs| - 1 - i])
  }

  function Read<T>(rows: seq<Row<T>>, q: Request): Page<T> {
    var reversed := Reversed(Selected(rows, q));
    var descending := reversed[..Min(q.limit + 1, |reversed|)];
    var hasMore := q.limit < |descending|;
    var page := Reversed(descending[..Min(q.limit, |descending|)]);
    Page(page, hasMore, if hasMore && page != [] then Some(page[0].timestamp) else None)
  }

  function FollowUp<T>(q: Request, page: Page<T>): Request {
    q.(end := page.nextEnd)
  }

  lemma ReversedHead<T>(xs: seq<T>, k: nat)
    requires k <= |xs|
    ensures Reversed(Reversed(xs)[..k]) == xs[|xs| - k..]
  {
  }

  /** The page is the newest part of the selection. */
  lemma PageIsTail<T>(rows: seq<Row<T>>, q: Request)
    requires 1 <= q.limit
    ensures var sel := Selected(rows, q); var cut := Max(0, |sel| - q.limit); var page := Read(rows, q);
            && page.rows == sel[cut..]
            && (page.hasMore <==> 0 < cut)
            && page.nextEnd == if 0 < cut then Some(sel[cut].timestamp) else None
  {
    var sel := Selected(rows, q);
    var reversed := Reversed(sel);
    var k := Min(q.limit, |sel|);
    var descending := reversed[..Min(q.limit + 1, |sel|)];
    assert descending[..Min(q.limit, |descending|)] == reversed[..k];
    ReversedHead(sel, k);
  }

  function Before<T>(xs: seq<Row<T>>, t: int): seq<Row<T>> {
    if xs == [] then [] else Before(Init(xs), t) + (if Last(xs).timestamp < t then [Last(xs)] else [])
  }

  lemma {:induction false} NarrowerEnd<T>(rows: seq<Row<T>>, q: Request, t: int)
    requires q.end.None? || t <= q.end.value
    ensures Selected(rows, q.(end := Some(t))) == Before(Selected(rows, q), t)
  {
    if rows != [] {
      var last := Last(rows);
      NarrowerEnd(Init(rows), q, t);
      SnocParts(Selected(Init(rows), q), last);
      assert Inside(q.(end := Some(t)), last) <==> Inside(q, last) && last.timestamp < t;
      if !Inside(q, last) {
        assert Selected(rows, q) == Selected(Init(rows), q);
      }
    }
  }

  predicate Increasing<T>(xs: seq<Row<T>>) {
    forall i, j :: 0 <= i < j < |xs| ==> xs[i].timestamp < xs[j].timestamp
  }

  lemma {:induction false} BeforeAll<T>(xs: seq<Row<T>>, t: int)
    requires forall i :: 0 <= i < |xs| ==> xs[i].timestamp < t
    ensures Before(xs, t) == xs
  {
    if xs != [] {
      BeforeAll(Init(xs), t);
      InitLast(xs);
      assert Last(xs).timestamp < t;
    }
  }

  lemma {:induction false} BeforeRow<T>(xs: seq<Row<T>>, k: nat)
    requires Increasing(xs) && k < |xs|
    ensures Before(xs, xs[k].timestamp) == xs[..k]
  {
    InitLast(xs);
    if k == |xs| - 1 {
      BeforeAll(Init(xs), xs[k].timestamp);
    } else {
      BeforeRow(Init(xs), k);
      assert Init(xs)[..k] == xs[..k];
    }
  }

  lemma {:induction false} SelectedMembers<T>(rows: seq<Row<T>>, q: Request)
    ensures forall r :: r in Selected(rows, q) ==> r in rows && Inside(q, r)
  {
    if rows != [] {
      SelectedMembers(Init(rows), q);
      InitLast(rows);
    }
  }

  lemma {:induction false} SelectedIncreasing<T>(rows: seq<Row<T>>, q: Request)
    requires Increasing(rows)
    ensures Increasing(Selected(rows, q))
  {
    if rows != [] {
      var rest, last := Init(rows), Last(rows);
      SelectedIncreasing(rest, q);
      SelectedMembers(rest, q);
      assert forall r :: r in rest ==> r.timestamp < last.timestamp;
      var sel := Selected(rest, q);
      assert forall i :: 0 <= i < |sel| ==> sel[i] in sel;
    }
  }

  /** Cutting the selection at one of its rows: the rows before it are a valid request's selection. */
  lemma CutSelects<T>(rows: seq<Row<T>>, q: Request, cut: nat)
    requires Increasing(rows) && Valid(q) && 0 < cut < |Selected(rows, q)|
    ensures var next := q.(end := Some(Selected(rows, q)[cut].timestamp));
            Valid(next) && Selected(rows, next) == Selected(rows, q)[..cut]
  {
    var sel := Selected(rows, q);
    SelectedIncreasing(rows, q);
    SelectedMembers(rows, q);
    assert Inside(q, sel[0]) && Inside(q, sel[cut]) by {
      assert sel[0] in sel && sel[cut] in sel;
    }
    NarrowerEnd(rows, q, sel[cut].timestamp);
    BeforeRow(sel, cut);
  }

  /** A page that has more is followed by a valid request for exactly the rows before it. */
  lemma FollowUpSelects<T>(rows: seq<Row<T>>, q: Request)
    requires Increasing(rows) && Valid(q) && Read(rows, q).hasMore
    ensures var page := Read(rows, q); var next := FollowUp(q, page);
            && Valid(next)
            && Selected(rows, q) == Selected(rows, next) + page.rows
            && |Selected(rows, next)| == |Selected(rows, q)| - q.limit
  {
    var sel := Selected(rows, q);
    PageIsTail(rows, q);
    CutSelects(rows, q, |sel| - q.limit);
    assert sel == sel[..|sel| - q.limit] + sel[|sel| - q.limit..];
  }

  /** From the start on, and before the end. */
  predicate InRange<T>(q: Request, r: Row<T>) {
    (q.start.Some? ==> q.start.value <= r.timestamp) && (q.end.Some? ==> r.timestamp < q.end.value)
  }

  lemma {:induction false} SelectedIff<T>(rows: seq<Row<T>>, q: Request, r: Row<T>)
    ensures r in Selected(rows, q) <==> r in rows && InRange(q, r)
  {
    if rows != [] {
      SelectedIff(Init(rows), q, r);
      InitLast(rows);
    }
  }

  predicate Older<T>(r: Row<T>, page: seq<Row<T>>) {
    forall i :: 0 <= i < |page| ==> r.timestamp < page[i].timestamp
  }

  lemma TailMeans<T>(sel: seq<Row<T>>, cut: nat)
    requires Increasing(sel) && cut <= |sel|
    ensures Increasing(sel[cut..])
    ensures forall r :: r in sel[cut..] ==> r in sel
    ensures forall r :: r in sel && r !in sel[cut..] ==> 0 < cut && Older(r, sel[cut..])
    ensures 0 < cut ==> sel[0] in sel && sel[0] !in sel[cut..]
  {
    forall r | r in sel && r !in sel[cut..] ensures 0 < cut && Older(r, sel[cut..]) {
      assert forall k :: 0 <= k < |sel| - cut ==> sel[cut..][k] == sel[k + cut];
      var i :| 0 <= i < |sel| && sel[i] == r;
      assert i < cut;
    }
  }

  /** A page lists, in order, the newest rows from `start` on and before `end`, as many as there are up to the
      limit. It has more exactly when such a row is left out, and then it is full and names its first. */
  lemma PageMeans<T>(rows: seq<Row<T>>, q: Request)
    requires Increasing(rows) && 1 <= q.limit
    ensures var page := Read(rows, q);
            && Increasing(page.rows) && |page.rows| <= q.limit
            && (forall r :: r in page.rows ==> r in rows && InRange(q, r))
            && (forall r :: r in rows && InRange(q, r) && r !in page.rows ==> page.hasMore && Older(r, page.rows))
    ensures var page := Read(rows, q);
            if page.hasMore then
              && |page.rows| == q.limit && page.nextEnd == Some(page.rows[0].timestamp)
              && exists r :: r in rows && InRange(q, r) && r !in page.rows
            else page.nextEnd == None
  {
    hide Increasing, Selected, Older, InRange;
    var sel := Selected(rows, q);
    var cut := Max(0, |sel| - q.limit);
    PageIsTail(rows, q);
    SelectedIncreasing(rows, q);
    TailMeans(sel, cut);
    var page := Read(rows, q);
    forall r | r in page.rows ensures r in rows && InRange(q, r) {
      SelectedIff(rows, q, r);
    }
    forall r | r in rows && InRange(q, r) && r !in page.rows ensures page.hasMore && Older(r, page.rows) {
      SelectedIff(rows, q, r);
    }
    if page.hasMore {
      SelectedIff(rows, q, sel[0]);
      assert sel[0] in rows && InRange(q, sel[0]) && sel[0] !in page.rows;
    }
  }

  /** Following `next_end` until there is no more. */
  function Walk<T>(rows: seq<Row<T>>, q: Request): seq<Page<T>>
    requires Increasing(rows) && Valid(q)
    decreases |Selected(rows, q)|
  {
    var page := Read(rows, q);
    if !page.hasMore then [page]
    else
      FollowUpSelects(rows, q);
      [page] + Walk(rows, FollowUp(q, page))
  }

  /** The rows of a walk, oldest page first. */
  function WalkRows<T>(pages: seq<Page<T>>): seq<Row<T>> {
    if pages == [] then [] else WalkRows(pages[1..]) + pages[0].rows
  }

  /** A walk returns every selected row exactly once, in order, in as few pages as the limit allows. */
  lemma {:induction false} WalkReturnsSelection<T>(rows: seq<Row<T>>, q: Request)
    requires Increasing(rows) && Valid(q)
    ensures WalkRows(Walk(rows, q)) == Selected(rows, q)
    ensures |Walk(rows, q)| == Max(1, (|Selected(rows, q)| + q.limit - 1) / q.limit)
    decreases |Selected(rows, q)|
  {
    var page := Read(rows, q);
    var n := |Selected(rows, q)|;
    PageIsTail(rows, q);
    if page.hasMore {
      FollowUpSelects(rows, q);
      WalkReturnsSelection(rows, FollowUp(q, page));
      assert Walk(rows, q)[1..] == Walk(rows, FollowUp(q, page));
      CeilingStep(n, q.limit);
    } else {
      assert [page][1..] == [];
      assert WalkRows([page]) == WalkRows([]) + page.rows;
      CeilingOne(n, q.limit);
    }
  }

  lemma CeilingStep(n: nat, limit: nat)
    requires 1 <= limit < n
    ensures Max(1, (n + limit - 1) / limit) == 1 + Max(1, (n - limit + limit - 1) / limit)
  {
    var m := n - 1;
    QuotientIs(m + limit, limit, m / limit + 1, m % limit);
    Positive(m, limit);
  }

  lemma QuotientIs(a: nat, d: nat, q: nat, r: nat)
    requires 0 < d && a == d * q + r && r < d
    ensures a / d == q
  {
    var k := a / d - q;
    assert a == d * (a / d) + a % d;
    assert d * k == d * (a / d) - d * q;
    Multiple(d, k);
    assert 0 - d < d * k < d;
  }

  lemma Multiple(d: int, k: int)
    requires 0 < d
    ensures 1 <= k ==> d <= d * k
    ensures k <= -1 ==> d * k <= -d
  {
    if 1 <= k {
      assert d * k == d + d * (k - 1);
      assert 0 <= d * (k - 1);
    } else if k <= -1 {
      assert d * k == -d - d * (-1 - k);
      assert 0 <= d * (-1 - k);
    }
  }

  lemma Positive(m: nat, limit: nat)
    requires 1 <= limit <= m
    ensures 1 <= m / limit
  {
    assert m == limit * (m / limit) + m % limit;
  }

  lemma CeilingOne(n: nat, limit: nat)
    requires n <= limit && 1 <= limit
    ensures Max(1, (n + limit - 1) / limit) == 1
  {
    if n == 0 {
      QuotientIs(limit - 1, limit, 0, limit - 1);
    } else {
      QuotientIs(n + limit - 1, limit, 1, n - 1);
    }
  }
}
