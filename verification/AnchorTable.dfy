/** The anchor table under any requests at all: what it holds after every sequence of them, and exactly which
    request it takes next. */
module AnchorTable {
  import opened Common
  import opened LedgerRecords
  import opened CampaignAnchors

  /** The table after the requests, each taken or rejected. */
  function Table(requests: seq<Anchor>): seq<Anchor> {
    if requests == [] then []
    else
      var before := Table(Init(requests));
      var r := Publish(before, Last(requests));
      if r.Some? then r.value else before
  }

  /** A position the budget allows: at most 259 base calls, five more in all, and 264 at most. */
  ghost predicate InBudget(q: Anchor) {
    && 1 <= q.campaignNumber <= q.number && 1 <= q.baseCalls <= 259
    && q.baseCalls <= q.authorizedCalls && q.authorizedCalls <= q.baseCalls + 5 && q.authorizedCalls <= 264
    && 0 <= q.reservedCalls <= q.authorizedCalls
  }

  /** The first position of a campaign. */
  ghost predicate Opens(q: Anchor) {
    q.campaignNumber == 1 && q.authorizedCalls == q.baseCalls && q.reservedCalls == 0
  }

  /** The next position of a campaign: the base stays, and either more is authorized, or one more call is
      reserved, or neither. */
  ghost predicate Follows(x: Anchor, q: Anchor) {
    && q.campaignNumber == x.campaignNumber + 1 && q.baseCalls == x.baseCalls
    && (|| (x.authorizedCalls < q.authorizedCalls && q.reservedCalls == x.reservedCalls)
        || (q.authorizedCalls == x.authorizedCalls && q.reservedCalls == x.reservedCalls + 1)
        || (q.authorizedCalls == x.authorizedCalls && q.reservedCalls == x.reservedCalls))
  }

  /** `k` is where the campaign last stands in the table. */
  ghost predicate Stands(t: seq<Anchor>, k: int, c: CampaignId) {
    0 <= k < |t| && t[k].campaign == c && forall i :: k < i < |t| ==> t[i].campaign != c
  }

  ghost predicate Unseen(t: seq<Anchor>, c: CampaignId) {
    forall i :: 0 <= i < |t| ==> t[i].campaign != c
  }

  ghost predicate Fresh(t: seq<Anchor>, q: Anchor) {
    forall i :: 0 <= i < |t| ==>
      t[i].ledger != q.ledger && (t[i].campaign == q.campaign ==> t[i].campaignLedger != q.campaignLedger)
  }

  /** The request extends the table by one position, under new digests. */
  ghost predicate Extends(t: seq<Anchor>, q: Anchor) {
    && InBudget(q) && q.number == |t| + 1 && Fresh(t, q)
    && ((Unseen(t, q.campaign) && Opens(q)) || exists k :: Stands(t, k, q.campaign) && Follows(t[k], q))
  }

  /** Every row extended the rows before it. */
  ghost predicate TableOk(t: seq<Anchor>) {
    t == [] || (TableOk(Init(t)) && Extends(Init(t), Last(t)))
  }

  lemma StandsOnce(t: seq<Anchor>, k: int, m: int, c: CampaignId)
    requires Stands(t, k, c) && Stands(t, m, c)
    ensures k == m
  {
  }

  lemma StandsBefore(t: seq<Anchor>, k: int, c: CampaignId)
    requires t != [] && Last(t).campaign != c
    ensures Stands(t, k, c) <==> Stands(Init(t), k, c)
    ensures Unseen(t, c) <==> Unseen(Init(t), c)
  {
    InitLast(t);
  }

  /** The row found for a campaign is where it last stands. */
  lemma {:induction false} LatestMeans(t: seq<Anchor>, c: CampaignId) returns (k: int)
    requires TableOk(t)
    ensures LatestFor(t, c).None? <==> Unseen(t, c)
    ensures LatestFor(t, c).Some? ==> Stands(t, k, c) && LatestFor(t, c) == Some(t[k])
  {
    k := -1;
    if t != [] {
      var rest, last := Init(t), Last(t);
      var m := LatestMeans(rest, c);
      if last.campaign == c {
        LatestIsLast(rest, last, m);
        k := |t| - 1;
        assert t[k] == last && Stands(t, k, c);
      } else {
        k := m;
        StandsBefore(t, k, c);
      }
    }
  }

  lemma LatestIsLast(rest: seq<Anchor>, q: Anchor, m: int)
    requires Extends(rest, q) && (LatestFor(rest, q.campaign).None? <==> Unseen(rest, q.campaign))
    requires LatestFor(rest, q.campaign).Some? ==>
               Stands(rest, m, q.campaign) && LatestFor(rest, q.campaign) == Some(rest[m])
    ensures LatestFor(rest, q.campaign).Some? ==> LatestFor(rest, q.campaign).value.campaignNumber < q.campaignNumber
  {
    if LatestFor(rest, q.campaign).Some? {
      assert !Unseen(rest, q.campaign);
      var k :| Stands(rest, k, q.campaign) && Follows(rest[k], q);
      StandsOnce(rest, k, m, q.campaign);
    }
  }

  /** Numbers count the rows; digests never repeat; every row is in budget. */
  lemma {:induction false} RowMeans(t: seq<Anchor>, j: nat)
    requires TableOk(t) && j < |t|
    ensures t[j].number == j + 1 && InBudget(t[j])
    ensures forall i :: 0 <= i < j ==>
              && t[i].ledger != t[j].ledger
              && (t[i].campaign == t[j].campaign ==> t[i].campaignLedger != t[j].campaignLedger)
  {
    if j < |t| - 1 {
      RowMeans(Init(t), j);
    } else {
      assert forall i :: 0 <= i < j ==> Init(t)[i] == t[i];
    }
  }

  /** Within a campaign positions count up, the base never changes, and nothing goes back. */
  lemma {:induction false} NeverBack(t: seq<Anchor>, i: nat, j: nat)
    requires TableOk(t) && i < j < |t| && t[i].campaign == t[j].campaign
    ensures t[i].campaignNumber < t[j].campaignNumber && t[i].baseCalls == t[j].baseCalls
    ensures t[i].authorizedCalls <= t[j].authorizedCalls && t[i].reservedCalls <= t[j].reservedCalls
    decreases |t|
  {
    var rest, q := Init(t), Last(t);
    if j < |t| - 1 {
      NeverBack(rest, i, j);
    } else {
      assert rest[i] == t[i] && q == t[j];
      assert !Unseen(rest, q.campaign);
      var k :| Stands(rest, k, q.campaign) && Follows(rest[k], q);
      if i < k {
        NeverBack(rest, i, k);
      }
    }
  }

  lemma BoundedIff(q: Anchor)
    ensures Bounded(q) <==> InBudget(q)
  {
  }

  lemma {:induction false} TableLength(t: seq<Anchor>)
    requires TableOk(t) && t != []
    ensures Last(t).number == |t|
  {
    RowMeans(t, |t| - 1);
  }

  lemma KeysFreeIff(t: seq<Anchor>, q: Anchor)
    requires TableOk(t) && q.number == |t| + 1
    requires forall i :: 0 <= i < |t| && t[i].campaign == q.campaign ==> t[i].campaignNumber < q.campaignNumber
    ensures KeysFree(t, q) <==> Fresh(t, q)
  {
    forall i | 0 <= i < |t| ensures t[i].number != q.number {
      RowMeans(t, i);
    }
  }

  lemma NumbersBelow(t: seq<Anchor>, k: int, q: Anchor)
    requires TableOk(t) && Stands(t, k, q.campaign) && q.campaignNumber == t[k].campaignNumber + 1
    ensures forall i :: 0 <= i < |t| && t[i].campaign == q.campaign ==> t[i].campaignNumber < q.campaignNumber
  {
    forall i | 0 <= i < |t| && t[i].campaign == q.campaign ensures t[i].campaignNumber < q.campaignNumber {
      if i < k {
        NeverBack(t, i, k);
      }
    }
  }

  /** Exactly what the table takes: its own last row again, which changes nothing, or a request that extends
      it, which is appended. Everything else is rejected. */
  lemma PublishIff(t: seq<Anchor>, q: Anchor)
    requires TableOk(t)
    ensures Publish(t, q) == if t != [] && q == Last(t) then Some(t) else if Extends(t, q) then Some(t + [q]) else None
  {
    hide TableOk, KeysFree, Fresh, Stands, Unseen, LatestFor, Bounded, InBudget;
    BoundedIff(q);
    var k := LatestMeans(t, q.campaign);
    if t != [] {
      TableLength(t);
      if q == Last(t) {
        LastInBudget(t);
      }
    }
    if q.number == |t| + 1 {
      NewNumber(t, q, k);
    }
  }

  lemma LastInBudget(t: seq<Anchor>)
    requires TableOk(t) && t != []
    ensures InBudget(Last(t))
  {
  }

  lemma NewNumber(t: seq<Anchor>, q: Anchor, k: int)
    requires TableOk(t) && q.number == |t| + 1
    requires LatestFor(t, q.campaign).None? <==> Unseen(t, q.campaign)
    requires LatestFor(t, q.campaign).Some? ==> Stands(t, k, q.campaign) && LatestFor(t, q.campaign) == Some(t[k])
    ensures ExtendsGlobal(t, q) && ExtendsCampaign(LatestFor(t, q.campaign), q) && KeysFree(t, q) <==>
              && Fresh(t, q)
              && ((Unseen(t, q.campaign) && Opens(q)) || exists m :: Stands(t, m, q.campaign) && Follows(t[m], q))
  {
    if t != [] {
      TableLength(t);
    }
    if LatestFor(t, q.campaign).None? {
      KeysFreeIff(t, q);
    } else {
      forall m | Stands(t, m, q.campaign) ensures m == k {
        StandsOnce(t, m, k, q.campaign);
      }
      if q.campaignNumber == t[k].campaignNumber + 1 {
        NumbersBelow(t, k, q);
        KeysFreeIff(t, q);
      }
    }
  }

  /** Whatever is requested in whatever order, the table is a history of extensions. */
  lemma {:induction false} TableKeeps(requests: seq<Anchor>)
    ensures TableOk(Table(requests))
  {
    if requests != [] {
      TableKeeps(Init(requests));
      var before, q := Table(Init(requests)), Last(requests);
      PublishIff(before, q);
      SnocParts(before, q);
    }
  }
}
