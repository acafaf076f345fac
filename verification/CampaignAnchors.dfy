/** The database side: one append-only table of high-water anchors and the function that publishes to it.

    The database never sees the journal. It compares counters and opaque digests with the previous
    anchor, so that it accepts every step the writers take is a theorem about both languages. */
module CampaignAnchors {
  import opened Common
  import opened LedgerRecords
  import opened LedgerValidator
  import opened LedgerWriters

  datatype Anchor = Anchor(
    number: int, ledger: LedgerDigest,
    campaign: CampaignId, campaignNumber: int, campaignLedger: LedgerDigest,
    baseCalls: int, authorizedCalls: int, reservedCalls: int)

  predicate Bounded(q: Anchor) {
    && 1 <= q.campaignNumber <= q.number
    && 1 <= q.baseCalls <= MAX_AUTHORIZED_CALLS
    && q.baseCalls <= q.authorizedCalls <= HardMax(q.baseCalls)
    && 0 <= q.reservedCalls <= q.authorizedCalls
  }

  /** The anchor with the greatest campaign checkpoint number. */
  function LatestFor(anchors: seq<Anchor>, c: CampaignId): Option<Anchor> {
    if anchors == [] then None
    else
      var earlier := LatestFor(Init(anchors), c);
      var x := Last(anchors);
      if x.campaign == c && (earlier.None? || earlier.value.campaignNumber <= x.campaignNumber)
      then Some(x)
      else earlier
  }

  predicate ExtendsGlobal(anchors: seq<Anchor>, q: Anchor) {
    if anchors == [] then q.number == 1
    else q.number == Last(anchors).number + 1 && q.ledger != Last(anchors).ledger
  }

  predicate ExtendsCampaign(prior: Option<Anchor>, q: Anchor) {
    match prior
    case None => q.campaignNumber == 1 && q.authorizedCalls == q.baseCalls && q.reservedCalls == 0
    case Some(x) =>
      && q.campaignNumber == x.campaignNumber + 1
      && q.campaignLedger != x.campaignLedger
      && q.baseCalls == x.baseCalls
      && (|| (q.authorizedCalls > x.authorizedCalls && q.reservedCalls == x.reservedCalls)
          || (q.authorizedCalls == x.authorizedCalls && q.reservedCalls == x.reservedCalls + 1)
          || (q.authorizedCalls == x.authorizedCalls && q.reservedCalls == x.reservedCalls))
  }

  /** The table's unique constraints. */
  predicate KeysFree(anchors: seq<Anchor>, q: Anchor) {
    forall i :: 0 <= i < |anchors| ==>
      && anchors[i].number != q.number
      && anchors[i].ledger != q.ledger
      && (anchors[i].campaign == q.campaign ==>
            anchors[i].campaignNumber != q.campaignNumber && anchors[i].campaignLedger != q.campaignLedger)
  }

  /** The publishing function: the table afterwards, or a rejection that leaves it unchanged. */
  function Publish(anchors: seq<Anchor>, q: Anchor): Option<seq<Anchor>> {
    if !Bounded(q) then None
    else if anchors != [] && q.number <= Last(anchors).number then
      if q == Last(anchors) then Some(anchors) else None
    else if !ExtendsGlobal(anchors, q) || !ExtendsCampaign(LatestFor(anchors, q.campaign), q) || !KeysFree(anchors, q)
    then None
    else Some(anchors + [q])
  }

  /** The anchor requested after an append: global and campaign position of the whole journal. */
  function AnchorOf(rs: seq<Record>): Anchor
    requires rs != [] && Accepts(rs)
  {
    LastHasCampaign(rs);
    var c := Last(rs).campaignId;
    CampaignStateAgrees(rs, c.scope);
    var s := CampaignStateOf(rs, c.scope).value;
    Anchor(s.globalCount, s.globalDigest, c, s.recordCount, s.ledgerDigest,
           s.baseCalls.value, s.authorizedCalls, s.reservedCalls)
  }

  lemma LastHasCampaign(rs: seq<Record>)
    requires rs != [] && Accepts(rs)
    ensures Last(rs).campaignId.CampaignDigest?
    ensures CampaignRecords(rs, Last(rs).campaignId) != []
    ensures Headers(rs, Last(rs).campaignId) != []
    ensures CampaignStateOf(rs, Last(rs).campaignId.scope).Some?
    ensures CampaignStateOf(rs, Last(rs).campaignId.scope).value.baseCalls.Some?
  {
    CampaignTracked(rs, Last(rs).campaignId);
    assert Last(Headers(rs, Last(rs).campaignId)).campaignId == Last(rs).campaignId;
    CampaignStateAgrees(rs, Last(rs).campaignId.scope);
  }

  /** The anchors of a journal published record by record. */
  function Chain(rs: seq<Record>): (xs: seq<Anchor>)
    requires Accepts(rs)
    ensures |xs| == |rs|
  {
    if rs == [] then []
    else AcceptedPrefix(rs, |rs| - 1); Chain(Init(rs)) + [AnchorOf(rs)]
  }

  /** The position an accepted journal gives a campaign. */
  ghost predicate PositionOf(x: Anchor, rs: seq<Record>, c: CampaignId)
    requires Accepts(rs)
  {
    && Headers(rs, c) != []
    && x.campaign == c
    && x.campaignNumber == |CampaignRecords(rs, c)|
    && x.campaignLedger == LedgerDigestOf(CampaignRecords(rs, c))
    && x.baseCalls == Headers(rs, c)[0].baseCalls
    && x.authorizedCalls == Last(Headers(rs, c)).authorizedCalls
    && x.reservedCalls == |CampaignAttempts(rs, c)|
  }

  lemma AnchorPosition(rs: seq<Record>)
    requires rs != [] && Accepts(rs)
    ensures PositionOf(AnchorOf(rs), rs, Last(rs).campaignId) && Bounded(AnchorOf(rs))
    ensures AnchorOf(rs).number == |rs| && AnchorOf(rs).ledger == LedgerDigestOf(rs)
  {
    var c := Last(rs).campaignId;
    LastHasCampaign(rs);
    CampaignTracked(rs, c);
    CampaignBudget(rs, c);
    CampaignCounts(rs, c);
    CampaignStateAgrees(rs, c.scope);
  }

  lemma {:induction false} ChainLatest(rs: seq<Record>, c: CampaignId)
    requires Accepts(rs)
    ensures CampaignRecords(rs, c) == [] <==> LatestFor(Chain(rs), c).None?
    ensures LatestFor(Chain(rs), c).Some? ==> PositionOf(LatestFor(Chain(rs), c).value, rs, c)
  {
    if rs != [] {
      var xs, r := Init(rs), Last(rs);
      AcceptedPrefix(rs, |xs|);
      InitLast(rs);
      ChainLatest(xs, c);
      ChainSnoc(xs, r);
      FiltersSnoc(xs, r, c);
      if r.campaignId == c {
        AnchorPosition(rs);
      } else {
        PositionStays(LatestFor(Chain(xs), c), xs, r, c);
      }
    }
  }

  lemma ChainSnoc(xs: seq<Record>, r: Record)
    requires Accepts(xs) && Accepts(xs + [r])
    ensures Chain(xs + [r]) == Chain(xs) + [AnchorOf(xs + [r])]
    ensures AnchorOf(xs + [r]).campaign == r.campaignId
    ensures forall c :: LatestFor(Chain(xs + [r]), c) ==
              var earlier := LatestFor(Chain(xs), c); var x := AnchorOf(xs + [r]);
              if r.campaignId == c && (earlier.None? || earlier.value.campaignNumber <= x.campaignNumber)
              then Some(x) else earlier
  {
    SnocParts(xs, r);
    SnocParts(Chain(xs), AnchorOf(xs + [r]));
  }

  lemma PositionStays(x: Option<Anchor>, xs: seq<Record>, r: Record, c: CampaignId)
    requires Accepts(xs) && Accepts(xs + [r]) && r.campaignId != c
    ensures x.Some? && PositionOf(x.value, xs, c) ==> PositionOf(x.value, xs + [r], c)
  {
    FiltersSnoc(xs, r, c);
  }

  /** Anchor `i` of a chain is the anchor of the journal's first `i + 1` records. */
  lemma {:induction false} ChainAt(rs: seq<Record>, i: nat)
    requires Accepts(rs) && i < |rs|
    ensures Accepts(rs[..i + 1])
    ensures Chain(rs)[i] == AnchorOf(rs[..i + 1])
    decreases |rs|
  {
    if i == |rs| - 1 {
      assert rs[..i + 1] == rs;
      ChainLast(rs);
    } else {
      AcceptedPrefix(rs, |rs| - 1);
      ChainAt(Init(rs), i);
      assert rs[..i + 1] == Init(rs)[..i + 1];
      ChainLast(rs);
    }
  }

  lemma ChainLast(rs: seq<Record>)
    requires Accepts(rs) && rs != []
    ensures Accepts(Init(rs)) && Chain(rs) == Chain(Init(rs)) + [AnchorOf(rs)]
  {
    AcceptedPrefix(rs, |rs| - 1);
    InitLast(rs);
    ChainSnoc(Init(rs), Last(rs));
  }

  lemma AnchorAt(rs: seq<Record>, i: nat)
    requires Accepts(rs) && i < |rs|
    ensures Chain(rs)[i].number == i + 1 && Chain(rs)[i].ledger == LedgerDigestOf(rs[..i + 1])
    ensures var x := Chain(rs)[i];
            && x.campaignLedger.LedgerDigestOf?
            && |x.campaignLedger.records| == x.campaignNumber <= |CampaignRecords(rs, x.campaign)|
  {
    var ys := rs[..i + 1];
    ChainAt(rs, i);
    AnchorShape(ys, AnchorOf(ys));
    CampaignGrows(rs, i + 1, Last(ys).campaignId);
  }

  lemma AnchorShape(ys: seq<Record>, x: Anchor)
    requires ys != [] && Accepts(ys) && x == AnchorOf(ys)
    ensures x.number == |ys| && x.ledger == LedgerDigestOf(ys)
    ensures x.campaign == Last(ys).campaignId
    ensures x.campaignNumber == |CampaignRecords(ys, Last(ys).campaignId)|
    ensures x.campaignLedger == LedgerDigestOf(CampaignRecords(ys, Last(ys).campaignId))
  {
    AnchorPosition(ys);
  }

  lemma {:induction false} CampaignGrows(rs: seq<Record>, n: nat, c: CampaignId)
    requires n <= |rs|
    ensures |CampaignRecords(rs[..n], c)| <= |CampaignRecords(rs, c)|
    decreases |rs|
  {
    if n == |rs| {
      assert rs[..n] == rs;
    } else {
      CampaignGrows(Init(rs), n, c);
      assert Init(rs)[..n] == rs[..n];
    }
  }

  lemma ChainKeysFree(rs: seq<Record>, r: Record)
    requires Accepts(rs) && Accepts(rs + [r])
    ensures KeysFree(Chain(rs), AnchorOf(rs + [r]))
  {
    var q := AnchorOf(rs + [r]);
    var c := r.campaignId;
    AnchorPosition(rs + [r]);
    FiltersSnoc(rs, r, c);
    forall i | 0 <= i < |rs|
      ensures var x := Chain(rs)[i];
              && x.number != q.number && x.ledger != q.ledger
              && (x.campaign == c ==> x.campaignNumber != q.campaignNumber && x.campaignLedger != q.campaignLedger)
    {
      AnchorAt(rs, i);
      assert |rs[..i + 1]| != |rs + [r]|;
    }
  }

  /** How one accepted record moves its campaign's counters. */
  lemma CampaignMoves(rs: seq<Record>, r: Record)
    requires Accepts(rs) && Accepts(rs + [r])
    ensures var c := r.campaignId; var hs := Headers(rs, c);
            if hs == [] then
              && r.Authorization? && r.authorizedCalls == r.baseCalls && CampaignAttempts(rs, c) == []
              && CampaignRecords(rs, c) == []
            else if r.Authorization? then
              r.baseCalls == hs[0].baseCalls && Last(hs).authorizedCalls <= r.authorizedCalls
            else true
  {
    AcceptsSnoc(rs, r);
    CampaignTracked(rs, r.campaignId);
    if r.Authorization? {
      AuthorizationFields(Run(rs).value, r);
    } else {
      HeaderCampaign(rs, r.authId);
    }
  }

  lemma ExtendsLatest(rs: seq<Record>, r: Record)
    requires Accepts(rs) && Accepts(rs + [r])
    ensures ExtendsCampaign(LatestFor(Chain(rs), r.campaignId), AnchorOf(rs + [r]))
  {
    ChainLatest(rs, r.campaignId);
    EmptyTogether(rs, r.campaignId);
    SnocParts(rs, r);
    var q := AnchorOf(rs + [r]);
    AnchorPosition(rs + [r]);
    MovesExtend(LatestFor(Chain(rs), r.campaignId), q, rs, r);
  }

  lemma EmptyTogether(rs: seq<Record>, c: CampaignId)
    requires Accepts(rs)
    ensures CampaignRecords(rs, c) == [] <==> Headers(rs, c) == []
  {
    CampaignTracked(rs, c);
    CampaignCounts(rs, c);
  }

  lemma MovesExtend(x: Option<Anchor>, q: Anchor, rs: seq<Record>, r: Record)
    requires Accepts(rs) && Accepts(rs + [r])
    requires Headers(rs, r.campaignId) == [] <==> x.None?
    requires x.Some? ==> PositionOf(x.value, rs, r.campaignId)
    requires PositionOf(q, rs + [r], r.campaignId)
    ensures ExtendsCampaign(x, q)
  {
    FiltersSnoc(rs, r, r.campaignId);
    CampaignMoves(rs, r);
  }

  /** The database accepts the anchor of every record the validator accepts next, and its table
      stays the chain of the whole journal. */
  lemma PublishExtends(rs: seq<Record>, r: Record)
    requires Accepts(rs) && Accepts(rs + [r])
    ensures Publish(Chain(rs), AnchorOf(rs + [r])) == Some(Chain(rs + [r]))
  {
    hide Accepts, AnchorOf, PositionOf, Bounded, ExtendsCampaign, KeysFree;
    AnchorPosition(rs + [r]);
    ExtendsLatest(rs, r);
    ChainKeysFree(rs, r);
    ChainSnoc(rs, r);
    if rs != [] {
      AnchorAt(rs, |rs| - 1);
      assert rs[..|rs|] == rs;
    }
  }

  lemma ChainHead(rs: seq<Record>)
    requires Accepts(rs) && rs != []
    ensures Last(Chain(rs)) == AnchorOf(rs)
  {
    ChainAt(rs, |rs| - 1);
    assert rs[..|rs|] == rs;
  }

  lemma PublishBehind(anchors: seq<Anchor>, q: Anchor)
    requires anchors != [] && Bounded(q) && q.number <= Last(anchors).number
    ensures Publish(anchors, q) == if q == Last(anchors) then Some(anchors) else None
  {
  }

  /** Re-publishing the visible head changes nothing; publishing any older position is rejected. */
  lemma RepublishHead(rs: seq<Record>, n: nat)
    requires Accepts(rs) && 0 < n <= |rs| && Accepts(rs[..n])
    ensures Publish(Chain(rs), AnchorOf(rs[..n])) == if n == |rs| then Some(Chain(rs)) else None
  {
    hide Publish, Bounded, PositionOf, Accepts, Run, AnchorOf, Chain;
    ChainHead(rs);
    AnchorPosition(rs);
    AnchorPosition(rs[..n]);
    PublishBehind(Chain(rs), AnchorOf(rs[..n]));
    assert rs[..|rs|] == rs;
  }

  /** The digest at the head of a chain identifies the journal it was published from. */
  lemma HeadIdentifies(rs: seq<Record>, file: seq<Record>)
    requires Accepts(rs)
    ensures (if file == [] then Chain(rs) == []
             else Chain(rs) != [] && Last(Chain(rs)).number == |file| && Last(Chain(rs)).ledger == LedgerDigestOf(file))
            <==> file == rs
  {
    if rs != [] {
      AnchorAt(rs, |rs| - 1);
      assert rs[..|rs|] == rs;
    }
  }
}
