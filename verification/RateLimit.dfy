/** The API rate limiter over its in-memory counters, which expire two windows after their first hit. */
module RateLimit {
  import opened Common

  /** `rl:<identity>:<window seconds>:<window index>`, for a fixed window length. */
  datatype Bucket = Bucket(identity: string, index: int)

  datatype Store = Store(counts: map<Bucket, nat>, expiries: map<Bucket, real>)

  const EMPTY := Store(map[], map[])

  /** Drop the counters of `keys` that have expired. */
  function PurgeAmong(s: Store, keys: set<Bucket>, now: real): Store {
    Store(map b | b in s.counts && !(b in keys && b in s.expiries && s.expiries[b] <= now) :: s.counts[b],
          map b | b in s.expiries && !(b in keys && s.expiries[b] <= now) :: s.expiries[b])
  }

  function Purge(s: Store, now: real): Store {
    PurgeAmong(s, s.expiries.Keys, now)
  }

  lemma PurgeNone(s: Store, now: real)
    ensures PurgeAmong(s, {}, now) == s
  {
    assert PurgeAmong(s, {}, now).counts == s.counts;
    assert PurgeAmong(s, {}, now).expiries == s.expiries;
  }

  lemma PurgeOneMore(s: Store, keys: set<Bucket>, k: Bucket, now: real)
    requires k in s.expiries && k !in keys
    ensures PurgeAmong(s, keys + {k}, now)
         == var p := PurgeAmong(s, keys, now);
            if s.expiries[k] <= now then Store(p.counts - {k}, p.expiries - {k}) else p
    ensures k in PurgeAmong(s, keys, now).expiries && PurgeAmong(s, keys, now).expiries[k] == s.expiries[k]
  {
    var p, q := PurgeAmong(s, keys, now), PurgeAmong(s, keys + {k}, now);
    if s.expiries[k] <= now {
      assert q.counts == p.counts - {k};
      assert q.expiries == p.expiries - {k};
    } else {
      assert q.counts == p.counts;
      assert q.expiries == p.expiries;
    }
  }

  /** One increment at monotonic time `now`: drop what has expired, then count. */
  function Incremented(s: Store, bucket: Bucket, ttl: real, now: real): (Store, nat) {
    var p := Purge(s, now);
    if bucket in p.counts then (p.(counts := p.counts[bucket := p.counts[bucket] + 1]), p.counts[bucket] + 1)
    else (Store(p.counts[bucket := 1], p.expiries[bucket := now + ttl]), 1)
  }

  class MemoryRateLimitBackend {
    var counts: map<Bucket, nat>
    var expiries: map<Bucket, real>

    constructor ()
      ensures State() == EMPTY
    {
      counts, expiries := map[], map[];
    }

    function State(): Store
      reads this
    {
      Store(counts, expiries)
    }

    method Increment(bucket: Bucket, ttl: real, now: real) returns (count: nat)
      modifies this
      ensures (State(), count) == Incremented(old(State()), bucket, ttl, now)
    {
      PurgeExpired(now);
      if bucket !in counts {
        expiries := expiries[bucket := now + ttl];
      }
      count := (if bucket in counts then counts[bucket] else 0) + 1;
      counts := counts[bucket := count];
    }

    /** The sweep that every increment starts with. */
    method PurgeExpired(now: real)
      modifies this
      ensures State() == Purge(old(State()), now)
    {
      ghost var before: Store, done: set<Bucket> := State(), {};
      var pending := expiries.Keys;
      PurgeNone(before, now);
      while pending != {}
        invariant pending !! done && pending + done == before.expiries.Keys
        invariant State() == PurgeAmong(before, done, now)
        decreases |pending|
      {
        var key :| key in pending;
        PurgeOneMore(before, done, key, now);
        if expiries[key] <= now {
          expiries := expiries - {key};
          counts := counts - {key};
        }
        pending := pending - {key};
        done := done + {key};
      }
      assert done == before.expiries.Keys;
    }
  }

  datatype Decision = Decision(allowed: bool, limit: nat, remaining: nat, resetAfter: int)

  function Ceiling(x: real): int {
    if x == x.Floor as real then x.Floor else x.Floor + 1
  }

  function WindowIndex(wall: real, window: nat): int
    requires 0 < window
  {
    (wall / window as real).Floor
  }

  function Decide(limit: nat, window: nat, wall: real, count: nat): Decision
    requires 0 < window
  {
    Decision(count <= limit, limit, Max(0, limit - count),
             Max(1, Ceiling(Edge(WindowIndex(wall, window) + 1, window) - wall)))
  }

  class ApiRateLimiter {
    const limit: nat
    const window: nat
    const backend: MemoryRateLimitBackend

    constructor (limit: nat, window: nat)
      requires 0 < limit && 0 < window
      ensures this.limit == limit && this.window == window && fresh(backend) && backend.State() == EMPTY
    {
      this.limit, this.window := limit, window;
      backend := new MemoryRateLimitBackend();
    }

    /** `wall` is the wall clock at arrival, `mono` the monotonic clock when the backend counts. */
    method Hit(identity: string, wall: real, mono: real) returns (d: Decision)
      requires 0 < window
      modifies backend
      ensures var (store, count) := Incremented(old(backend.State()), Bucket(identity, WindowIndex(wall, window)),
                                              2.0 * window as real, mono);
              backend.State() == store && d == Decide(limit, window, wall, count)
    {
      var index := WindowIndex(wall, window);
      var count := backend.Increment(Bucket(identity, index), 2.0 * window as real, mono);
      d := Decide(limit, window, wall, count);
    }
  }

  // ---- runs ----

  /** One hit: the wall time it arrived at and how much later, on the monotonic clock, it was counted. */
  datatype Arrival = Arrival(identity: string, wall: real, delay: real)

  function BucketOf(h: Arrival, window: nat): Bucket
    requires 0 < window
  {
    Bucket(h.identity, WindowIndex(h.wall, window))
  }

  /** The two clocks advance together, a fixed offset apart. */
  function CountedAt(h: Arrival, offset: real): real {
    h.wall + offset + h.delay
  }

  function StoreAfter(hits: seq<Arrival>, window: nat, offset: real): Store
    requires 0 < window
  {
    if hits == [] then EMPTY
    else Incremented(StoreAfter(Init(hits), window, offset), BucketOf(Last(hits), window), 2.0 * window as real,
                   CountedAt(Last(hits), offset)).0
  }

  function CountReturned(hits: seq<Arrival>, window: nat, offset: real): nat
    requires 0 < window && hits != []
  {
    Incremented(StoreAfter(Init(hits), window, offset), BucketOf(Last(hits), window), 2.0 * window as real,
              CountedAt(Last(hits), offset)).1
  }

  /** A counter that never expires. */
  function Seen(hits: seq<Arrival>, window: nat, b: Bucket): nat
    requires 0 < window
  {
    if hits == [] then 0
    else Seen(Init(hits), window, b) + (if BucketOf(Last(hits), window) == b then 1 else 0)
  }

  /** Of the same identity, in the same window of wall time. */
  predicate SameWindow(g: Arrival, h: Arrival, window: nat)
    requires 0 < window
  {
    g.identity == h.identity && (g.wall / window as real).Floor == (h.wall / window as real).Floor
  }

  function Like(hits: seq<Arrival>, window: nat, h: Arrival): set<nat>
    requires 0 < window
  {
    set i: nat | i < |hits| && SameWindow(hits[i], h, window)
  }

  /** What is counted is the hits of one identity in one window of wall time. */
  lemma {:induction false} SeenMeans(hits: seq<Arrival>, window: nat, h: Arrival)
    requires 0 < window
    ensures Seen(hits, window, BucketOf(h, window)) == |Like(hits, window, h)|
  {
    if hits != [] {
      SeenMeans(Init(hits), window, h);
      BucketIff(Last(hits), h, window);
      LikeNext(hits, window, h);
    }
  }

  lemma BucketIff(g: Arrival, h: Arrival, window: nat)
    requires 0 < window
    ensures BucketOf(g, window) == BucketOf(h, window) <==> SameWindow(g, h, window)
  {
  }

  lemma LikeNext(hits: seq<Arrival>, window: nat, h: Arrival)
    requires 0 < window && hits != []
    ensures |Like(hits, window, h)|
         == |Like(Init(hits), window, h)| + (if SameWindow(Last(hits), h, window) then 1 else 0)
  {
    hide SameWindow;
    var before, n := Like(Init(hits), window, h), |hits| - 1;
    assert forall i :: 0 <= i < n ==> Init(hits)[i] == hits[i];
    assert Like(hits, window, h) == before + (if SameWindow(Last(hits), h, window) then {n} else {});
  }

  /** Counted in order of the monotonic clock, each within one window of its arrival. */
  ghost predicate Orderly(hits: seq<Arrival>, window: nat, offset: real) {
    && (forall i :: 0 <= i < |hits| ==> 0.0 <= hits[i].delay <= window as real)
    && (forall i, j :: 0 <= i < j < |hits| ==> CountedAt(hits[i], offset) <= CountedAt(hits[j], offset))
  }

  /** From this monotonic time on no orderly hit can belong to the bucket any more. */
  function Closed(b: Bucket, window: nat, offset: real): real {
    Edge(b.index + 2, window) + offset
  }

  /** A live counter is exact and outlives its bucket; a missing one belongs to a closed bucket. */
  ghost predicate Exact(s: Store, b: Bucket, seen: nat, now: real, closed: real) {
    && (b in s.counts <==> b in s.expiries)
    && (b in s.counts ==> s.counts[b] == seen > 0 && closed <= s.expiries[b])
    && (b !in s.counts && seen > 0 ==> closed <= now)
  }

  /** Where window `k` begins. */
  function Edge(k: int, window: nat): real {
    k as real * window as real
  }

  lemma EdgeAfter(k: int, m: nat, window: nat)
    ensures Edge(k + m, window) == Edge(k, window) + m as real * window as real
  {
    assert (k + m) as real == k as real + m as real;
  }

  lemma WindowBounds(wall: real, window: nat)
    requires 0 < window
    ensures Edge(WindowIndex(wall, window), window) <= wall < Edge(WindowIndex(wall, window) + 1, window)
  {
    Quotient(wall, window as real);
  }

  lemma Quotient(x: real, w: real)
    requires 0.0 < w
    ensures (x / w).Floor as real * w <= x < ((x / w).Floor + 1) as real * w
  {
    var q := x / w;
    var n := q.Floor;
    assert q * w == x;
    var low, high := n as real, (n + 1) as real;
    assert low <= q < high;
    Times(low, q, w);
    TimesStrictly(q, high, w);
    assert x < high * w;
  }

  lemma Times(x: real, y: real, z: real)
    requires x <= y && 0.0 < z
    ensures x * z <= y * z
  {
  }

  lemma TimesStrictly(x: real, y: real, z: real)
    requires x < y && 0.0 < z
    ensures x * z < y * z
  {
  }

  /** An orderly hit is counted before its bucket closes, and a counter it starts lives until then. */
  lemma HitInTime(h: Arrival, window: nat, offset: real)
    requires 0 < window && 0.0 <= h.delay <= window as real
    ensures CountedAt(h, offset) < Closed(BucketOf(h, window), window, offset)
    ensures Closed(BucketOf(h, window), window, offset) <= CountedAt(h, offset) + 2.0 * window as real
  {
    var k := WindowIndex(h.wall, window);
    WindowBounds(h.wall, window);
    EdgeAfter(k, 1, window);
    EdgeAfter(k, 2, window);
  }

  /** One increment keeps every counter exact. */
  lemma IncrementExact(s: Store, b: Bucket, other: Bucket, ttl: real, before: real, now: real, seen: nat, closed: real)
    requires Exact(s, other, seen, before, closed) && before <= now
    requires b == other ==> now < closed <= now + ttl
    ensures Exact(Incremented(s, b, ttl, now).0, other, seen + (if b == other then 1 else 0), now, closed)
    ensures b == other ==> Incremented(s, b, ttl, now).1 == seen + 1
  {
  }

  lemma {:induction false} StoreExact(hits: seq<Arrival>, window: nat, offset: real, b: Bucket)
    requires 0 < window && hits != [] && Orderly(hits, window, offset)
    ensures Exact(StoreAfter(hits, window, offset), b, Seen(hits, window, b), CountedAt(Last(hits), offset),
                  Closed(b, window, offset))
    ensures BucketOf(Last(hits), window) == b ==> CountReturned(hits, window, offset) == Seen(hits, window, b)
  {
    var rest, h := Init(hits), Last(hits);
    var now := CountedAt(h, offset);
    assert 0.0 <= h.delay <= window as real;
    HitInTime(h, window, offset);
    var before := if rest == [] then now else CountedAt(Last(rest), offset);
    if rest != [] {
      assert rest[|rest| - 1] == hits[|hits| - 2];
      StoreExact(rest, window, offset, b);
    }
    IncrementExact(StoreAfter(rest, window, offset), BucketOf(h, window), b, 2.0 * window as real, before, now,
                   Seen(rest, window, b), Closed(b, window, offset));
  }

  /** The expiring counter agrees with one that never expires: the j-th hit of an identity in a window
      returns j, so exactly the first `limit` of them are allowed. */
  lemma CountsAgree(hits: seq<Arrival>, limit: nat, window: nat, offset: real)
    requires 0 < window && hits != [] && Orderly(hits, window, offset)
    ensures var h := Last(hits); var j := Seen(hits, window, BucketOf(h, window));
            && CountReturned(hits, window, offset) == j
            && var d := Decide(limit, window, h.wall, CountReturned(hits, window, offset));
               && (d.allowed <==> j <= limit) && d.limit == limit
               && d.remaining == (if j < limit then limit - j else 0)
  {
    StoreExact(hits, window, offset, BucketOf(Last(hits), window));
  }

  /** The advertised reset is the rest of the window, rounded up to whole seconds. */
  lemma ResetCoversWindow(limit: nat, window: nat, wall: real, count: nat)
    requires 0 < window
    ensures var r := Decide(limit, window, wall, count).resetAfter;
            && 1 <= r <= window
            && WindowIndex(wall + r as real, window) > WindowIndex(wall, window)
            && (r as real - 1.0) < Edge(WindowIndex(wall, window) + 1, window) - wall
  {
    var k := WindowIndex(wall, window);
    WindowBounds(wall, window);
    EdgeAfter(k, 1, window);
    var left := Edge(k + 1, window) - wall;
    var r := Decide(limit, window, wall, count).resetAfter;
    assert left <= r as real < left + 1.0;
    WindowBounds(wall + r as real, window);
    EdgeOrder(WindowIndex(wall + r as real, window) + 1, k + 1, window);
  }

  lemma EdgeOrder(j: int, k: int, window: nat)
    requires 0 < window
    ensures Edge(k, window) < Edge(j, window) ==> k < j
  {
    if j <= k {
      Times(j as real, k as real, window as real);
    }
  }

  // ---- exactly when a count is right ----

  ghost predicate InOrder(hits: seq<Arrival>, offset: real) {
    forall i, j :: 0 <= i < j < |hits| ==> CountedAt(hits[i], offset) <= CountedAt(hits[j], offset)
  }

  /** When the bucket's first hit was counted. */
  function FirstAt(hits: seq<Arrival>, window: nat, offset: real, b: Bucket): real
    requires 0 < window && 0 < Seen(hits, window, b)
  {
    if Seen(Init(hits), window, b) == 0 then CountedAt(Last(hits), offset)
    else FirstAt(Init(hits), window, offset, b)
  }

  /** The counter started by the first hit is still there and exact, or its lifetime is over and whatever
      has been counted since falls short. */
  ghost predicate LiveOrShort(s: Store, b: Bucket, seen: nat, ends: real, now: real) {
    && (b in s.counts <==> b in s.expiries)
    && (|| (b in s.counts && s.counts[b] == seen && s.expiries[b] == ends)
        || (ends <= now && (b in s.counts ==> s.counts[b] < seen)))
  }

  ghost predicate Untouched(s: Store, b: Bucket) {
    b !in s.counts && b !in s.expiries
  }

  lemma FirstHit(s: Store, b: Bucket, ttl: real, now: real)
    requires Untouched(s, b)
    ensures Incremented(s, b, ttl, now).1 == 1
    ensures LiveOrShort(Incremented(s, b, ttl, now).0, b, 1, now + ttl, now)
  {
  }

  lemma OtherHit(s: Store, b: Bucket, other: Bucket, ttl: real, before: real, now: real, seen: nat, ends: real)
    requires b != other && before <= now
    ensures Untouched(s, other) ==> Untouched(Incremented(s, b, ttl, now).0, other)
    ensures LiveOrShort(s, other, seen, ends, before) ==>
              LiveOrShort(Incremented(s, b, ttl, now).0, other, seen, ends, now)
  {
  }

  lemma NextHit(s: Store, b: Bucket, ttl: real, before: real, now: real, seen: nat, ends: real)
    requires LiveOrShort(s, b, seen, ends, before) && before <= now && 0 < seen
    ensures LiveOrShort(Incremented(s, b, ttl, now).0, b, seen + 1, ends, now)
    ensures Incremented(s, b, ttl, now).1 == seen + 1 <==> now < ends
  {
  }

  /** Along a run in counting order every bucket is untouched, live and exact, or short. */
  lemma {:induction false} StoreLiveOrShort(hits: seq<Arrival>, window: nat, offset: real, b: Bucket)
    requires 0 < window && hits != [] && InOrder(hits, offset)
    ensures Seen(hits, window, b) == 0 ==> Untouched(StoreAfter(hits, window, offset), b)
    ensures 0 < Seen(hits, window, b) ==>
              LiveOrShort(StoreAfter(hits, window, offset), b, Seen(hits, window, b),
                          FirstAt(hits, window, offset, b) + 2.0 * window as real, CountedAt(Last(hits), offset))
    ensures BucketOf(Last(hits), window) == b ==>
              (CountReturned(hits, window, offset) == Seen(hits, window, b) <==>
               CountedAt(Last(hits), offset) < FirstAt(hits, window, offset, b) + 2.0 * window as real)
  {
    var rest, h := Init(hits), Last(hits);
    var now, ttl := CountedAt(h, offset), 2.0 * window as real;
    var before := if rest == [] then now else CountedAt(Last(rest), offset);
    var s, seen := StoreAfter(rest, window, offset), Seen(rest, window, b);
    if rest != [] {
      assert rest[|rest| - 1] == hits[|hits| - 2];
      StoreLiveOrShort(rest, window, offset, b);
    }
    if BucketOf(h, window) != b {
      var ends := if 0 < seen then FirstAt(rest, window, offset, b) + ttl else 0.0;
      OtherHit(s, BucketOf(h, window), b, ttl, before, now, seen, ends);
    } else if seen == 0 {
      FirstHit(s, b, ttl, now);
    } else {
      NextHit(s, b, ttl, before, now, seen, FirstAt(rest, window, offset, b) + ttl);
    }
  }

  /** In any run counted in clock order, whatever the delays, a hit's count is the number of hits its
      bucket has seen exactly when it is counted within two windows of the bucket's first. */
  lemma CountExactIff(hits: seq<Arrival>, window: nat, offset: real)
    requires 0 < window && hits != [] && InOrder(hits, offset)
    ensures var b := BucketOf(Last(hits), window);
            CountReturned(hits, window, offset) == Seen(hits, window, b) <==>
            CountedAt(Last(hits), offset) < FirstAt(hits, window, offset, b) + 2.0 * window as real
  {
    StoreLiveOrShort(hits, window, offset, BucketOf(Last(hits), window));
  }

  /** The failing case: of two hits in one second of a minute's window, the second, delayed by two
      minutes, is counted as the first. */
  lemma LateHitForgotten()
    ensures var first, second := Arrival("ip:10.0.0.1", 60.0, 0.0), Arrival("ip:10.0.0.1", 61.0, 120.0);
            && BucketOf(first, 60) == BucketOf(second, 60) == Bucket("ip:10.0.0.1", 1)
            && Seen([first, second], 60, BucketOf(second, 60)) == 2
            && CountReturned([first, second], 60, 0.0) != 2
  {
    var first, second := Arrival("ip:10.0.0.1", 60.0, 0.0), Arrival("ip:10.0.0.1", 61.0, 120.0);
    var b := Bucket("ip:10.0.0.1", 1);
    assert (60.0 / 60.0).Floor == 1 && (61.0 / 60.0).Floor == 1;
    assert Init([first, second]) == [first] && Init([first]) == [];
    assert Seen([first], 60, b) == 1;
    assert FirstAt([first, second], 60, 0.0, b) == FirstAt([first], 60, 0.0, b) == 60.0;
    CountExactIff([first, second], 60, 0.0);
  }

  /** Two hits of one window from an empty store, in any order of counting. */
  lemma SecondHitCounted(first: Arrival, second: Arrival, window: nat, offset: real)
    requires 0 < window && BucketOf(first, window) == BucketOf(second, window)
    ensures CountReturned([first, second], window, offset) == 2 <==>
              CountedAt(second, offset) < CountedAt(first, offset) + 2.0 * window as real
  {
    var b := BucketOf(first, window);
    var at := CountedAt(first, offset);
    assert Init([first, second]) == [first] && Init([first]) == [];
    assert StoreAfter([first], window, offset) == Incremented(EMPTY, b, 2.0 * window as real, at).0;
    var s := StoreAfter([first], window, offset);
    assert s.counts == map[b := 1] && s.expiries == map[b := at + 2.0 * window as real];
  }
}
