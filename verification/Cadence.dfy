/**
 The quota engine as values: GCRA buckets with an allocation and a commit horizon,
 resources that carry several, pools to choose a resource from. Instants and durations
 are integer nanoseconds.
 */
module Cadence {
  import opened Basics

  type Instant = int

  /** What `max()` over no bucket at all yields. */
  const NO_SLACK := -0x8000_0000_0000_0000_0000_0000_0000_0000

  datatype Bucket = Bucket(name: string, interval: nat, tolerance: nat, tat: Instant, rtat: Instant)

  /** Reservations are judged on the allocation horizon `rtat`, commits on `tat`. */
  datatype Horizon = Allocating | Committing

  datatype Resource = Resource(key: string, alive: bool, buckets: seq<Bucket>)

  type Pool = seq<Resource>

  datatype Engine = Engine(shared: seq<Bucket>, pools: seq<Pool>)

  datatype Pin = Fixed(key: string) | Free

  // ---- One bucket ---------------------------------------------------------------------

  function EffectiveCapacity(capacity: nat, safety: nat): nat {
    Max(Max(capacity - safety, 0), 1)
  }

  function NewBucket(name: string, capacity: nat, interval: nat, safety: nat, now: Instant): Bucket {
    Bucket(name, interval, interval * (EffectiveCapacity(capacity, safety) - 1), now, now)
  }

  /** A bucket as `NewBucket` shapes it: its tolerance is a whole number of intervals. */
  predicate WellFormed(b: Bucket) {
    b.interval > 0 && b.tolerance % b.interval == 0
  }

  function CapacityOf(b: Bucket): nat
    requires b.interval > 0
  {
    b.tolerance / b.interval + 1
  }

  function At(b: Bucket, h: Horizon): Instant {
    if h.Allocating? then b.rtat else b.tat
  }

  function Slack(b: Bucket, h: Horizon, now: Instant): int {
    At(b, h) - now - b.tolerance
  }

  function AdvanceReserve(b: Bucket, t: Instant): Bucket {
    b.(rtat := Max(b.rtat, t) + b.interval)
  }

  function ReleaseReserve(b: Bucket): Bucket {
    b.(rtat := Max(b.rtat - b.interval, b.tat))
  }

  function AdvanceCommit(b: Bucket, t: Instant): Bucket {
    var tat := Max(b.tat, t) + b.interval;
    b.(tat := tat, rtat := Max(b.rtat, tat))
  }

  /** Tokens in use according to a rate-limit header. */
  function Debt(remaining: nat, capacity: nat): nat {
    Max(Max(capacity, 1) - remaining, 0)
  }

  function Reconcile(b: Bucket, remaining: nat, capacity: nat, now: Instant): Bucket {
    var tat := Max(b.tat, now + b.interval * Debt(remaining, capacity));
    b.(tat := tat, rtat := Max(b.rtat, tat))
  }

  // ---- Choosing resources --------------------------------------------------------------

  /** The most constraining bucket decides. */
  function MaxSlack(buckets: seq<Bucket>, h: Horizon, now: Instant): int {
    if buckets == [] then NO_SLACK
    else if |buckets| == 1 then Slack(buckets[0], h, now)
    else Max(Slack(buckets[0], h, now), MaxSlack(buckets[1..], h, now))
  }

  predicate Named(r: Resource, key: string) {
    r.alive && r.key == key
  }

  /** First live resource with this key at or after `from`. */
  function Position(pool: Pool, key: string, from: nat): (r: Option<nat>)
    requires from <= |pool|
    ensures r.Some? ==> from <= r.value < |pool| && Named(pool[r.value], key)
                        && forall i | from <= i < r.value :: !Named(pool[i], key)
    ensures r.None? ==> forall i | from <= i < |pool| :: !Named(pool[i], key)
    decreases |pool| - from
  {
    if from == |pool| then None
    else if Named(pool[from], key) then Some(from)
    else Position(pool, key, from + 1)
  }

  function Load(r: Resource, now: Instant): int {
    MaxSlack(r.buckets, Allocating, now)
  }

  /** First live resource at or after `from` with the least allocation slack. */
  function MostRested(pool: Pool, now: Instant, from: nat): (r: Option<nat>)
    requires from <= |pool|
    ensures r.Some? ==>
              && from <= r.value < |pool| && pool[r.value].alive
              && (forall i | from <= i < |pool| && pool[i].alive :: Load(pool[r.value], now) <= Load(pool[i], now))
              && (forall i | from <= i < r.value && pool[i].alive :: Load(pool[r.value], now) < Load(pool[i], now))
    ensures r.None? ==> forall i | from <= i < |pool| :: !pool[i].alive
    decreases |pool| - from
  {
    if from == |pool| then None
    else
      var later := MostRested(pool, now, from + 1);
      if pool[from].alive && (later.None? || Load(pool[from], now) <= Load(pool[later.value], now)) then Some(from)
      else later
  }

  function Resolve(pool: Pool, pin: Pin, now: Instant): (r: Option<nat>)
    ensures r.Some? ==> r.value < |pool|
  {
    match pin
    case Fixed(key) => Position(pool, key, 0)
    case Free => MostRested(pool, now, 0)
  }

  /** One resource index for each of these pools. */
  predicate Picks(pools: seq<Pool>, picks: seq<nat>) {
    |picks| == |pools| && forall p | 0 <= p < |pools| :: picks[p] < |pools[p]|
  }

  function ResolveAll(pools: seq<Pool>, demand: seq<Pin>, now: Instant): (r: Option<seq<nat>>)
    requires |demand| == |pools|
    ensures r.Some? ==> Picks(pools, r.value)
    ensures r.Some? ==> forall p | 0 <= p < |pools| :: Resolve(pools[p], demand[p], now) == Some(r.value[p])
    ensures r.None? ==> exists p | 0 <= p < |pools| :: Resolve(pools[p], demand[p], now).None?
  {
    if pools == [] then Some([])
    else
      var head := Resolve(pools[0], demand[0], now);
      var tail := ResolveAll(pools[1..], demand[1..], now);
      if head.None? then None
      else if tail.None? then
        assert forall p | 0 <= p < |pools[1..]| :: pools[1..][p] == pools[p + 1] && demand[1..][p] == demand[p + 1];
        None
      else Some([head.value] + tail.value)
  }

  /** The private buckets of the picked resources, pool by pool. */
  function PickedBuckets(pools: seq<Pool>, picks: seq<nat>): seq<Bucket>
    requires Picks(pools, picks)
  {
    if pools == [] then [] else pools[0][picks[0]].buckets + PickedBuckets(pools[1..], picks[1..])
  }

  /** Every bucket a reservation with these picks touches. */
  function Touched(e: Engine, picks: seq<nat>): seq<Bucket>
    requires Picks(e.pools, picks)
  {
    e.shared + PickedBuckets(e.pools, picks)
  }

  /** `floor` raised by the slack of every picked resource. */
  function PicksSlack(pools: seq<Pool>, picks: seq<nat>, floor: int, h: Horizon, now: Instant): int
    requires Picks(pools, picks)
  {
    if pools == [] then floor
    else PicksSlack(pools[1..], picks[1..], Max(floor, MaxSlack(pools[0][picks[0]].buckets, h, now)), h, now)
  }

  /** When the slot could next be used, judged on horizon `h`. */
  function Earliest(e: Engine, picks: seq<nat>, h: Horizon, now: Instant): Instant
    requires Picks(e.pools, picks)
  {
    now + Max(PicksSlack(e.pools, picks, MaxSlack(e.shared, h, now), h, now), 0)
  }

  /** A peeked reservation: the resources chosen and when it could be admitted. */
  datatype Peek = Peek(picks: seq<nat>, at: Instant)

  function PeekReserve(e: Engine, demand: seq<Pin>, now: Instant): (r: Option<Peek>)
    requires |demand| == |e.pools|
    ensures r.Some? ==> Picks(e.pools, r.value.picks)
  {
    var picks := ResolveAll(e.pools, demand, now);
    if picks.None? then None else Some(Peek(picks.value, Earliest(e, picks.value, Allocating, now)))
  }

  // ---- Changing the touched buckets ---------------------------------------------------------

  function MapBuckets(buckets: seq<Bucket>, change: Bucket -> Bucket): (r: seq<Bucket>)
    ensures |r| == |buckets|
  {
    seq(|buckets|, i requires 0 <= i < |buckets| => change(buckets[i]))
  }

  function ChangePool(pool: Pool, pick: nat, change: Bucket -> Bucket): (r: Pool)
    requires pick < |pool|
    ensures |r| == |pool|
  {
    pool[pick := pool[pick].(buckets := MapBuckets(pool[pick].buckets, change))]
  }

  /** Applies `change` to every shared bucket and to every bucket of the picked resources. */
  function ChangeTouched(e: Engine, picks: seq<nat>, change: Bucket -> Bucket): (r: Engine)
    requires Picks(e.pools, picks)
  {
    Engine(MapBuckets(e.shared, change),
           seq(|e.pools|, p requires 0 <= p < |e.pools| => ChangePool(e.pools[p], picks[p], change)))
  }

  function Admit(e: Engine, picks: seq<nat>, at: Instant): Engine
    requires Picks(e.pools, picks)
  {
    ChangeTouched(e, picks, b => AdvanceReserve(b, at))
  }

  function DoCommit(e: Engine, picks: seq<nat>, at: Instant): Engine
    requires Picks(e.pools, picks)
  {
    ChangeTouched(e, picks, b => AdvanceCommit(b, at))
  }

  function Release(e: Engine, picks: seq<nat>): Engine
    requires Picks(e.pools, picks)
  {
    ChangeTouched(e, picks, b => ReleaseReserve(b))
  }

  // ---- Headers and liveness ------------------------------------------------------------------

  /** First resource with this key, alive or not, at or after `from`. */
  function FindKey(pool: Pool, key: string, from: nat): (r: Option<nat>)
    requires from <= |pool|
    ensures r.Some? ==> from <= r.value < |pool| && pool[r.value].key == key
                        && forall i | from <= i < r.value :: pool[i].key != key
    ensures r.None? ==> forall i | from <= i < |pool| :: pool[i].key != key
    decreases |pool| - from
  {
    if from == |pool| then None
    else if pool[from].key == key then Some(from)
    else FindKey(pool, key, from + 1)
  }

  /** A header re-anchors the buckets with this label of the resource it names. */
  function ReconcileEngine(e: Engine, pool: nat, key: string, name: string, remaining: nat, capacity: nat, now: Instant): Engine
    requires pool < |e.pools|
  {
    var found := FindKey(e.pools[pool], key, 0);
    if found.None? then e
    else
      var change := (b: Bucket) => if b.name == name then Reconcile(b, remaining, capacity, now) else b;
      e.(pools := e.pools[pool := ChangePool(e.pools[pool], found.value, change)])
  }

  function SetAlive(e: Engine, pool: nat, key: string, alive: bool): Engine
    requires pool < |e.pools|
  {
    var found := FindKey(e.pools[pool], key, 0);
    if found.None? then e
    else
      var resources := e.pools[pool];
      e.(pools := e.pools[pool := resources[found.value := resources[found.value].(alive := alive)]])
  }
}
