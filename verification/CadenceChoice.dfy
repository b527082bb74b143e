/** Which resources a reservation gets: the choice that can be admitted earliest. */
module CadenceChoice {
  import opened Basics
  import opened Cadence

  lemma {:induction false} MaxSlackBounds(buckets: seq<Bucket>, h: Horizon, now: Instant)
    ensures forall b | b in buckets :: Slack(b, h, now) <= MaxSlack(buckets, h, now)
    ensures buckets != [] ==> exists b | b in buckets :: Slack(b, h, now) == MaxSlack(buckets, h, now)
  {
    if buckets != [] {
      MaxSlackBounds(buckets[1..], h, now);
      assert buckets[0] in buckets && forall b | b in buckets[1..] :: b in buckets;
      assert forall b | b in buckets :: b == buckets[0] || b in buckets[1..];
    }
  }

  /** `PicksSlack` is the largest slack among the picked buckets and the floor. */
  lemma {:induction false} PicksSlackBounds(pools: seq<Pool>, picks: seq<nat>, floor: int, h: Horizon, now: Instant)
    requires Picks(pools, picks)
    ensures var r := PicksSlack(pools, picks, floor, h, now);
            && floor <= r
            && (forall b | b in PickedBuckets(pools, picks) :: Slack(b, h, now) <= r)
            && (r == floor || r == NO_SLACK || exists b | b in PickedBuckets(pools, picks) :: Slack(b, h, now) == r)
  {
    if pools != [] {
      var buckets := pools[0][picks[0]].buckets;
      MaxSlackBounds(buckets, h, now);
      PicksSlackBounds(pools[1..], picks[1..], Max(floor, MaxSlack(buckets, h, now)), h, now);
    }
  }

  /** `Earliest` is the least instant from `now` on at which no touched bucket holds back. */
  lemma EarliestIsLeast(e: Engine, picks: seq<nat>, h: Horizon, now: Instant)
    requires Picks(e.pools, picks)
    ensures var t := Earliest(e, picks, h, now);
            && now <= t
            && (forall b | b in Touched(e, picks) :: Slack(b, h, t) <= 0)
            && (now < t ==> exists b | b in Touched(e, picks) :: Slack(b, h, t) == 0)
  {
    var t := Earliest(e, picks, h, now);
    MaxSlackBounds(e.shared, h, now);
    PicksSlackBounds(e.pools, picks, MaxSlack(e.shared, h, now), h, now);
    hide MaxSlack, PicksSlack, PickedBuckets;
    assert forall b | b in Touched(e, picks) :: Slack(b, h, t) == Slack(b, h, now) - (t - now);
  }

  // ---- Choice optimality -----------------------------------------------------------------

  /** What a pin allows: any live resource, or the first live one with the pinned key. */
  ghost predicate Eligible(pool: Pool, pin: Pin, i: nat) {
    && i < |pool|
    && match pin
       case Free => pool[i].alive
       case Fixed(key) => Named(pool[i], key) && forall j | 0 <= j < i :: !Named(pool[j], key)
  }

  ghost predicate Unservable(pool: Pool, pin: Pin) {
    forall i: nat :: !Eligible(pool, pin, i)
  }

  ghost predicate Consistent(e: Engine, demand: seq<Pin>, picks: seq<nat>) {
    && |demand| == |e.pools| && Picks(e.pools, picks)
    && forall p | 0 <= p < |e.pools| :: Eligible(e.pools[p], demand[p], picks[p])
  }

  /** Some bucket this choice touches refuses a reservation at `t`. */
  ghost predicate HeldBack(e: Engine, picks: seq<nat>, t: Instant)
    requires Picks(e.pools, picks)
  {
    exists b | b in Touched(e, picks) :: Slack(b, Allocating, t) > 0
  }

  lemma ResolveIsEligible(pool: Pool, pin: Pin, now: Instant)
    ensures var r := Resolve(pool, pin, now);
            && (r.Some? ==> Eligible(pool, pin, r.value)
                            && forall i: nat | Eligible(pool, pin, i) :: Load(pool[r.value], now) <= Load(pool[i], now))
            && (r.None? ==> Unservable(pool, pin))
  {
  }

  lemma {:induction false} PicksSlackMonotone(pools: seq<Pool>, a: seq<nat>, c: seq<nat>, low: int, high: int, now: Instant)
    requires Picks(pools, a) && Picks(pools, c) && low <= high
    requires forall p | 0 <= p < |pools| :: Load(pools[p][a[p]], now) <= Load(pools[p][c[p]], now)
    ensures PicksSlack(pools, a, low, Allocating, now) <= PicksSlack(pools, c, high, Allocating, now)
  {
    if pools != [] {
      PicksSlackMonotone(pools[1..], a[1..], c[1..],
                         Max(low, Load(pools[0][a[0]], now)), Max(high, Load(pools[0][c[0]], now)), now);
    }
  }

  /**
   The peeked choice is consistent with the demand and no consistent combination of
   resources could be admitted at any earlier instant; there is no choice exactly when
   some pool has no eligible resource.
   */
  lemma ChoiceOptimality(e: Engine, demand: seq<Pin>, now: Instant)
    requires |demand| == |e.pools|
    ensures var r := PeekReserve(e, demand, now);
            && (r.None? <==> exists p | 0 <= p < |e.pools| :: Unservable(e.pools[p], demand[p]))
            && (r.Some? ==>
                  && Consistent(e, demand, r.value.picks)
                  && now <= r.value.at && !HeldBack(e, r.value.picks, r.value.at)
                  && forall c, t | Consistent(e, demand, c) && now <= t < r.value.at :: HeldBack(e, c, t))
  {
    var r := PeekReserve(e, demand, now);
    forall p | 0 <= p < |e.pools|
      ensures Resolve(e.pools[p], demand[p], now).None? <==> Unservable(e.pools[p], demand[p])
      ensures r.Some? ==> Eligible(e.pools[p], demand[p], r.value.picks[p])
    {
      ResolveIsEligible(e.pools[p], demand[p], now);
    }
    if r.Some? {
      EarliestIsLeast(e, r.value.picks, Allocating, now);
      forall c, t | Consistent(e, demand, c) && now <= t < r.value.at
        ensures HeldBack(e, c, t)
      {
        NoEarlierChoice(e, demand, now, c, t);
      }
    }
  }

  lemma NoEarlierChoice(e: Engine, demand: seq<Pin>, now: Instant, c: seq<nat>, t: Instant)
    requires Consistent(e, demand, c)
    requires PeekReserve(e, demand, now).Some? && now <= t < PeekReserve(e, demand, now).value.at
    ensures HeldBack(e, c, t)
  {
    var picks := PeekReserve(e, demand, now).value.picks;
    forall p | 0 <= p < |e.pools| ensures Load(e.pools[p][picks[p]], now) <= Load(e.pools[p][c[p]], now) {
      ResolveIsEligible(e.pools[p], demand[p], now);
    }
    var floor := MaxSlack(e.shared, Allocating, now);
    PicksSlackMonotone(e.pools, picks, c, floor, floor, now);
    EarliestIsLeast(e, c, Allocating, now);
    var least := Earliest(e, c, Allocating, now);
    var b :| b in Touched(e, c) && Slack(b, Allocating, least) == 0;
    assert Slack(b, Allocating, t) > 0;
  }

  // ---- Liveness ---------------------------------------------------------------------------------------

  predicate FirstWith(pool: Pool, key: string, i: nat) {
    i < |pool| && pool[i].key == key && forall j | 0 <= j < i :: pool[j].key != key
  }

  /** Exactly the first resource with the key becomes live, or not; nothing else changes. */
  lemma LivenessIsSet(e: Engine, pool: nat, key: string, alive: bool)
    requires pool < |e.pools|
    ensures var u := SetAlive(e, pool, key, alive);
            && u.shared == e.shared && |u.pools| == |e.pools| && |u.pools[pool]| == |e.pools[pool]|
            && (forall p | 0 <= p < |e.pools| && p != pool :: u.pools[p] == e.pools[p])
            && forall i | 0 <= i < |e.pools[pool]| ::
                 var r := e.pools[pool][i];
                 u.pools[pool][i] == r.(alive := if FirstWith(e.pools[pool], key, i) then alive else r.alive)
  {
    var found := FindKey(e.pools[pool], key, 0);
    forall i | 0 <= i < |e.pools[pool]| ensures FirstWith(e.pools[pool], key, i) <==> found == Some(i) {
      if FirstWith(e.pools[pool], key, i) && found.Some? { assert !(found.value < i) && !(i < found.value); }
    }
  }

  /**
   What that means for choices: a resource taken out is never chosen, one that is back is what a
   demand for its key gets, and demands for other keys get what they got.
   */
  lemma LivenessDecides(e: Engine, pool: nat, key: string, alive: bool, pin: Pin, now: Instant, i: nat)
    requires pool < |e.pools| && FirstWith(e.pools[pool], key, i)
    ensures var before, after := e.pools[pool], SetAlive(e, pool, key, alive).pools[pool];
            && (!alive ==> Resolve(after, pin, now) != Some(i))
            && (alive ==> Resolve(after, Fixed(key), now) == Some(i))
            && (pin.Fixed? && pin.key != key ==> Resolve(after, pin, now) == Resolve(before, pin, now))
  {
    LivenessIsSet(e, pool, key, alive);
    hide SetAlive;
    var before, after := e.pools[pool], SetAlive(e, pool, key, alive).pools[pool];
    if alive { assert Named(after[i], key); }
    if pin.Fixed? && pin.key != key {
      assert forall j | 0 <= j < |before| :: Named(after[j], pin.key) <==> Named(before[j], pin.key);
      FirstNamed(before, after, pin.key);
    }
  }

  /** The same resources bear the name, so the first one that does is the same. */
  lemma FirstNamed(before: Pool, after: Pool, key: string)
    requires |before| == |after| && forall j | 0 <= j < |before| :: Named(after[j], key) <==> Named(before[j], key)
    ensures Position(after, key, 0) == Position(before, key, 0)
  {
    var a, b := Position(after, key, 0), Position(before, key, 0);
    if a.Some? && b.Some? { assert !(a.value < b.value) && !(b.value < a.value); }
  }
}
