/**
 The quota engine and its shared handle as objects updated in place, each operation proved
 against the value-level engine of `Cadence` and the atomic steps of `CadenceRuns`.
 */
module QuotaEngines {
  import opened Basics
  import opened Cadence
  import Pace = CadencePace
  import Runs = CadenceRuns

  datatype Allocation = Allocation(sendAt: Instant, picks: seq<string>)

  /** Folding one more resource into the running maximum. */
  lemma {:induction false} PicksSlackSnoc(pools: seq<Pool>, picks: seq<nat>, pool: Pool, pick: nat,
                                          floor: int, h: Horizon, now: Instant)
    requires Picks(pools, picks) && pick < |pool|
    ensures Picks(pools + [pool], picks + [pick])
    ensures PicksSlack(pools + [pool], picks + [pick], floor, h, now)
         == Max(PicksSlack(pools, picks, floor, h, now), MaxSlack(pool[pick].buckets, h, now))
  {
    if pools == [] {
      assert pools + [pool] == [pool] && picks + [pick] == [pick];
    } else {
      assert (pools + [pool])[1..] == pools[1..] + [pool] && (picks + [pick])[1..] == picks[1..] + [pick];
      PicksSlackSnoc(pools[1..], picks[1..], pool, pick, Max(floor, MaxSlack(pools[0][picks[0]].buckets, h, now)), h, now);
    }
  }

  lemma {:induction false} MaxSlackSnoc(buckets: seq<Bucket>, b: Bucket, h: Horizon, now: Instant)
    requires buckets != []
    ensures MaxSlack(buckets + [b], h, now) == Max(MaxSlack(buckets, h, now), Slack(b, h, now))
  {
    assert (buckets + [b])[1..] == buckets[1..] + [b];
    if |buckets| > 1 { MaxSlackSnoc(buckets[1..], b, h, now); }
  }

  /** `max()` over the slacks, the lowest value when there is no bucket. */
  method MaxSlackOf(buckets: seq<Bucket>, h: Horizon, now: Instant) returns (worst: int)
    ensures worst == MaxSlack(buckets, h, now)
  {
    if buckets == [] { return NO_SLACK; }
    worst := Slack(buckets[0], h, now);
    for i := 1 to |buckets|
      invariant worst == MaxSlack(buckets[..i], h, now)
    {
      assert buckets[..i + 1] == buckets[..i] + [buckets[i]];
      MaxSlackSnoc(buckets[..i], buckets[i], h, now);
      worst := Max(worst, Slack(buckets[i], h, now));
    }
    assert buckets[..|buckets|] == buckets;
  }

  /** `min_by_key` over the live resources: the first of the least loaded. */
  method ResolveFree(pool: Pool, now: Instant) returns (best: Option<nat>)
    ensures best == MostRested(pool, now, 0)
  {
    best := None;
    var least := 0;
    for i := 0 to |pool|
      invariant best.Some? ==> best.value < i && pool[best.value].alive && least == Load(pool[best.value], now)
      invariant best.Some? ==> forall j | 0 <= j < i && pool[j].alive :: least <= Load(pool[j], now)
      invariant best.Some? ==> forall j | 0 <= j < best.value && pool[j].alive :: least < Load(pool[j], now)
      invariant best.None? ==> forall j | 0 <= j < i :: !pool[j].alive
    {
      if pool[i].alive {
        var load := MaxSlackOf(pool[i].buckets, Allocating, now);
        if best.None? || load < least { best, least := Some(i), load; }
      }
    }
    RestedIsUnique(pool, now, best);
  }

  /** The first of the least loaded resources is determined by what it is. */
  lemma RestedIsUnique(pool: Pool, now: Instant, best: Option<nat>)
    requires best.Some? ==>
               && best.value < |pool| && pool[best.value].alive
               && (forall j | 0 <= j < |pool| && pool[j].alive :: Load(pool[best.value], now) <= Load(pool[j], now))
               && (forall j | 0 <= j < best.value && pool[j].alive :: Load(pool[best.value], now) < Load(pool[j], now))
    requires best.None? ==> forall j | 0 <= j < |pool| :: !pool[j].alive
    ensures best == MostRested(pool, now, 0)
  {
    hide Load;
    var other := MostRested(pool, now, 0);
    if best.Some? { assert pool[best.value].alive; }
  }

  method ResolveFixed(pool: Pool, key: string) returns (at: Option<nat>)
    ensures at == Position(pool, key, 0)
  {
    for i := 0 to |pool|
      invariant Position(pool, key, 0) == Position(pool, key, i)
    {
      if pool[i].alive && pool[i].key == key { return Some(i); }
    }
    return None;
  }

  method ResolvePin(pool: Pool, pin: Pin, now: Instant) returns (at: Option<nat>)
    ensures at == Resolve(pool, pin, now)
  {
    match pin
    case Fixed(key) => at := ResolveFixed(pool, key);
    case Free => at := ResolveFree(pool, now);
  }

  /** `iter_mut` over a list of buckets. */
  method ChangeAll(buckets: seq<Bucket>, change: Bucket -> Bucket) returns (changed: seq<Bucket>)
    ensures changed == MapBuckets(buckets, change)
  {
    changed := buckets;
    for i := 0 to |buckets|
      invariant |changed| == |buckets|
      invariant forall j | 0 <= j < i :: changed[j] == change(buckets[j])
      invariant forall j | i <= j < |buckets| :: changed[j] == buckets[j]
    {
      changed := changed[i := change(changed[i])];
    }
  }

  /** Picks already made, followed by the outcome for the pools that remain. */
  ghost function After(picks: seq<nat>, rest: Option<seq<nat>>): Option<seq<nat>> {
    if rest.None? then None else Some(picks + rest.value)
  }

  lemma ResolveStart(pools: seq<Pool>, demand: seq<Pin>, now: Instant)
    requires |demand| == |pools|
    ensures ResolveAll(pools, demand, now) == After([], ResolveAll(pools[0..], demand[0..], now))
  {
    hide ResolveAll;
    assert pools[0..] == pools && demand[0..] == demand;
    var all := ResolveAll(pools, demand, now);
    if all.Some? { assert [] + all.value == all.value; }
  }

  lemma ResolveEnd(pools: seq<Pool>, demand: seq<Pin>, picks: seq<nat>, now: Instant)
    requires |demand| == |pools|
    ensures After(picks, ResolveAll(pools[|pools|..], demand[|pools|..], now)) == Some(picks)
  {
    assert picks + [] == picks;
  }

  lemma ResolveNext(pools: seq<Pool>, demand: seq<Pin>, i: nat, picks: seq<nat>, now: Instant)
    requires |demand| == |pools| && i < |pools|
    ensures Resolve(pools[i], demand[i], now).None? ==> After(picks, ResolveAll(pools[i..], demand[i..], now)).None?
    ensures Resolve(pools[i], demand[i], now).Some? ==>
              var picked := picks + [Resolve(pools[i], demand[i], now).value];
              After(picks, ResolveAll(pools[i..], demand[i..], now)) == After(picked, ResolveAll(pools[i + 1..], demand[i + 1..], now))
  {
    hide Resolve;
    assert pools[i..][1..] == pools[i + 1..] && demand[i..][1..] == demand[i + 1..];
    var pick, rest := Resolve(pools[i], demand[i], now), ResolveAll(pools[i + 1..], demand[i + 1..], now);
    if pick.Some? && rest.Some? { assert picks + ([pick.value] + rest.value) == (picks + [pick.value]) + rest.value; }
  }

  lemma PicksSlackEmpty(floor: int, h: Horizon, now: Instant)
    ensures PicksSlack([], [], floor, h, now) == floor
  {
  }

  /** The keys of the picked resources, aligned to pool order. */
  function KeysOf(pools: seq<Pool>, picks: seq<nat>): seq<string>
    requires Picks(pools, picks)
  {
    seq(|picks|, i requires 0 <= i < |picks| => pools[i][picks[i]].key)
  }

  class QuotaEngine {
    var shared: seq<Bucket>
    var pools: seq<Pool>

    ghost function State(): Engine
      reads this
    {
      Engine(shared, pools)
    }

    constructor (shared: seq<Bucket>, pools: seq<Pool>)
      ensures State() == Engine(shared, pools)
    {
      this.shared := shared;
      this.pools := pools;
    }

    /** Chooses a resource per pool and computes the earliest admission, changing nothing. */
    method PeekReserve(demand: seq<Pin>, now: Instant) returns (peek: Option<Peek>)
      requires |demand| == |pools|
      ensures peek == Cadence.PeekReserve(State(), demand, now)
    {
      hide Resolve, MaxSlack, ResolveAll, PicksSlack, After;
      var floor := MaxSlackOf(shared, Allocating, now);
      var overall := floor;
      var picks: seq<nat> := [];
      ResolveStart(pools, demand, now);
      PicksSlackEmpty(floor, Allocating, now);
      for i := 0 to |pools|
        invariant Picks(pools[..i], picks)
        invariant overall == PicksSlack(pools[..i], picks, floor, Allocating, now)
        invariant ResolveAll(pools, demand, now) == After(picks, ResolveAll(pools[i..], demand[i..], now))
      {
        assert pools[..i + 1] == pools[..i] + [pools[i]];
        var pick := ResolvePin(pools[i], demand[i], now);
        ResolveNext(pools, demand, i, picks, now);
        if pick.None? { return None; }
        PicksSlackSnoc(pools[..i], picks, pools[i], pick.value, floor, Allocating, now);
        var slack := MaxSlackOf(pools[i][pick.value].buckets, Allocating, now);
        overall := Max(overall, slack);
        picks := picks + [pick.value];
      }
      assert pools[..|pools|] == pools;
      ResolveEnd(pools, demand, picks, now);
      return Some(Peek(picks, now + Max(overall, 0)));
    }

    /** The commit gate, read from the live commit horizons. */
    method EarliestCommit(picks: seq<nat>, now: Instant) returns (at: Instant)
      requires Picks(pools, picks)
      ensures at == Earliest(State(), picks, Committing, now)
    {
      hide MaxSlack;
      var floor := MaxSlackOf(shared, Committing, now);
      var overall := floor;
      for i := 0 to |pools|
        invariant overall == PicksSlack(pools[..i], picks[..i], floor, Committing, now)
      {
        assert pools[..i + 1] == pools[..i] + [pools[i]] && picks[..i + 1] == picks[..i] + [picks[i]];
        PicksSlackSnoc(pools[..i], picks[..i], pools[i], picks[i], floor, Committing, now);
        var slack := MaxSlackOf(pools[i][picks[i]].buckets, Committing, now);
        overall := Max(overall, slack);
      }
      assert pools[..|pools|] == pools && picks[..|pools|] == picks;
      return now + Max(overall, 0);
    }

    /** Changes every shared bucket and every bucket of the picked resources, in place. */
    method ChangeEvery(picks: seq<nat>, change: Bucket -> Bucket)
      requires Picks(pools, picks)
      modifies this
      ensures State() == ChangeTouched(old(State()), picks, change)
    {
      shared := ChangeAll(shared, change);
      for i := 0 to |pools|
        invariant |pools| == |old(pools)| && shared == MapBuckets(old(shared), change)
        invariant forall j | 0 <= j < i :: pools[j] == ChangePool(old(pools)[j], picks[j], change)
        invariant forall j | i <= j < |pools| :: pools[j] == old(pools)[j]
      {
        var buckets := ChangeAll(pools[i][picks[i]].buckets, change);
        pools := pools[i := pools[i][picks[i] := pools[i][picks[i]].(buckets := buckets)]];
      }
    }

    /** Advances the allocation horizons and returns the keys chosen. */
    method Admit(picks: seq<nat>, at: Instant) returns (keys: seq<string>)
      requires Picks(pools, picks)
      modifies this
      ensures State() == Cadence.Admit(old(State()), picks, at)
      ensures keys == KeysOf(old(pools), picks)
    {
      keys := KeysOf(pools, picks);
      ChangeEvery(picks, b => AdvanceReserve(b, at));
    }

    method DoCommit(picks: seq<nat>, at: Instant)
      requires Picks(pools, picks)
      modifies this
      ensures State() == Cadence.DoCommit(old(State()), picks, at)
    {
      ChangeEvery(picks, b => AdvanceCommit(b, at));
    }

    method Release(picks: seq<nat>)
      requires Picks(pools, picks)
      modifies this
      ensures State() == Cadence.Release(old(State()), picks)
    {
      ChangeEvery(picks, b => ReleaseReserve(b));
    }

    /** Admits at once; nothing changes when some pool has no resource to offer. */
    method Claim(demand: seq<Pin>, now: Instant) returns (r: Option<Allocation>)
      requires |demand| == |pools|
      modifies this
      ensures var claimed := Pace.Claim(old(State()), demand, now);
              && (r.Some? <==> claimed.Some?)
              && (r.None? ==> State() == old(State()))
              && (r.Some? ==> State() == claimed.value.engine && r.value.sendAt == claimed.value.at)
      ensures r.Some? ==> r.value.picks == KeysOf(old(pools), Cadence.PeekReserve(old(State()), demand, now).value.picks)
    {
      var peek := PeekReserve(demand, now);
      if peek.None? { return None; }
      var keys := Admit(peek.value.picks, peek.value.at);
      return Some(Allocation(peek.value.at, keys));
    }

    method FindResource(pool: nat, key: string) returns (at: Option<nat>)
      requires pool < |pools|
      ensures at == FindKey(pools[pool], key, 0)
    {
      for i := 0 to |pools[pool]|
        invariant FindKey(pools[pool], key, 0) == FindKey(pools[pool], key, i)
      {
        if pools[pool][i].key == key { return Some(i); }
      }
      return None;
    }

    method Reconcile(pool: nat, key: string, name: string, remaining: nat, capacity: nat, now: Instant)
      requires pool < |pools|
      modifies this
      ensures State() == ReconcileEngine(old(State()), pool, key, name, remaining, capacity, now)
    {
      var found := FindResource(pool, key);
      if found.Some? {
        var r := pools[pool][found.value];
        var change := (b: Bucket) => if b.name == name then Cadence.Reconcile(b, remaining, capacity, now) else b;
        var buckets := ChangeAll(r.buckets, change);
        pools := pools[pool := pools[pool][found.value := r.(buckets := buckets)]];
      }
    }

    method SetAlive(pool: nat, key: string, alive: bool)
      requires pool < |pools|
      modifies this
      ensures State() == Cadence.SetAlive(old(State()), pool, key, alive)
    {
      var found := FindResource(pool, key);
      if found.Some? {
        pools := pools[pool := pools[pool][found.value := pools[pool][found.value].(alive := alive)]];
      }
    }
  }

  /** A held permit; dropping it without a commit gives its headroom back. */
  class Permit {
    const picks: seq<string>
    const expiresAt: Instant
    const indices: seq<nat>
    var done: bool

    constructor (picks: seq<string>, expiresAt: Instant, indices: seq<nat>)
      ensures this.picks == picks && this.expiresAt == expiresAt && this.indices == indices && !done
    {
      this.picks, this.expiresAt, this.indices := picks, expiresAt, indices;
      done := false;
    }
  }

  ghost function PermitValues(permits: seq<Permit>): (r: seq<Runs.Reservation>)
    reads permits
    ensures |r| == |permits|
    ensures forall i | 0 <= i < |r| :: r[i] == Runs.Reservation(permits[i].indices, permits[i].done)
  {
    if permits == [] then []
    else
      var last := permits[|permits| - 1];
      PermitValues(permits[..|permits| - 1]) + [Runs.Reservation(last.indices, last.done)]
  }

  class QuotaHandle {
    const engine: QuotaEngine
    /** Every permit ever handed out, in order. */
    ghost var permits: seq<Permit>

    ghost function State(): Runs.Handle
      reads this, engine, permits
    {
      Runs.Handle(engine.State(), PermitValues(permits))
    }

    ghost predicate Valid()
      reads this, engine, permits
    {
      && (forall i, j | 0 <= i < j < |permits| :: permits[i] != permits[j])
      && (forall i | 0 <= i < |permits| :: Picks(engine.pools, permits[i].indices))
    }

    constructor (engine: QuotaEngine)
      ensures this.engine == engine && Valid() && State() == Runs.Handle(engine.State(), [])
    {
      this.engine := engine;
      permits := [];
    }

    method HandOut(keys: seq<string>, expiresAt: Instant, indices: seq<nat>) returns (permit: Permit)
      requires Valid() && Picks(engine.pools, indices)
      modifies this
      ensures Valid() && fresh(permit) && permits == old(permits) + [permit]
      ensures !permit.done && permit.picks == keys && permit.indices == indices && permit.expiresAt == expiresAt
      ensures PermitValues(permits) == old(PermitValues(permits)) + [Runs.Reservation(indices, false)]
    {
      hide Picks;
      permit := new Permit(keys, expiresAt, indices);
      permits := permits + [permit];
      assert PermitValues(permits) == old(PermitValues(permits)) + [Runs.Reservation(indices, false)];
    }

    method MarkDone(permit: Permit, ghost index: nat)
      requires Valid() && index < |permits| && permits[index] == permit
      modifies permit
      ensures Valid() && permit.done
      ensures PermitValues(permits) == old(PermitValues(permits))[index := Runs.Reservation(permit.indices, true)]
    {
      hide Picks;
      permit.done := true;
      assert PermitValues(permits) == old(PermitValues(permits))[index := Runs.Reservation(permit.indices, true)];
    }

    /** Phase 1. Refusal, for want of a resource or of time, leaves everything as it was. */
    method Reserve(demand: seq<Pin>, deadline: Instant, validity: nat, now: Instant) returns (r: Option<Permit>)
      requires Valid() && |demand| == |engine.pools|
      modifies this, engine
      ensures Valid() && State() == Runs.Apply(old(State()), Runs.Reserve(demand, deadline, now))
      ensures r.None? ==> State() == old(State()) && permits == old(permits)
      ensures r.Some? ==>
                && fresh(r.value) && permits == old(permits) + [r.value] && !r.value.done
                && var slot := Runs.Admissible(old(engine.State()), demand, deadline, now);
                   slot.Some? && slot.value.at <= deadline
                   && r.value.picks == KeysOf(old(engine.pools), slot.value.picks) && r.value.indices == slot.value.picks
                   && r.value.expiresAt == Max(now, slot.value.at) + validity
    {
      hide ChangeTouched, Cadence.PeekReserve, Picks, PermitValues;
      var peek := engine.PeekReserve(demand, now);
      if peek.None? || peek.value.at > deadline { return None; }
      var keys := engine.Admit(peek.value.picks, peek.value.at);
      TouchedKeepsPicks(old(engine.State()), peek.value.picks, b => AdvanceReserve(b, peek.value.at));
      var permit := HandOut(keys, Max(now, peek.value.at) + validity, peek.value.picks);
      return Some(permit);
    }

    /**
     One turn of the commit loop. Either the commit is spent at `now`, or the caller sleeps
     until `target` and takes another turn.
     */
    method TryCommit(permit: Permit, ghost index: nat, now: Instant) returns (committed: bool, target: Instant)
      requires Valid() && index < |permits| && permits[index] == permit
      modifies engine, permit
      ensures Valid() && State() == Runs.Apply(old(State()), Runs.TryCommit(index, now))
      ensures committed == Runs.MayCommit(old(engine.State()), permit.indices, now)
      ensures committed ==> permit.done
      ensures !committed ==> State() == old(State()) && now < target
                             && target == Earliest(engine.State(), permit.indices, Committing, now)
    {
      hide ChangeTouched, Earliest, Picks, PermitValues;
      var earliest := engine.EarliestCommit(permit.indices, now);
      if earliest > now { return false, earliest; }
      engine.DoCommit(permit.indices, now);
      TouchedKeepsPicks(old(engine.State()), permit.indices, b => AdvanceCommit(b, now));
      MarkDone(permit, index);
      return true, now;
    }

    /** `release`, and what dropping the permit does. */
    method Release(permit: Permit, ghost index: nat)
      requires Valid() && index < |permits| && permits[index] == permit
      modifies engine, permit
      ensures Valid() && permit.done && State() == Runs.Apply(old(State()), Runs.GiveBack(index))
    {
      hide ChangeTouched, Picks, PermitValues;
      if !permit.done {
        engine.Release(permit.indices);
        TouchedKeepsPicks(old(engine.State()), permit.indices, b => ReleaseReserve(b));
        MarkDone(permit, index);
      }
    }

    method Update(pool: nat, key: string, name: string, remaining: nat, capacity: nat, now: Instant)
      requires Valid() && pool < |engine.pools|
      modifies engine
      ensures Valid() && State() == Runs.Apply(old(State()), Runs.Update(pool, key, name, remaining, capacity, now))
    {
      engine.Reconcile(pool, key, name, remaining, capacity, now);
    }

    method SetAlive(pool: nat, key: string, alive: bool)
      requires Valid() && pool < |engine.pools|
      modifies engine
      ensures Valid() && State() == Runs.Apply(old(State()), Runs.SetLive(pool, key, alive))
    {
      engine.SetAlive(pool, key, alive);
    }
  }

  lemma TouchedKeepsPicks(e: Engine, picks: seq<nat>, change: Bucket -> Bucket)
    requires Picks(e.pools, picks)
    ensures forall other: seq<nat> :: Picks(ChangeTouched(e, picks, change).pools, other) <==> Picks(e.pools, other)
  {
  }
}
