/**
 Admissions do not look at commit horizons, so that commits in time are invisible to them: the same
 reservations are handed the same instants with and without the commits in between.
 */
module CadenceBlind {
  import opened Basics
  import opened Cadence
  import opened CadenceChoice
  import opened CadenceRuns
  import opened CadenceCommits

  // ---- Engines without their commit horizons ----------------------------------------------------

  function Blind(b: Bucket): Bucket {
    b.(tat := 0)
  }

  function BlindAll(buckets: seq<Bucket>): seq<Bucket> {
    MapBuckets(buckets, b => Blind(b))
  }

  function BlindPool(pool: Pool): Pool {
    seq(|pool|, i requires 0 <= i < |pool| => pool[i].(buckets := BlindAll(pool[i].buckets)))
  }

  function BlindPools(pools: seq<Pool>): seq<Pool> {
    seq(|pools|, p requires 0 <= p < |pools| => BlindPool(pools[p]))
  }

  function BlindEngine(e: Engine): Engine {
    Engine(BlindAll(e.shared), BlindPools(e.pools))
  }

  lemma {:induction false} SameSlack(buckets: seq<Bucket>, now: Instant)
    ensures MaxSlack(BlindAll(buckets), Allocating, now) == MaxSlack(buckets, Allocating, now)
  {
    if |buckets| > 1 {
      SameSlack(buckets[1..], now);
      assert BlindAll(buckets)[1..] == BlindAll(buckets[1..]);
    }
  }

  lemma {:induction false} SamePosition(pool: Pool, key: string, from: nat)
    requires from <= |pool|
    ensures Position(BlindPool(pool), key, from) == Position(pool, key, from)
    decreases |pool| - from
  {
    if from < |pool| && !Named(pool[from], key) { SamePosition(pool, key, from + 1); }
  }

  lemma {:induction false} SameRested(pool: Pool, now: Instant, from: nat)
    requires from <= |pool|
    ensures MostRested(BlindPool(pool), now, from) == MostRested(pool, now, from)
    decreases |pool| - from
  {
    if from < |pool| {
      SameRested(pool, now, from + 1);
      SameSlack(pool[from].buckets, now);
      var later := MostRested(pool, now, from + 1);
      if later.Some? { SameSlack(pool[later.value].buckets, now); }
    }
  }

  lemma {:induction false} SameResolve(pools: seq<Pool>, demand: seq<Pin>, now: Instant)
    requires |demand| == |pools|
    ensures ResolveAll(BlindPools(pools), demand, now) == ResolveAll(pools, demand, now)
  {
    if pools != [] {
      SameResolve(pools[1..], demand[1..], now);
      assert BlindPools(pools)[1..] == BlindPools(pools[1..]);
      match demand[0]
      case Fixed(key) => SamePosition(pools[0], key, 0);
      case Free => SameRested(pools[0], now, 0);
    }
  }

  lemma {:induction false} SamePicksSlack(pools: seq<Pool>, picks: seq<nat>, floor: int, now: Instant)
    requires Picks(pools, picks)
    ensures Picks(BlindPools(pools), picks)
    ensures PicksSlack(BlindPools(pools), picks, floor, Allocating, now) == PicksSlack(pools, picks, floor, Allocating, now)
  {
    if pools != [] {
      SameSlack(pools[0][picks[0]].buckets, now);
      SamePicksSlack(pools[1..], picks[1..], Max(floor, MaxSlack(pools[0][picks[0]].buckets, Allocating, now)), now);
      assert BlindPools(pools)[1..] == BlindPools(pools[1..]);
    }
  }

  /** A peek sees allocation horizons only. */
  lemma SamePeek(e: Engine, demand: seq<Pin>, now: Instant)
    requires |demand| == |e.pools|
    ensures PeekReserve(BlindEngine(e), demand, now) == PeekReserve(e, demand, now)
  {
    SameResolve(e.pools, demand, now);
    SameSlack(e.shared, now);
    var picks := ResolveAll(e.pools, demand, now);
    if picks.Some? { SamePicksSlack(e.pools, picks.value, MaxSlack(e.shared, Allocating, now), now); }
  }

  lemma SamePicks(e: Engine, picks: seq<nat>)
    ensures Picks(BlindEngine(e).pools, picks) <==> Picks(e.pools, picks)
  {
    assert forall p | 0 <= p < |e.pools| :: |BlindEngine(e).pools[p]| == |e.pools[p]|;
  }

  lemma BlindAdmitBuckets(buckets: seq<Bucket>, t: Instant)
    ensures BlindAll(MapBuckets(buckets, b => AdvanceReserve(b, t))) == MapBuckets(BlindAll(buckets), b => AdvanceReserve(b, t))
  {
  }

  lemma BlindAdmitPool(pool: Pool, pick: nat, t: Instant)
    requires pick < |pool|
    ensures BlindPool(ChangePool(pool, pick, b => AdvanceReserve(b, t)))
         == ChangePool(BlindPool(pool), pick, b => AdvanceReserve(b, t))
  {
    BlindAdmitBuckets(pool[pick].buckets, t);
  }

  /** Admitting looks at and moves allocation horizons only. */
  lemma BlindAdmit(e: Engine, picks: seq<nat>, t: Instant)
    requires Picks(e.pools, picks)
    ensures Picks(BlindEngine(e).pools, picks) && BlindEngine(Admit(e, picks, t)) == Admit(BlindEngine(e), picks, t)
  {
    SamePicks(e, picks);
    BlindAdmitBuckets(e.shared, t);
    forall p | 0 <= p < |e.pools|
      ensures BlindPool(ChangePool(e.pools[p], picks[p], b => AdvanceReserve(b, t)))
           == ChangePool(BlindPool(e.pools[p]), picks[p], b => AdvanceReserve(b, t))
    {
      BlindAdmitPool(e.pools[p], picks[p], t);
    }
    hide ChangePool, BlindPool, BlindAll, MapBuckets;
    assert BlindEngine(Admit(e, picks, t)).pools == Admit(BlindEngine(e), picks, t).pools;
  }

  lemma {:induction false} SameFind(pool: Pool, key: string, from: nat)
    requires from <= |pool|
    ensures FindKey(BlindPool(pool), key, from) == FindKey(pool, key, from)
    decreases |pool| - from
  {
    if from < |pool| && pool[from].key != key { SameFind(pool, key, from + 1); }
  }

  lemma BlindAlive(e: Engine, pool: nat, key: string, alive: bool)
    requires pool < |e.pools|
    ensures BlindEngine(SetAlive(e, pool, key, alive)) == SetAlive(BlindEngine(e), pool, key, alive)
  {
    SameFind(e.pools[pool], key, 0);
    var found := FindKey(e.pools[pool], key, 0);
    if found.Some? {
      var resources := e.pools[pool];
      var changed := resources[found.value := resources[found.value].(alive := alive)];
      assert BlindPool(changed) == BlindPool(resources)[found.value := BlindPool(resources)[found.value].(alive := alive)];
      assert BlindPools(e.pools[pool := changed]) == BlindPools(e.pools)[pool := BlindPool(changed)];
    }
  }

  /** A commit that moves no allocation horizon changes nothing that admissions see. */
  lemma BlindCommit(e: Engine, picks: seq<nat>, now: Instant)
    requires Picks(e.pools, picks)
    requires forall a | Has(e, a) && Touches(picks, a) :: AdvanceCommit(Lookup(e, a), now).rtat == Lookup(e, a).rtat
    ensures BlindEngine(DoCommit(e, picks, now)) == BlindEngine(e)
  {
    var after := DoCommit(e, picks, now);
    forall i | 0 <= i < |e.shared| ensures Blind(after.shared[i]) == Blind(e.shared[i]) {
      assert Has(e, Shared(i)) && Touches(picks, Shared(i)) && Lookup(e, Shared(i)) == e.shared[i];
    }
    assert BlindAll(after.shared) == BlindAll(e.shared);
    forall p | 0 <= p < |e.pools| ensures BlindPool(after.pools[p]) == BlindPool(e.pools[p]) {
      var buckets := e.pools[p][picks[p]].buckets;
      forall i | 0 <= i < |buckets| ensures AdvanceCommit(buckets[i], now).rtat == buckets[i].rtat {
        var a := Private(p, picks[p], i);
        assert Has(e, a) && Touches(picks, a) && Lookup(e, a) == buckets[i];
      }
      BlindPoolCommit(e.pools[p], picks[p], now);
    }
    assert BlindPools(after.pools) == BlindPools(e.pools);
  }

  lemma BlindPoolCommit(pool: Pool, pick: nat, now: Instant)
    requires pick < |pool|
    requires forall i | 0 <= i < |pool[pick].buckets| ::
               AdvanceCommit(pool[pick].buckets[i], now).rtat == pool[pick].buckets[i].rtat
    ensures BlindPool(ChangePool(pool, pick, b => AdvanceCommit(b, now))) == BlindPool(pool)
  {
    assert BlindAll(MapBuckets(pool[pick].buckets, b => AdvanceCommit(b, now))) == BlindAll(pool[pick].buckets);
  }

  // ---- Runs with and without their commits --------------------------------------------------------

  /** The run without its commits. */
  function Silent(ops: seq<Op>): seq<Op> {
    if ops == [] then []
    else
      var n := |ops| - 1;
      Silent(ops[..n]) + if ops[n].TryCommit? then [] else [ops[n]]
  }

  lemma RunSnoc(h: Handle, ops: seq<Op>, op: Op)
    ensures Run(h, ops + [op]) == Apply(Run(h, ops), op)
    ensures HandedOut(h, ops + [op]) == HandedOut(h, ops) + Handed(Run(h, ops), op)
  {
    assert (ops + [op])[..|ops|] == ops;
  }

  /** Engines that admissions cannot tell apart. */
  predicate Alike(g: Handle, w: Handle) {
    BlindEngine(g.engine) == BlindEngine(w.engine)
  }

  lemma SameAdmissible(g: Handle, w: Handle, demand: seq<Pin>, deadline: Instant, now: Instant)
    requires Alike(g, w)
    ensures Admissible(g.engine, demand, deadline, now) == Admissible(w.engine, demand, deadline, now)
  {
    assert |g.engine.pools| == |BlindEngine(g.engine).pools| && |w.engine.pools| == |BlindEngine(w.engine).pools|;
    if |demand| == |g.engine.pools| {
      SamePeek(g.engine, demand, now);
      SamePeek(w.engine, demand, now);
    }
  }

  lemma AlikeStep(g: Handle, w: Handle, op: Op)
    requires Alike(g, w) && !op.TryCommit? && !op.GiveBack? && !op.Update?
    ensures Alike(Apply(g, op), Apply(w, op)) && Handed(g, op) == Handed(w, op)
  {
    hide BlindEngine, Admissible, Admit, SetAlive;
    match op
    case Reserve(demand, deadline, now) =>
      SameAdmissible(g, w, demand, deadline, now);
      var slot := Admissible(w.engine, demand, deadline, now);
      if slot.Some? {
        BlindAdmit(g.engine, slot.value.picks, slot.value.at);
        BlindAdmit(w.engine, slot.value.picks, slot.value.at);
      }
    case SetLive(pool, key, alive) =>
      SamePoolCount(g, w);
      if pool < |g.engine.pools| {
        BlindAlive(g.engine, pool, key, alive);
        BlindAlive(w.engine, pool, key, alive);
      }
  }

  lemma SamePoolCount(g: Handle, w: Handle)
    requires Alike(g, w)
    ensures |g.engine.pools| == |w.engine.pools|
  {
    assert |g.engine.pools| == |BlindEngine(g.engine).pools| && |w.engine.pools| == |BlindEngine(w.engine).pools|;
  }

  ghost predicate AllOrdered(e: Engine) {
    forall a | Has(e, a) :: Lookup(e, a).tat <= Lookup(e, a).rtat
  }

  /** A commit in time is invisible to admissions. */
  lemma SilentCommit(h: Handle, ops: seq<Op>, op: Op)
    requires HandleOk(h) && h.reservations == [] && AllOrdered(h.engine)
    requires InTimeRun(h, ops) && op.TryCommit?
    requires InTime(Run(h, ops), HandedOut(h, ops), Clock(h, ops), op)
    ensures Alike(Apply(Run(h, ops), op), Run(h, ops)) && Handed(Run(h, ops), op) == []
  {
    hide Lookup, Has, HandleOk, BlindEngine, Room, MayCommit, InTimeRun;
    var w := Run(h, ops);
    if Commits(w, op) {
      var picks := w.reservations[op.reservation].picks;
      forall a | Has(w.engine, a) && Touches(picks, a)
        ensures AdvanceCommit(Lookup(w.engine, a), op.now).rtat == Lookup(w.engine, a).rtat
      {
        RunKeepsAddresses(h, ops, a);
        RunKeepsRoom(h, ops, a);
        CommitKeepsRoom(Lookup(w.engine, a), w.reservations, HandedOut(h, ops), op.reservation, op.now, a, Clock(h, ops));
      }
      CommitApplies(w, op);
      BlindCommit(w.engine, picks, op.now);
    } else {
      NoCommitApplies(w, op);
    }
  }

  lemma CommitApplies(w: Handle, op: Op)
    requires Commits(w, op)
    ensures Picks(w.engine.pools, w.reservations[op.reservation].picks)
    ensures Apply(w, op).engine == DoCommit(w.engine, w.reservations[op.reservation].picks, op.now)
  {
  }

  lemma NoCommitApplies(w: Handle, op: Op)
    requires op.TryCommit? && !Commits(w, op)
    ensures Apply(w, op) == w
  {
  }

  /**
   In a run without headers and releases, with every commit in time, the same reservations are
   admitted, and handed the same instants, as if nothing had been committed.
   */
  lemma {:induction false} CommitsAreInvisible(h: Handle, ops: seq<Op>)
    requires HandleOk(h) && h.reservations == [] && AllOrdered(h.engine) && InTimeRun(h, ops)
    ensures HandedOut(h, ops) == HandedOut(h, Silent(ops)) && Alike(Run(h, ops), Run(h, Silent(ops)))
  {
    hide Apply, HandleOk, AllOrdered, Alike, Handed, InTime;
    if ops == [] {
      AlikeItself(h);
    } else {
      var n := |ops| - 1;
      var w, g := Run(h, ops[..n]), Run(h, Silent(ops[..n]));
      CommitsAreInvisible(h, ops[..n]);
      if ops[n].TryCommit? {
        SilentCommit(h, ops[..n], ops[n]);
        AlikeTrans(Apply(w, ops[n]), w, g);
        assert Silent(ops) == Silent(ops[..n]) && HandedOut(h, ops) == HandedOut(h, ops[..n]);
      } else {
        InTimeIsPlain(w, HandedOut(h, ops[..n]), Clock(h, ops[..n]), ops[n]);
        AlikeStep(w, g, ops[n]);
        RunSnoc(h, Silent(ops[..n]), ops[n]);
      }
    }
  }

  lemma AlikeItself(h: Handle)
    ensures Alike(h, h)
  {
  }

  lemma AlikeTrans(a: Handle, b: Handle, c: Handle)
    requires Alike(a, b) && Alike(b, c)
    ensures Alike(a, c)
  {
  }

  lemma InTimeIsPlain(h: Handle, handed: seq<Instant>, clock: Option<Instant>, op: Op)
    requires InTime(h, handed, clock, op)
    ensures !op.GiveBack? && !op.Update?
  {
  }
}
