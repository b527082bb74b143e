/**
 A shared quota handle under any interleaving of its callers. Every mutex-protected section
 is one operation; a waiting `commit` is a `TryCommit` repeated at each wake-up.
 */
module CadenceRuns {
  import opened Basics
  import opened Cadence
  import opened CadenceChoice

  datatype Reservation = Reservation(picks: seq<nat>, done: bool)

  datatype Handle = Handle(engine: Engine, reservations: seq<Reservation>)

  datatype Op =
    | Reserve(demand: seq<Pin>, deadline: Instant, now: Instant)
    | TryCommit(reservation: nat, now: Instant)
    | GiveBack(reservation: nat)
    | Update(pool: nat, key: string, name: string, remaining: nat, capacity: nat, now: Instant)
    | SetLive(pool: nat, key: string, alive: bool)

  /** The peeked slot, if it can be admitted before the deadline. */
  function Admissible(e: Engine, demand: seq<Pin>, deadline: Instant, now: Instant): (r: Option<Peek>)
    ensures r.Some? ==> Picks(e.pools, r.value.picks)
  {
    if |demand| != |e.pools| then None
    else
      var peek := PeekReserve(e, demand, now);
      if peek.Some? && peek.value.at > deadline then None else peek
  }

  predicate MayCommit(e: Engine, picks: seq<nat>, now: Instant) {
    Picks(e.pools, picks) && Earliest(e, picks, Committing, now) <= now
  }

  /** A malformed call, which panics in the program, leaves the handle as it is. */
  function Apply(h: Handle, op: Op): Handle {
    match op
    case Reserve(demand, deadline, now) =>
      var slot := Admissible(h.engine, demand, deadline, now);
      if slot.None? then h
      else Handle(Admit(h.engine, slot.value.picks, slot.value.at), h.reservations + [Reservation(slot.value.picks, false)])
    case TryCommit(r, now) =>
      if r < |h.reservations| && MayCommit(h.engine, h.reservations[r].picks, now) then
        Handle(DoCommit(h.engine, h.reservations[r].picks, now), h.reservations[r := h.reservations[r].(done := true)])
      else h
    case GiveBack(r) =>
      if r < |h.reservations| && !h.reservations[r].done && Picks(h.engine.pools, h.reservations[r].picks) then
        Handle(Release(h.engine, h.reservations[r].picks), h.reservations[r := h.reservations[r].(done := true)])
      else h
    case Update(pool, key, name, remaining, capacity, now) =>
      if pool < |h.engine.pools| then h.(engine := ReconcileEngine(h.engine, pool, key, name, remaining, capacity, now)) else h
    case SetLive(pool, key, alive) =>
      if pool < |h.engine.pools| then h.(engine := SetAlive(h.engine, pool, key, alive)) else h
  }

  function Run(h: Handle, ops: seq<Op>): Handle {
    if ops == [] then h else Apply(Run(h, ops[..|ops| - 1]), ops[|ops| - 1])
  }

  // ---- One bucket of the engine ------------------------------------------------------------

  datatype Address = Shared(index: nat) | Private(pool: nat, resource: nat, index: nat)

  predicate Has(e: Engine, a: Address) {
    match a
    case Shared(i) => i < |e.shared|
    case Private(p, r, i) => p < |e.pools| && r < |e.pools[p]| && i < |e.pools[p][r].buckets|
  }

  function Lookup(e: Engine, a: Address): Bucket
    requires Has(e, a)
  {
    match a
    case Shared(i) => e.shared[i]
    case Private(p, r, i) => e.pools[p][r].buckets[i]
  }

  predicate Touches(picks: seq<nat>, a: Address) {
    a.Shared? || (a.pool < |picks| && picks[a.pool] == a.resource)
  }

  /** The change reaches exactly the touched buckets. */
  lemma ChangeTouchedAt(e: Engine, picks: seq<nat>, change: Bucket -> Bucket, a: Address)
    requires Picks(e.pools, picks) && Has(e, a)
    ensures var after := ChangeTouched(e, picks, change);
            && Has(after, a)
            && Lookup(after, a) == if Touches(picks, a) then change(Lookup(e, a)) else Lookup(e, a)
  {
  }

  lemma {:induction false} PickedContains(pools: seq<Pool>, picks: seq<nat>, p: nat, i: nat)
    requires Picks(pools, picks) && p < |pools| && i < |pools[p][picks[p]].buckets|
    ensures pools[p][picks[p]].buckets[i] in PickedBuckets(pools, picks)
  {
    if p > 0 { PickedContains(pools[1..], picks[1..], p - 1, i); }
  }

  /** A fired commit or admission found no slack left on any touched bucket. */
  lemma GateCoversTouched(e: Engine, picks: seq<nat>, h: Horizon, now: Instant, t: Instant, a: Address)
    requires Picks(e.pools, picks) && Has(e, a) && Touches(picks, a)
    requires Earliest(e, picks, h, now) <= t
    ensures Slack(Lookup(e, a), h, t) <= 0
  {
    EarliestIsLeast(e, picks, h, now);
    if a.Private? { PickedContains(e.pools, picks, a.pool, a.index); }
    assert Lookup(e, a) in Touched(e, picks);
  }

  // ---- What an operation does to one bucket ---------------------------------------------------

  /** The instant at which `op` spends (or reserves) a slot of bucket `a`, if it does. */
  function Fires(h: Handle, op: Op, k: Horizon, a: Address): Option<Instant> {
    match op
    case Reserve(demand, deadline, now) =>
      var slot := Admissible(h.engine, demand, deadline, now);
      if k.Allocating? && slot.Some? && Touches(slot.value.picks, a) then Some(slot.value.at) else None
    case TryCommit(r, now) =>
      if k.Committing? && r < |h.reservations| && MayCommit(h.engine, h.reservations[r].picks, now)
         && Touches(h.reservations[r].picks, a) then Some(now)
      else None
    case _ => None
  }

  /** The instant to which `op` re-anchors bucket `a`, if it is a header for that bucket. */
  function Anchors(h: Handle, op: Op, a: Address): Option<Instant> {
    if op.Update? && a.Private? && op.pool == a.pool && Has(h.engine, a)
       && FindKey(h.engine.pools[a.pool], op.key, 0) == Some(a.resource) && Lookup(h.engine, a).name == op.name
    then Some(op.now + Lookup(h.engine, a).interval * Debt(op.remaining, op.capacity))
    else None
  }

  function Gives(h: Handle, op: Op, a: Address): bool {
    op.GiveBack? && op.reservation < |h.reservations| && !h.reservations[op.reservation].done
    && Touches(h.reservations[op.reservation].picks, a)
  }

  /** The bucket after `op`, from what `op` means for it. */
  function Effect(b: Bucket, reserved: Option<Instant>, spent: Option<Instant>, anchored: Option<Instant>, given: bool): Bucket {
    if reserved.Some? then AdvanceReserve(b, reserved.value)
    else if spent.Some? then AdvanceCommit(b, spent.value)
    else if anchored.Some? then
      b.(tat := Max(b.tat, anchored.value), rtat := Max(b.rtat, Max(b.tat, anchored.value)))
    else if given then ReleaseReserve(b)
    else b
  }

  /** Reservations only hold picks that exist. */
  ghost predicate HandleOk(h: Handle) {
    forall i | 0 <= i < |h.reservations| :: Picks(h.engine.pools, h.reservations[i].picks)
  }

  /** `Apply` does to bucket `a` what `Effect` says. */
  ghost predicate AppliedAt(h: Handle, op: Op, a: Address)
    requires Has(h.engine, a)
  {
    && Has(Apply(h, op).engine, a)
    && Lookup(Apply(h, op).engine, a)
    == Effect(Lookup(h.engine, a), Fires(h, op, Allocating, a), Fires(h, op, Committing, a),
              Anchors(h, op, a), Gives(h, op, a))
  }

  lemma ReserveAt(h: Handle, demand: seq<Pin>, deadline: Instant, now: Instant, a: Address)
    requires Has(h.engine, a)
    ensures AppliedAt(h, Reserve(demand, deadline, now), a)
  {
    hide Admissible, ChangeTouched;
    var slot := Admissible(h.engine, demand, deadline, now);
    if slot.Some? { ChangeTouchedAt(h.engine, slot.value.picks, b => AdvanceReserve(b, slot.value.at), a); }
  }

  lemma CommitAt(h: Handle, r: nat, now: Instant, a: Address)
    requires Has(h.engine, a) && HandleOk(h)
    ensures AppliedAt(h, TryCommit(r, now), a)
  {
    hide MayCommit, ChangeTouched;
    if r < |h.reservations| { ChangeTouchedAt(h.engine, h.reservations[r].picks, b => AdvanceCommit(b, now), a); }
  }

  lemma GiveBackAt(h: Handle, r: nat, a: Address)
    requires Has(h.engine, a) && HandleOk(h)
    ensures AppliedAt(h, GiveBack(r), a)
  {
    hide ChangeTouched;
    if r < |h.reservations| { ChangeTouchedAt(h.engine, h.reservations[r].picks, b => ReleaseReserve(b), a); }
  }

  lemma UpdateAt(h: Handle, op: Op, a: Address)
    requires Has(h.engine, a) && (op.Update? || op.SetLive?)
    ensures AppliedAt(h, op, a)
  {
  }

  lemma ApplyAt(h: Handle, op: Op, a: Address)
    requires Has(h.engine, a) && HandleOk(h)
    ensures HandleOk(Apply(h, op)) && AppliedAt(h, op, a)
  {
    hide Apply, AppliedAt, Has;
    HandleSurvives(h, op);
    match op
    case Reserve(demand, deadline, now) => ReserveAt(h, demand, deadline, now, a);
    case TryCommit(r, now) => CommitAt(h, r, now, a);
    case GiveBack(r) => GiveBackAt(h, r, a);
    case _ => UpdateAt(h, op, a);
  }

  lemma PicksSurvive(h: Handle, op: Op, picks: seq<nat>)
    ensures Picks(Apply(h, op).engine.pools, picks) <==> Picks(h.engine.pools, picks)
  {
  }

  lemma HandleSurvives(h: Handle, op: Op)
    requires HandleOk(h)
    ensures HandleOk(Apply(h, op))
  {
    forall picks ensures Picks(Apply(h, op).engine.pools, picks) <==> Picks(h.engine.pools, picks) {
      PicksSurvive(h, op, picks);
    }
  }

  lemma GateHolds(h: Handle, op: Op, k: Horizon, a: Address)
    requires Has(h.engine, a) && HandleOk(h) && Fires(h, op, k, a).Some?
    ensures Slack(Lookup(h.engine, a), k, Fires(h, op, k, a).value) <= 0
  {
    match op
    case Reserve(demand, deadline, now) =>
      var slot := Admissible(h.engine, demand, deadline, now).value;
      GateCoversTouched(h.engine, slot.picks, Allocating, now, slot.at, a);
    case TryCommit(r, now) =>
      GateCoversTouched(h.engine, h.reservations[r].picks, Committing, now, now, a);
  }

  /** A horizon never falls, and every firing was due and moves it by a whole interval. */
  lemma HorizonMoves(h: Handle, op: Op, k: Horizon, a: Address)
    requires Has(h.engine, a) && HandleOk(h)
    requires k.Allocating? ==> !op.GiveBack?
    ensures HandleOk(Apply(h, op)) && Has(Apply(h, op).engine, a)
    ensures var b, after, fired := Lookup(h.engine, a), Lookup(Apply(h, op).engine, a), Fires(h, op, k, a);
            && after.interval == b.interval && after.tolerance == b.tolerance
            && At(b, k) <= At(after, k)
            && (fired.Some? ==> At(b, k) - b.tolerance <= fired.value
                                && At(after, k) >= Max(At(b, k), fired.value) + b.interval)
  {
    ApplyAt(h, op, a);
    if Fires(h, op, k, a).Some? { GateHolds(h, op, k, a); }
    hide Apply, Anchors, HandleOk, Lookup;
  }

  // ---- Rate bounds ---------------------------------------------------------------------------------

  predicate Within(at: Option<Instant>, from: Instant, width: nat) {
    at.Some? && from <= at.value <= from + width
  }

  /** How many operations fire on bucket `a` at an instant of the window `[from, from + width]`. */
  function Fired(h: Handle, ops: seq<Op>, k: Horizon, a: Address, from: Instant, width: nat): nat {
    if ops == [] then 0
    else
      var n := |ops| - 1;
      Fired(h, ops[..n], k, a, from, width)
      + if Within(Fires(Run(h, ops[..n]), ops[n], k, a), from, width) then 1 else 0
  }

  lemma WindowCount(n: nat, interval: nat, tolerance: nat, width: nat)
    requires interval > 0 && n * interval <= width + tolerance && tolerance % interval == 0
    ensures n <= tolerance / interval + width / interval
  {
    var tokens, steps := tolerance / interval, width / interval;
    assert tolerance == tokens * interval && width < steps * interval + interval;
    assert (tokens + steps + 1) * interval == tokens * interval + steps * interval + interval;
    if n > tokens + steps { MulLe(tokens + steps + 1, n, interval); }
  }

  /** One more firing in the window pushes the horizon one interval further past `from`. */
  lemma FiringCounts(n: nat, b: Bucket, from: Instant, width: nat, before: Instant, at: Instant, after: Instant)
    requires WellFormed(b)
    requires n > 0 ==> before >= from + n * b.interval
    requires from <= at <= from + width && before - b.tolerance <= at && after >= Max(before, at) + b.interval
    ensures after >= from + (n + 1) * b.interval
    ensures n + 1 <= CapacityOf(b) + width / b.interval
  {
    assert (n + 1) * b.interval == n * b.interval + b.interval;
    if n > 0 { WindowCount(n, b.interval, b.tolerance, width); }
  }

  ghost predicate FiringsCounted(b: Bucket, after: Bucket, k: Horizon, n: nat, from: Instant, width: nat)
    requires b.interval > 0
  {
    && after.interval == b.interval && after.tolerance == b.tolerance
    && At(b, k) <= At(after, k)
    && (n > 0 ==> At(after, k) >= from + n * b.interval)
    && n <= CapacityOf(b) + width / b.interval
  }

  lemma CountsStay(b: Bucket, mid: Bucket, after: Bucket, k: Horizon, n: nat, from: Instant, width: nat)
    requires WellFormed(b) && FiringsCounted(b, mid, k, n, from, width)
    requires after.interval == mid.interval && after.tolerance == mid.tolerance && At(mid, k) <= At(after, k)
    ensures FiringsCounted(b, after, k, n, from, width)
  {
  }

  /** The count and the horizon grow together. */
  lemma {:induction false} FiringsPushHorizon(h: Handle, ops: seq<Op>, k: Horizon, a: Address, from: Instant, width: nat)
    requires Has(h.engine, a) && HandleOk(h) && WellFormed(Lookup(h.engine, a))
    requires k.Allocating? ==> forall i | 0 <= i < |ops| :: !ops[i].GiveBack?
    ensures HandleOk(Run(h, ops)) && Has(Run(h, ops).engine, a)
    ensures FiringsCounted(Lookup(h.engine, a), Lookup(Run(h, ops).engine, a), k, Fired(h, ops, k, a, from, width), from, width)
  {
    hide Apply, Fires, Lookup, HandleOk, WellFormed, FiringsCounted;
    var b := Lookup(h.engine, a);
    if ops == [] {
      NothingFired(b, k, from, width);
    } else {
      var m := |ops| - 1;
      var before := Run(h, ops[..m]);
      FiringsPushHorizon(h, ops[..m], k, a, from, width);
      assert k.Allocating? ==> !ops[m].GiveBack?;
      HorizonMoves(before, ops[m], k, a);
      var mid, after := Lookup(before.engine, a), Lookup(Apply(before, ops[m]).engine, a);
      var n, fired := Fired(h, ops[..m], k, a, from, width), Fires(before, ops[m], k, a);
      CountsStay(b, mid, after, k, n, from, width);
      if Within(fired, from, width) { OneMoreFired(b, mid, after, k, n, from, width, fired.value); }
    }
  }

  lemma NothingFired(b: Bucket, k: Horizon, from: Instant, width: nat)
    requires WellFormed(b)
    ensures FiringsCounted(b, b, k, 0, from, width)
  {
  }

  lemma OneMoreFired(b: Bucket, mid: Bucket, after: Bucket, k: Horizon, n: nat, from: Instant, width: nat, at: Instant)
    requires WellFormed(b) && FiringsCounted(b, mid, k, n, from, width)
    requires after.interval == mid.interval && after.tolerance == mid.tolerance && At(mid, k) <= At(after, k)
    requires from <= at <= from + width && At(mid, k) - b.tolerance <= at && At(after, k) >= Max(At(mid, k), at) + b.interval
    ensures FiringsCounted(b, after, k, n + 1, from, width)
  {
    FiringCounts(n, b, from, width, At(mid, k), at, At(after, k));
  }

  /**
   Server-side rate bound. Over every interleaving of reservations, commits, releases and
   headers, the commits that touch any one bucket inside any window number at most its
   effective capacity plus one per interval of the window.
   */
  lemma CommitRateBound(h: Handle, ops: seq<Op>, a: Address, from: Instant, width: nat)
    requires Has(h.engine, a) && HandleOk(h) && WellFormed(Lookup(h.engine, a))
    ensures Fired(h, ops, Committing, a, from, width) <= CapacityOf(Lookup(h.engine, a)) + width / Lookup(h.engine, a).interval
  {
    FiringsPushHorizon(h, ops, Committing, a, from, width);
  }

  /**
   Handed-out schedule bound. As long as nothing is given back, the instants promised to
   admitted reservations obey the same bound, in whatever order they were handed out.
   */
  lemma ScheduleBound(h: Handle, ops: seq<Op>, a: Address, from: Instant, width: nat)
    requires Has(h.engine, a) && HandleOk(h) && WellFormed(Lookup(h.engine, a))
    requires forall i | 0 <= i < |ops| :: !ops[i].GiveBack?
    ensures Fired(h, ops, Allocating, a, from, width) <= CapacityOf(Lookup(h.engine, a)) + width / Lookup(h.engine, a).interval
  {
    FiringsPushHorizon(h, ops, Allocating, a, from, width);
  }

  // ---- The commit horizon is independent of reservations ------------------------------------------------

  datatype TatEvent = Spent(at: Instant) | Anchored(at: Instant)

  function TatEventOf(h: Handle, op: Op, a: Address): Option<TatEvent> {
    var spent, anchored := Fires(h, op, Committing, a), Anchors(h, op, a);
    if spent.Some? then Some(Spent(spent.value))
    else if anchored.Some? then Some(Anchored(anchored.value))
    else None
  }

  /** The commits and headers that reach bucket `a` over a run. */
  function TatLog(h: Handle, ops: seq<Op>, a: Address): seq<TatEvent> {
    if ops == [] then []
    else
      var n := |ops| - 1;
      var event := TatEventOf(Run(h, ops[..n]), ops[n], a);
      TatLog(h, ops[..n], a) + if event.Some? then [event.value] else []
  }

  function Moved(tat: Instant, interval: nat, event: TatEvent): Instant {
    match event
    case Spent(at) => Max(tat, at) + interval
    case Anchored(at) => Max(tat, at)
  }

  function Replay(tat: Instant, interval: nat, log: seq<TatEvent>): Instant {
    if log == [] then tat
    else Moved(Replay(tat, interval, log[..|log| - 1]), interval, log[|log| - 1])
  }

  lemma ReplayAppend(tat: Instant, interval: nat, log: seq<TatEvent>, event: Option<TatEvent>)
    ensures Replay(tat, interval, log + if event.Some? then [event.value] else [])
         == if event.Some? then Moved(Replay(tat, interval, log), interval, event.value) else Replay(tat, interval, log)
  {
    if event.Some? { assert (log + [event.value])[..|log|] == log; } else { assert log + [] == log; }
  }

  /** One operation moves the commit horizon exactly as its own event says. */
  lemma TatStep(h: Handle, op: Op, a: Address)
    requires Has(h.engine, a) && HandleOk(h)
    ensures HandleOk(Apply(h, op)) && Has(Apply(h, op).engine, a)
    ensures var b, after := Lookup(h.engine, a), Lookup(Apply(h, op).engine, a);
            && after.interval == b.interval && after.tolerance == b.tolerance
            && var event := TatEventOf(h, op, a);
               after.tat == if event.Some? then Moved(b.tat, b.interval, event.value) else b.tat
  {
    hide Apply, Fires, Anchors, Gives, HandleOk, Lookup;
    FiresOnce(h, op, a);
    ApplyAt(h, op, a);
  }

  lemma FiresOnce(h: Handle, op: Op, a: Address)
    ensures Fires(h, op, Allocating, a).Some? ==>
              Fires(h, op, Committing, a).None? && Anchors(h, op, a).None? && !Gives(h, op, a)
  {
  }

  /** After any run a commit horizon is the replay of its commits and headers alone. */
  lemma {:induction false} CommitHorizonIsReplay(h: Handle, ops: seq<Op>, a: Address)
    requires Has(h.engine, a) && HandleOk(h)
    ensures HandleOk(Run(h, ops)) && Has(Run(h, ops).engine, a)
    ensures var b, after := Lookup(h.engine, a), Lookup(Run(h, ops).engine, a);
            after.interval == b.interval && after.tat == Replay(b.tat, b.interval, TatLog(h, ops, a))
  {
    hide Apply, TatEventOf, Lookup, HandleOk, Has;
    if ops != [] {
      var n := |ops| - 1;
      var before := Run(h, ops[..n]);
      CommitHorizonIsReplay(h, ops[..n], a);
      TatStep(before, ops[n], a);
      ReplayAppend(Lookup(h.engine, a).tat, Lookup(h.engine, a).interval, TatLog(h, ops[..n], a), TatEventOf(before, ops[n], a));
    }
  }

  lemma AddressSurvives(h: Handle, op: Op, a: Address)
    ensures Has(Apply(h, op).engine, a) <==> Has(h.engine, a)
  {
  }

  lemma {:induction false} RunKeepsAddresses(h: Handle, ops: seq<Op>, a: Address)
    ensures Has(Run(h, ops).engine, a) <==> Has(h.engine, a)
  {
    hide Apply, Has;
    if ops != [] {
      var n := |ops| - 1;
      RunKeepsAddresses(h, ops[..n], a);
      AddressSurvives(Run(h, ops[..n]), ops[n], a);
    }
  }

  lemma StepOrdersHorizons(h: Handle, op: Op, a: Address)
    requires Has(h.engine, a) && HandleOk(h) && Lookup(h.engine, a).tat <= Lookup(h.engine, a).rtat
    ensures Has(Apply(h, op).engine, a) && HandleOk(Apply(h, op))
    ensures var b, after := Lookup(h.engine, a), Lookup(Apply(h, op).engine, a);
            b.tat <= after.tat <= after.rtat
  {
    ApplyAt(h, op, a);
    hide Apply, Fires, Anchors, Lookup;
  }

  /** Over any run no commit horizon falls and no allocation horizon lies before its commit horizon. */
  lemma {:induction false} HorizonsOrdered(h: Handle, ops: seq<Op>, a: Address)
    requires Has(h.engine, a) && HandleOk(h) && Lookup(h.engine, a).tat <= Lookup(h.engine, a).rtat
    ensures Has(Run(h, ops).engine, a) && HandleOk(Run(h, ops))
    ensures var b, after := Lookup(h.engine, a), Lookup(Run(h, ops).engine, a);
            b.tat <= after.tat <= after.rtat
  {
    hide Apply, Lookup, Has, HandleOk;
    if ops != [] {
      HorizonsOrdered(h, ops[..|ops| - 1], a);
      StepOrdersHorizons(Run(h, ops[..|ops| - 1]), ops[|ops| - 1], a);
    }
  }

  // ---- The commit gate over runs -------------------------------------------------------------------------

  lemma {:induction false} PickedHasAddress(pools: seq<Pool>, picks: seq<nat>, b: Bucket)
    requires Picks(pools, picks) && b in PickedBuckets(pools, picks)
    ensures exists p, i | 0 <= p < |pools| && 0 <= i < |pools[p][picks[p]].buckets| :: pools[p][picks[p]].buckets[i] == b
  {
    var buckets := pools[0][picks[0]].buckets;
    if b in buckets {
      var i :| 0 <= i < |buckets| && buckets[i] == b;
    } else {
      PickedHasAddress(pools[1..], picks[1..], b);
      var p, i :| 0 <= p < |pools[1..]| && 0 <= i < |pools[1..][p][picks[1..][p]].buckets|
                  && pools[1..][p][picks[1..][p]].buckets[i] == b;
      assert pools[p + 1][picks[p + 1]].buckets[i] == b;
    }
  }

  /** A gate in the future is some touched bucket's own. */
  lemma GateHasAddress(e: Engine, picks: seq<nat>, now: Instant) returns (a: Address)
    requires Picks(e.pools, picks) && now < Earliest(e, picks, Committing, now)
    ensures Has(e, a) && Touches(picks, a)
    ensures Slack(Lookup(e, a), Committing, Earliest(e, picks, Committing, now)) == 0
  {
    var t := Earliest(e, picks, Committing, now);
    EarliestIsLeast(e, picks, Committing, now);
    var b :| b in Touched(e, picks) && Slack(b, Committing, t) == 0;
    if b in e.shared {
      var i :| 0 <= i < |e.shared| && e.shared[i] == b;
      a := Shared(i);
    } else {
      PickedHasAddress(e.pools, picks, b);
      var p, i :| 0 <= p < |e.pools| && 0 <= i < |e.pools[p][picks[p]].buckets| && e.pools[p][picks[p]].buckets[i] == b;
      a := Private(p, picks[p], i);
    }
  }

  /** The second engine has the first one's buckets with commit horizons no earlier. */
  ghost predicate TatsAtLeast(e: Engine, later: Engine) {
    forall a | Has(e, a) :: Has(later, a)
      && Lookup(later, a).tolerance == Lookup(e, a).tolerance && Lookup(e, a).tat <= Lookup(later, a).tat
  }

  lemma GateMonotone(e: Engine, later: Engine, picks: seq<nat>, now: Instant, wake: Instant)
    requires Picks(e.pools, picks) && Picks(later.pools, picks) && TatsAtLeast(e, later) && now <= wake
    ensures Earliest(e, picks, Committing, now) <= Earliest(later, picks, Committing, wake)
  {
    hide Earliest;
    EarliestIsLeast(e, picks, Committing, now);
    EarliestIsLeast(later, picks, Committing, wake);
    if now < Earliest(e, picks, Committing, now) {
      var a := GateHasAddress(e, picks, now);
      GateCoversTouched(later, picks, Committing, wake, Earliest(later, picks, Committing, wake), a);
    }
  }

  lemma {:induction false} RunKeepsBuckets(h: Handle, ops: seq<Op>)
    requires HandleOk(h)
    ensures HandleOk(Run(h, ops)) && TatsAtLeast(h.engine, Run(h, ops).engine)
    ensures forall picks :: Picks(Run(h, ops).engine.pools, picks) <==> Picks(h.engine.pools, picks)
  {
    hide Apply, Lookup, Has, Picks;
    if ops != [] {
      var n := |ops| - 1;
      var before := Run(h, ops[..n]);
      RunKeepsBuckets(h, ops[..n]);
      HandleSurvives(before, ops[n]);
      forall a | Has(h.engine, a)
        ensures Has(Apply(before, ops[n]).engine, a)
        ensures Lookup(Apply(before, ops[n]).engine, a).tolerance == Lookup(before.engine, a).tolerance
        ensures Lookup(before.engine, a).tat <= Lookup(Apply(before, ops[n]).engine, a).tat
      {
        HorizonMoves(before, ops[n], Committing, a);
      }
      forall picks ensures Picks(Apply(before, ops[n]).engine.pools, picks) <==> Picks(before.engine.pools, picks) {
        PicksSurvive(before, ops[n], picks);
      }
    }
  }

  /**
   A wake-up target read at `now` stays a lower bound of the live gate, whatever happens
   until `wake`: a committer that sleeps until it never oversleeps its turn.
   */
  lemma StaleTargetIsLowerBound(h: Handle, ops: seq<Op>, picks: seq<nat>, now: Instant, wake: Instant)
    requires HandleOk(h) && Picks(h.engine.pools, picks) && now <= wake
    ensures Picks(Run(h, ops).engine.pools, picks)
    ensures Earliest(h.engine, picks, Committing, now) <= Earliest(Run(h, ops).engine, picks, Committing, wake)
  {
    RunKeepsBuckets(h, ops);
    hide Run, Earliest;
    GateMonotone(h.engine, Run(h, ops).engine, picks, now, wake);
  }

  /**
   Reservations never move the gate. Two histories with the same commits and headers, but
   any admissions, refusals, releases and drops, gate every choice of resources alike.
   */
  lemma SameCommitsSameGate(h: Handle, ops: seq<Op>, other: seq<Op>, picks: seq<nat>, now: Instant)
    requires HandleOk(h) && Picks(h.engine.pools, picks)
    requires forall a | Has(h.engine, a) :: TatLog(h, ops, a) == TatLog(h, other, a)
    ensures Picks(Run(h, ops).engine.pools, picks) && Picks(Run(h, other).engine.pools, picks)
    ensures Earliest(Run(h, ops).engine, picks, Committing, now) == Earliest(Run(h, other).engine, picks, Committing, now)
  {
    RunKeepsBuckets(h, ops);
    RunKeepsBuckets(h, other);
    SameTats(h, ops, other);
    SameTats(h, other, ops);
    hide Run, Earliest, TatLog;
    GateMonotone(Run(h, ops).engine, Run(h, other).engine, picks, now, now);
    GateMonotone(Run(h, other).engine, Run(h, ops).engine, picks, now, now);
  }

  lemma SameTats(h: Handle, ops: seq<Op>, other: seq<Op>)
    requires HandleOk(h)
    requires forall a | Has(h.engine, a) :: TatLog(h, ops, a) == TatLog(h, other, a)
    ensures TatsAtLeast(Run(h, ops).engine, Run(h, other).engine)
  {
    RunKeepsBuckets(h, ops);
    RunKeepsBuckets(h, other);
    hide Run, TatLog, Lookup, Has;
    forall a | Has(Run(h, ops).engine, a)
      ensures Has(Run(h, other).engine, a)
      ensures Lookup(Run(h, other).engine, a).tolerance == Lookup(Run(h, ops).engine, a).tolerance
      ensures Lookup(Run(h, ops).engine, a).tat <= Lookup(Run(h, other).engine, a).tat
    {
      RunKeepsAddresses(h, ops, a);
      CommitHorizonIsReplay(h, ops, a);
      CommitHorizonIsReplay(h, other, a);
    }
  }
}
