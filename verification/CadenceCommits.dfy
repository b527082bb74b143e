/**
 What commits do to admissions: as long as each comes no later than the instant its reservation was
 handed and in the order of the clock, nothing at all.
 */
module CadenceCommits {
  import opened Basics
  import opened Cadence
  import opened CadenceRuns
  import opened CadenceReleases

  /** Committing what was just reserved costs no headroom exactly if it is not later than either horizon or instant. */
  lemma CommitCostsNothingIff(b: Bucket, t: Instant, u: Instant)
    requires b.tat <= b.rtat
    ensures AdvanceCommit(AdvanceReserve(b, t), u).rtat == AdvanceReserve(b, t).rtat <==> u <= Max(b.rtat, t)
  {
  }

  /** A commit moves the allocation horizon exactly if its own horizon would overtake it. */
  lemma CommitMovesIff(b: Bucket, u: Instant)
    ensures AdvanceCommit(b, u) == b.(tat := AdvanceCommit(b, u).tat) <==> Max(b.tat, u) + b.interval <= b.rtat
  {
  }

  /** A commit or header pushes the allocation horizon as far as the commit horizon, and no further. */
  lemma PushesNoFurther(b: Bucket, u: Instant, remaining: nat, capacity: nat)
    ensures AdvanceCommit(b, u).rtat == Max(b.rtat, AdvanceCommit(b, u).tat)
    ensures Reconcile(b, remaining, capacity, u).rtat == Max(b.rtat, Reconcile(b, remaining, capacity, u).tat)
  {
  }

  // ---- The reservations of a run ---------------------------------------------------------------

  /** The instants handed to the reservations, in their order. */
  function HandedOut(h: Handle, ops: seq<Op>): seq<Instant> {
    if ops == [] then []
    else
      var n := |ops| - 1;
      HandedOut(h, ops[..n]) + Handed(Run(h, ops[..n]), ops[n])
  }

  function Handed(h: Handle, op: Op): seq<Instant> {
    if op.Reserve? && Admissible(h.engine, op.demand, op.deadline, op.now).Some?
    then [Admissible(h.engine, op.demand, op.deadline, op.now).value.at]
    else []
  }

  /** The operation is a commit whose gate is open. */
  predicate Commits(h: Handle, op: Op) {
    op.TryCommit? && op.reservation < |h.reservations| && MayCommit(h.engine, h.reservations[op.reservation].picks, op.now)
  }

  /** The instant of the latest commit. */
  function Clock(h: Handle, ops: seq<Op>): Option<Instant> {
    if ops == [] then None
    else
      var n := |ops| - 1;
      if Commits(Run(h, ops[..n]), ops[n]) then Some(ops[n].now) else Clock(h, ops[..n])
  }

  /**
   No header and no release, and each commit is the first of its reservation, comes no later than
   the instant that was handed, and no earlier than the commit before.
   */
  predicate InTime(h: Handle, handed: seq<Instant>, clock: Option<Instant>, op: Op) {
    && !op.GiveBack? && !op.Update?
    && (Commits(h, op) ==>
          && !h.reservations[op.reservation].done
          && op.reservation < |handed| && op.now <= handed[op.reservation]
          && (clock.Some? ==> clock.value <= op.now))
  }

  predicate InTimeRun(h: Handle, ops: seq<Op>) {
    ops == []
    || (var n := |ops| - 1;
        InTimeRun(h, ops[..n]) && InTime(Run(h, ops[..n]), HandedOut(h, ops[..n]), Clock(h, ops[..n]), ops[n]))
  }

  // ---- Room for what is outstanding -----------------------------------------------------------------

  /** The reservations touching the bucket that are not committed and were handed `v` or later. */
  function Outstanding(reservations: seq<Reservation>, handed: seq<Instant>, a: Address, v: Instant): nat
    requires |reservations| == |handed|
  {
    if handed == [] then 0
    else
      var n := |handed| - 1;
      Outstanding(reservations[..n], handed[..n], a, v)
      + if !reservations[n].done && Touches(reservations[n].picks, a) && handed[n] >= v then 1 else 0
  }

  lemma OutstandingSnoc(reservations: seq<Reservation>, handed: seq<Instant>, r: Reservation, at: Instant, a: Address, v: Instant)
    requires |reservations| == |handed|
    ensures Outstanding(reservations + [r], handed + [at], a, v)
         == Outstanding(reservations, handed, a, v) + if !r.done && Touches(r.picks, a) && at >= v then 1 else 0
  {
    assert (reservations + [r])[..|handed|] == reservations && (handed + [at])[..|handed|] == handed;
  }

  lemma {:induction false} OutstandingDone(reservations: seq<Reservation>, handed: seq<Instant>, r: nat, a: Address, v: Instant)
    requires |reservations| == |handed| && r < |handed| && !reservations[r].done
    ensures Outstanding(reservations, handed, a, v)
         == Outstanding(reservations[r := reservations[r].(done := true)], handed, a, v)
            + if Touches(reservations[r].picks, a) && handed[r] >= v then 1 else 0
  {
    var n := |handed| - 1;
    var after := reservations[r := reservations[r].(done := true)];
    if r < n {
      OutstandingDone(reservations[..n], handed[..n], r, a, v);
      assert after[..n] == reservations[..n][r := reservations[r].(done := true)];
    } else {
      assert after[..n] == reservations[..n];
    }
  }

  lemma {:induction false} FewerLater(reservations: seq<Reservation>, handed: seq<Instant>, a: Address, u: Instant, v: Instant)
    requires |reservations| == |handed| && u <= v
    ensures Outstanding(reservations, handed, a, v) <= Outstanding(reservations, handed, a, u)
  {
    if handed != [] { FewerLater(reservations[..|handed| - 1], handed[..|handed| - 1], a, u, v); }
  }

  /**
   However long from now one looks, the bucket's allocation horizon leaves room to commit all that
   is still outstanding there, an interval each.
   */
  ghost predicate Room(b: Bucket, reservations: seq<Reservation>, handed: seq<Instant>, a: Address, clock: Option<Instant>)
    requires |reservations| == |handed|
  {
    && b.tat <= b.rtat
    && forall v: Instant | (clock.Some? ==> clock.value <= v) && Outstanding(reservations, handed, a, v) > 0 ::
         Max(b.tat, v) + b.interval * Outstanding(reservations, handed, a, v) <= b.rtat
  }

  lemma OneMore(interval: nat, n: nat)
    ensures interval * (n + 1) == interval * n + interval
  {
  }

  /** An admission makes room for itself. */
  lemma AdmissionKeepsRoom(b: Bucket, reservations: seq<Reservation>, handed: seq<Instant>, picks: seq<nat>, at: Instant,
                           a: Address, clock: Option<Instant>)
    requires |reservations| == |handed| && Room(b, reservations, handed, a, clock)
    ensures Room(if Touches(picks, a) then AdvanceReserve(b, at) else b,
                 reservations + [Reservation(picks, false)], handed + [at], a, clock)
  {
    var after := if Touches(picks, a) then AdvanceReserve(b, at) else b;
    var all, instants := reservations + [Reservation(picks, false)], handed + [at];
    forall v: Instant | (clock.Some? ==> clock.value <= v) && Outstanding(all, instants, a, v) > 0
      ensures Max(after.tat, v) + b.interval * Outstanding(all, instants, a, v) <= after.rtat
    {
      OutstandingSnoc(reservations, handed, Reservation(picks, false), at, a, v);
      var n := Outstanding(reservations, handed, a, v);
      OneMore(b.interval, n);
    }
  }

  /** A commit in time finds room, so it leaves the allocation horizon alone, and room for the others. */
  lemma CommitKeepsRoom(b: Bucket, reservations: seq<Reservation>, handed: seq<Instant>, r: nat, now: Instant,
                        a: Address, clock: Option<Instant>)
    requires |reservations| == |handed| && Room(b, reservations, handed, a, clock)
    requires r < |handed| && !reservations[r].done && now <= handed[r] && (clock.Some? ==> clock.value <= now)
    ensures var touched := Touches(reservations[r].picks, a);
            && (touched ==> AdvanceCommit(b, now).rtat == b.rtat)
            && Room(if touched then AdvanceCommit(b, now) else b,
                    reservations[r := reservations[r].(done := true)], handed, a, Some(now))
  {
    var touched := Touches(reservations[r].picks, a);
    var after := if touched then AdvanceCommit(b, now) else b;
    var rest := reservations[r := reservations[r].(done := true)];
    OutstandingDone(reservations, handed, r, a, now);
    var m := Outstanding(reservations, handed, a, now);
    if touched { TakesOne(b, now, m); }
    forall v: Instant | now <= v && Outstanding(rest, handed, a, v) > 0
      ensures Max(after.tat, v) + b.interval * Outstanding(rest, handed, a, v) <= after.rtat
    {
      OutstandingDone(reservations, handed, r, a, v);
      FewerLater(rest, handed, a, now, v);
      var n := Outstanding(rest, handed, a, v);
      if touched { RoomForRest(b, now, v, m, n, handed[r] >= v); }
    }
  }

  lemma TakesOne(b: Bucket, now: Instant, m: nat)
    requires m > 0 && Max(b.tat, now) + b.interval * m <= b.rtat
    ensures Max(b.tat, now) + b.interval <= b.rtat && AdvanceCommit(b, now).rtat == b.rtat
  {
    MulLe(1, m, b.interval);
  }

  /** Of `m` outstanding from now on, one is committed, and `n` of the rest lie at `v` or later. */
  lemma RoomForRest(b: Bucket, now: Instant, v: Instant, m: nat, n: nat, included: bool)
    requires now <= v && n < m && Max(b.tat, now) + b.interval * m <= b.rtat
    requires included ==> Max(b.tat, v) + b.interval * (n + 1) <= b.rtat
    requires !included ==> Max(b.tat, v) + b.interval * n <= b.rtat
    ensures Max(AdvanceCommit(b, now).tat, v) + b.interval * n <= b.rtat
  {
    OneMore(b.interval, n);
    if !included { MulLe(n + 1, m, b.interval); }
  }

  // ---- Over runs -------------------------------------------------------------------------------------

  /** Every reservation of the run was handed an instant, and there is room at bucket `a`. */
  ghost predicate RoomAfter(h: Handle, ops: seq<Op>, a: Address) {
    var w := Run(h, ops);
    && HandleOk(w) && Has(w.engine, a) && |w.reservations| == |HandedOut(h, ops)|
    && Room(Lookup(w.engine, a), w.reservations, HandedOut(h, ops), a, Clock(h, ops))
  }

  /** What one operation does to the reservations and the bucket, if it is neither a header nor a release. */
  lemma OpAt(w: Handle, op: Op, a: Address)
    requires HandleOk(w) && Has(w.engine, a) && !op.GiveBack? && !op.Update?
    ensures var after, handed := Apply(w, op), Handed(w, op);
            && HandleOk(after) && Has(after.engine, a)
            && (handed != [] ==>
                  && |handed| == 1 && |after.reservations| == |w.reservations| + 1
                  && var picks := after.reservations[|w.reservations|].picks;
                     && after.reservations == w.reservations + [Reservation(picks, false)]
                     && Lookup(after.engine, a)
                        == if Touches(picks, a) then AdvanceReserve(Lookup(w.engine, a), handed[0]) else Lookup(w.engine, a))
            && (Commits(w, op) ==>
                  && handed == []
                  && var r := w.reservations[op.reservation];
                     && after.reservations == w.reservations[op.reservation := r.(done := true)]
                     && Lookup(after.engine, a)
                        == if Touches(r.picks, a) then AdvanceCommit(Lookup(w.engine, a), op.now) else Lookup(w.engine, a))
            && (handed == [] && !Commits(w, op) ==>
                  after.reservations == w.reservations && Lookup(after.engine, a) == Lookup(w.engine, a))
  {
    ApplyAt(w, op, a);
    hide Admissible, MayCommit, Admit, DoCommit, Lookup, Anchors;
  }

  lemma StepKeepsRoom(w: Handle, handed: seq<Instant>, clock: Option<Instant>, op: Op, a: Address)
    requires HandleOk(w) && Has(w.engine, a) && |w.reservations| == |handed|
    requires Room(Lookup(w.engine, a), w.reservations, handed, a, clock) && InTime(w, handed, clock, op)
    ensures var after := Apply(w, op);
            && HandleOk(after) && Has(after.engine, a) && |after.reservations| == |handed + Handed(w, op)|
            && Room(Lookup(after.engine, a), after.reservations, handed + Handed(w, op), a,
                    if Commits(w, op) then Some(op.now) else clock)
            && (Handed(w, op) == [] ==> Lookup(after.engine, a).rtat == Lookup(w.engine, a).rtat)
            && Lookup(after.engine, a).interval == Lookup(w.engine, a).interval
  {
    hide Apply, Lookup, Handed, Room, HandleOk, Has, Touches, MayCommit;
    OpAt(w, op, a);
    var b := Lookup(w.engine, a);
    if Handed(w, op) != [] {
      var picks := Apply(w, op).reservations[|w.reservations|].picks;
      AdmissionKeepsRoom(b, w.reservations, handed, picks, Handed(w, op)[0], a, clock);
      assert Handed(w, op) == [Handed(w, op)[0]];
    } else if Commits(w, op) {
      CommitKeepsRoom(b, w.reservations, handed, op.reservation, op.now, a, clock);
      assert handed + [] == handed;
    } else {
      assert handed + [] == handed;
    }
  }

  /** The admissions that reach bucket `a` over a run. */
  function AdmissionLog(h: Handle, ops: seq<Op>, a: Address): seq<TatEvent> {
    if ops == [] then []
    else
      var n := |ops| - 1;
      var fired := Fires(Run(h, ops[..n]), ops[n], Allocating, a);
      AdmissionLog(h, ops[..n], a) + if fired.Some? then [Spent(fired.value)] else []
  }

  lemma StartsWithRoom(h: Handle, a: Address)
    requires HandleOk(h) && h.reservations == [] && Has(h.engine, a) && Lookup(h.engine, a).tat <= Lookup(h.engine, a).rtat
    ensures RoomAfter(h, [], a)
  {
  }

  lemma {:induction false} RunKeepsRoom(h: Handle, ops: seq<Op>, a: Address)
    requires HandleOk(h) && h.reservations == [] && Has(h.engine, a) && Lookup(h.engine, a).tat <= Lookup(h.engine, a).rtat
    requires InTimeRun(h, ops)
    ensures RoomAfter(h, ops, a)
  {
    hide Apply, Lookup, Handed, Room, HandleOk, Has, InTime, Commits;
    if ops == [] {
      StartsWithRoom(h, a);
    } else {
      var n := |ops| - 1;
      RunKeepsRoom(h, ops[..n], a);
      StepKeepsRoom(Run(h, ops[..n]), HandedOut(h, ops[..n]), Clock(h, ops[..n]), ops[n], a);
    }
  }

  /** An admission moves the horizon as a commit would the other. */
  lemma AdmissionStep(w: Handle, handed: seq<Instant>, clock: Option<Instant>, op: Op, a: Address)
    requires HandleOk(w) && Has(w.engine, a) && |w.reservations| == |handed|
    requires Room(Lookup(w.engine, a), w.reservations, handed, a, clock) && InTime(w, handed, clock, op)
    ensures Has(Apply(w, op).engine, a)
    ensures var b, after, fired := Lookup(w.engine, a), Lookup(Apply(w, op).engine, a), Fires(w, op, Allocating, a);
            && after.interval == b.interval
            && after.rtat == if fired.Some? then Moved(b.rtat, b.interval, Spent(fired.value)) else b.rtat
  {
    StepKeepsRoom(w, handed, clock, op, a);
    OpAt(w, op, a);
    hide Apply, Lookup, Room, HandleOk, Has, Admissible, MayCommit;
  }

  /**
   In a run without headers and releases, with every commit in time, the allocation horizon is the
   replay of the admissions alone: commits do not touch it.
   */
  lemma {:induction false} AllocationIsReplay(h: Handle, ops: seq<Op>, a: Address)
    requires HandleOk(h) && h.reservations == [] && Has(h.engine, a) && Lookup(h.engine, a).tat <= Lookup(h.engine, a).rtat
    requires InTimeRun(h, ops)
    ensures Has(Run(h, ops).engine, a)
    ensures var b, after := Lookup(h.engine, a), Lookup(Run(h, ops).engine, a);
            after.interval == b.interval && after.rtat == Replay(b.rtat, b.interval, AdmissionLog(h, ops, a))
  {
    hide Apply, Lookup, Handed, Room, HandleOk, Has, InTime, Fires;
    if ops != [] {
      var n := |ops| - 1;
      var w := Run(h, ops[..n]);
      AllocationIsReplay(h, ops[..n], a);
      RunKeepsRoom(h, ops[..n], a);
      AdmissionStep(w, HandedOut(h, ops[..n]), Clock(h, ops[..n]), ops[n], a);
      var fired, b := Fires(w, ops[n], Allocating, a), Lookup(h.engine, a);
      var log := AdmissionLog(h, ops[..n], a);
      ReplayAppend(b.rtat, b.interval, log, if fired.Some? then Some(Spent(fired.value)) else None);
    }
  }

  // ---- With headers and releases ---------------------------------------------------------------------

  /** What moves an allocation horizon by design: an admission, or giving one back. */
  datatype Turn = Admitted(at: Instant) | Returned

  function TurnOf(h: Handle, op: Op, a: Address): Option<Turn> {
    var fired := Fires(h, op, Allocating, a);
    if fired.Some? then Some(Admitted(fired.value))
    else if Gives(h, op, a) then Some(Returned)
    else None
  }

  /** The admissions and releases that reach bucket `a` over a run. */
  function Turns(h: Handle, ops: seq<Op>, a: Address): seq<Turn> {
    if ops == [] then []
    else
      var n := |ops| - 1;
      var turn := TurnOf(Run(h, ops[..n]), ops[n], a);
      Turns(h, ops[..n], a) + if turn.Some? then [turn.value] else []
  }

  function Turned(rtat: Instant, interval: nat, turn: Turn): Instant {
    match turn
    case Admitted(at) => Max(rtat, at) + interval
    case Returned => rtat - interval
  }

  function Allocation(rtat: Instant, interval: nat, turns: seq<Turn>): Instant {
    if turns == [] then rtat
    else Turned(Allocation(rtat, interval, turns[..|turns| - 1]), interval, turns[|turns| - 1])
  }

  lemma AllocationAppend(rtat: Instant, interval: nat, turns: seq<Turn>, turn: Option<Turn>)
    ensures Allocation(rtat, interval, turns + if turn.Some? then [turn.value] else [])
         == if turn.Some? then Turned(Allocation(rtat, interval, turns), interval, turn.value)
            else Allocation(rtat, interval, turns)
  {
    if turn.Some? { assert (turns + [turn.value])[..|turns|] == turns; } else { assert turns + [] == turns; }
  }

  /** The commit horizon stays clear: a commit or header fits below the allocation horizon, and so does a release. */
  predicate Clear(h: Handle, op: Op, a: Address)
    requires Has(h.engine, a)
  {
    var b := Lookup(h.engine, a);
    && (Fires(h, op, Committing, a).Some? ==> Max(b.tat, Fires(h, op, Committing, a).value) + b.interval <= b.rtat)
    && (Anchors(h, op, a).Some? ==> Max(b.tat, Anchors(h, op, a).value) <= b.rtat)
    && (Gives(h, op, a) ==> b.tat <= b.rtat - b.interval)
  }

  lemma OneMeaning(h: Handle, op: Op, a: Address)
    ensures !(Fires(h, op, Committing, a).Some? && Gives(h, op, a))
    ensures !(Anchors(h, op, a).Some? && Gives(h, op, a))
    ensures !(Anchors(h, op, a).Some? && Fires(h, op, Committing, a).Some?)
  {
  }

  lemma TurnStep(h: Handle, op: Op, a: Address)
    requires Has(h.engine, a) && HandleOk(h)
    ensures HandleOk(Apply(h, op)) && Has(Apply(h, op).engine, a)
    ensures var b, after, turn := Lookup(h.engine, a), Lookup(Apply(h, op).engine, a), TurnOf(h, op, a);
            && after.interval == b.interval
            && (after.rtat == (if turn.Some? then Turned(b.rtat, b.interval, turn.value) else b.rtat) <==> Clear(h, op, a))
  {
    hide Apply, Fires, Anchors, Gives, HandleOk, Lookup;
    FiresOnce(h, op, a);
    OneMeaning(h, op, a);
    ApplyAt(h, op, a);
  }

  /** After the first `n` operations the allocation horizon is the replay of their admissions and releases. */
  ghost predicate Replayed(h: Handle, ops: seq<Op>, a: Address, n: nat)
    requires n <= |ops|
  {
    && Has(h.engine, a) && Has(Run(h, ops[..n]).engine, a)
    && var b, after := Lookup(h.engine, a), Lookup(Run(h, ops[..n]).engine, a);
       after.interval == b.interval && after.rtat == Allocation(b.rtat, b.interval, Turns(h, ops[..n], a))
  }

  ghost predicate ClearAt(h: Handle, ops: seq<Op>, a: Address, n: nat)
    requires n < |ops|
  {
    Has(Run(h, ops[..n]).engine, a) && Clear(Run(h, ops[..n]), ops[n], a)
  }

  lemma ReplaysOnIff(h: Handle, ops: seq<Op>, a: Address, n: nat)
    requires Has(h.engine, a) && HandleOk(h) && n < |ops| && Replayed(h, ops, a, n)
    ensures Replayed(h, ops, a, n + 1) <==> ClearAt(h, ops, a, n)
  {
    hide Apply, TurnOf, Clear, Allocation, Turned, Lookup, HandleOk, Has;
    CommitHorizonIsReplay(h, ops[..n], a);
    var w, b := Run(h, ops[..n]), Lookup(h.engine, a);
    TurnStep(w, ops[n], a);
    AllocationAppend(b.rtat, b.interval, Turns(h, ops[..n], a), TurnOf(w, ops[n], a));
    assert ops[..n + 1][..n] == ops[..n] && ops[..n + 1][n] == ops[n];
  }

  /**
   Any run, headers and releases included: the allocation horizon is all along the replay of the
   admissions and releases alone exactly if no commit, header or release ever runs into the other horizon.
   */
  lemma {:induction false} AllocationIsReplayIff(h: Handle, ops: seq<Op>, a: Address, n: nat)
    requires Has(h.engine, a) && HandleOk(h) && n <= |ops|
    ensures (forall m | 0 <= m <= n :: Replayed(h, ops, a, m)) <==> (forall m | 0 <= m < n :: ClearAt(h, ops, a, m))
  {
    hide Replayed, ClearAt, HandleOk, Has;
    if n == 0 {
      StartsReplayed(h, ops, a);
    } else {
      AllocationIsReplayIff(h, ops, a, n - 1);
      if Replayed(h, ops, a, n - 1) { ReplaysOnIff(h, ops, a, n - 1); }
    }
  }

  lemma StartsReplayed(h: Handle, ops: seq<Op>, a: Address)
    requires Has(h.engine, a)
    ensures Replayed(h, ops, a, 0)
  {
    assert ops[..0] == [];
  }

  // ---- One bucket ----------------------------------------------------------------------------------------

  /** A single shared bucket. */
  function One(b: Bucket, reservations: seq<Reservation>): Handle {
    Handle(Engine([b], []), reservations)
  }

  lemma OneChanges(b: Bucket, change: Bucket -> Bucket)
    ensures ChangeTouched(Engine([b], []), [], change) == Engine([change(b)], [])
  {
    assert MapBuckets([b], change) == [change(b)];
  }

  lemma OneReserves(b: Bucket, reservations: seq<Reservation>, deadline: Instant, now: Instant)
    requires now + Max(Slack(b, Allocating, now), 0) <= deadline
    ensures var h, op, at := One(b, reservations), Reserve([], deadline, now), now + Max(Slack(b, Allocating, now), 0);
            && Apply(h, op) == One(AdvanceReserve(b, at), reservations + [Reservation([], false)])
            && Handed(h, op) == [at] && TurnOf(h, op, Shared(0)) == Some(Admitted(at))
  {
    hide ChangeTouched, Admissible;
    SharedOnly(Engine([b], []), [], deadline, now);
    OneChanges(b, b' => AdvanceReserve(b', now + Max(Slack(b, Allocating, now), 0)));
  }

  lemma OneCommits(b: Bucket, reservations: seq<Reservation>, r: nat, now: Instant)
    requires r < |reservations| && reservations[r].picks == [] && Slack(b, Committing, now) <= 0
    ensures var h, op := One(b, reservations), TryCommit(r, now);
            && Apply(h, op) == One(AdvanceCommit(b, now), reservations[r := Reservation([], true)])
            && Handed(h, op) == [] && TurnOf(h, op, Shared(0)) == None
  {
    OneChanges(b, b' => AdvanceCommit(b', now));
    hide ChangeTouched;
  }

  lemma OneReturns(b: Bucket, reservations: seq<Reservation>, r: nat)
    requires r < |reservations| && reservations[r] == Reservation([], false)
    ensures var h, op := One(b, reservations), GiveBack(r);
            && Apply(h, op) == One(ReleaseReserve(b), reservations[r := Reservation([], true)])
            && Handed(h, op) == [] && TurnOf(h, op, Shared(0)) == Some(Returned)
  {
    OneChanges(b, b' => ReleaseReserve(b'));
    hide ChangeTouched;
  }

  /** After these operations: where the handle is, what it handed out, what turned its bucket's horizon. */
  predicate Reached(h: Handle, ops: seq<Op>, w: Handle, handed: seq<Instant>, turns: seq<Turn>) {
    Run(h, ops) == w && HandedOut(h, ops) == handed && Turns(h, ops, Shared(0)) == turns
  }

  lemma Starts(h: Handle)
    ensures Reached(h, [], h, [], [])
  {
  }

  lemma Next(h: Handle, ops: seq<Op>, w: Handle, handed: seq<Instant>, turns: seq<Turn>, op: Op)
    requires Reached(h, ops, w, handed, turns)
    ensures var turn := TurnOf(w, op, Shared(0));
            Reached(h, ops + [op], Apply(w, op), handed + Handed(w, op), turns + if turn.Some? then [turn.value] else [])
  {
    hide Apply, Handed, TurnOf;
    assert (ops + [op])[..|ops|] == ops;
  }

  const OPEN := Reservation([], false)
  const DONE := Reservation([], true)

  lemma NextReserve(h: Handle, ops: seq<Op>, b: Bucket, rs: seq<Reservation>, handed: seq<Instant>, turns: seq<Turn>,
                    now: Instant, at: Instant)
    requires Reached(h, ops, One(b, rs), handed, turns) && at == now + Max(Slack(b, Allocating, now), 0)
    ensures Reached(h, ops + [Reserve([], at, now)], One(AdvanceReserve(b, at), rs + [OPEN]),
                    handed + [at], turns + [Admitted(at)])
  {
    Next(h, ops, One(b, rs), handed, turns, Reserve([], at, now));
    OneReserves(b, rs, at, now);
    hide Apply, Handed, TurnOf, Reached;
  }

  lemma NextCommit(h: Handle, ops: seq<Op>, b: Bucket, rs: seq<Reservation>, handed: seq<Instant>, turns: seq<Turn>,
                   r: nat, now: Instant)
    requires Reached(h, ops, One(b, rs), handed, turns) && r < |rs| && rs[r] == OPEN && Slack(b, Committing, now) <= 0
    ensures Reached(h, ops + [TryCommit(r, now)], One(AdvanceCommit(b, now), rs[r := DONE]), handed, turns)
  {
    Next(h, ops, One(b, rs), handed, turns, TryCommit(r, now));
    OneCommits(b, rs, r, now);
    hide Apply, Handed, TurnOf, Reached;
    assert handed + [] == handed && turns + [] == turns;
  }

  lemma NextReturn(h: Handle, ops: seq<Op>, b: Bucket, rs: seq<Reservation>, handed: seq<Instant>, turns: seq<Turn>, r: nat)
    requires Reached(h, ops, One(b, rs), handed, turns) && r < |rs| && rs[r] == OPEN
    ensures Reached(h, ops + [GiveBack(r)], One(ReleaseReserve(b), rs[r := DONE]), handed, turns + [Returned])
  {
    Next(h, ops, One(b, rs), handed, turns, GiveBack(r));
    OneReturns(b, rs, r);
    hide Apply, Handed, TurnOf, Reached;
    assert handed + [] == handed;
  }

  /** Ten tokens, one every ten units, idle since 0. */
  const TEN := Bucket("rps", 10, 90, 0, 0)

  /** Two reservations handed 0 and 100, then the older is given back. */
  const STALE_RELEASE := [Reserve([], 0, 0), Reserve([], 100, 100), GiveBack(0)]

  const TURNS := [Admitted(0), Admitted(100), Returned]

  /**
   After the release of an older reservation, committing the newer at the very instant it was handed
   moves the allocation horizon to 110, where the admissions and releases alone leave 100.
   */
  lemma CommitAfterStaleRelease()
    ensures var h := One(TEN, []);
            && Run(h, STALE_RELEASE).engine.shared == [TEN.(rtat := 100)]
            && Run(h, STALE_RELEASE + [TryCommit(1, 100)]).engine.shared == [TEN.(tat := 110, rtat := 110)]
            && HandedOut(h, STALE_RELEASE) == [0, 100]
            && Turns(h, STALE_RELEASE + [TryCommit(1, 100)], Shared(0)) == TURNS && Allocation(0, 10, TURNS) == 100
  {
    hide Run, HandedOut, Turns;
    var h, b, c := One(TEN, []), TEN.(rtat := 10), TEN.(rtat := 110);
    Starts(h);
    NextReserve(h, [], TEN, [], [], [], 0, 0);
    var ops, rs, handed, turns := [] + [Reserve([], 0, 0)], [] + [OPEN], [] + [0], [] + [Admitted(0)];
    assert STALE_RELEASE == ops + [Reserve([], 100, 100)] + [GiveBack(0)];
    assert TURNS == turns + [Admitted(100)] + [Returned] && [0, 100] == handed + [100];
    NextReserve(h, ops, b, rs, handed, turns, 100, 100);
    NextReturn(h, ops + [Reserve([], 100, 100)], c, rs + [OPEN], handed + [100], turns + [Admitted(100)], 0);
    NextCommit(h, STALE_RELEASE, TEN.(rtat := 100), (rs + [OPEN])[0 := DONE], handed + [100], TURNS, 1, 100);
    FoldsTo100();
  }

  lemma FoldsTo100()
    ensures Allocation(0, 10, TURNS) == 100
  {
    assert TURNS == [] + [Admitted(0)] + [Admitted(100)] + [Returned];
    AllocationAppend(0, 10, [], Some(Admitted(0)));
    AllocationAppend(0, 10, [] + [Admitted(0)], Some(Admitted(100)));
    AllocationAppend(0, 10, [] + [Admitted(0)] + [Admitted(100)], Some(Returned));
  }

  /** A single token reserved and committed at 0: the next reservation is handed 10, one interval on. */
  lemma CommitCostsOneSlot()
    ensures HandedOut(One(Bucket("rps", 10, 0, 0, 0), []), [Reserve([], 0, 0), TryCommit(0, 0), Reserve([], 10, 0)]) == [0, 10]
  {
    hide Run, HandedOut, Turns;
    var b := Bucket("rps", 10, 0, 0, 0);
    var h := One(b, []);
    Starts(h);
    NextReserve(h, [], b, [], [], [], 0, 0);
    var ops, rs, handed, turns := [] + [Reserve([], 0, 0)], [] + [OPEN], [] + [0], [] + [Admitted(0)];
    NextCommit(h, ops, b.(rtat := 10), rs, handed, turns, 0, 0);
    NextReserve(h, ops + [TryCommit(0, 0)], b.(tat := 10, rtat := 10), rs[0 := DONE], handed, turns, 0, 10);
    assert [Reserve([], 0, 0), TryCommit(0, 0), Reserve([], 10, 0)] == ops + [TryCommit(0, 0)] + [Reserve([], 10, 0)];
    assert handed + [10] == [0, 10];
  }
}
