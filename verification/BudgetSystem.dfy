/**
 Any number of sessions sharing one frame budget, interleaved between any two of their accesses
 to it: reading the free permits, taking some, asking for one, returning some.
 */
module BudgetSystem {
  import opened Basics
  import opened SessionModel
  import opened SessionInvariant
  import opened SessionRuns
  import opened SessionProgress

  /** How far a session has come in opening or in its current poll. */
  datatype Stage =
    | Idle
    | Opening(desired: Positive)
    | OpeningCounted(desired: Positive, missing: nat)
    | Checked(env: Env)
    | Counted(env: Env, missing: nat)
    | Grown(env: Env)
    | Asked(env: Env)
    | Allotted(env: Env)
    | Filling(env: Env, woke: bool, parked: set<Waker>)

  /** A live driver is polled on; a dead one failed and only waits to be dropped. */
  datatype Slot = Empty | Live(session: Session, stage: Stage) | Dead(session: Session)

  /** `wakes` counts, as history, the polls of each slot that woke themselves. */
  datatype System = System(capacity: nat, available: nat, slots: seq<Slot>, wakes: seq<nat>)

  datatype Action =
    | Open(first: nat, last: nat, desired: Positive)
    | Start(slot: nat, env: Env)
    | Advance(slot: nat)
    | GrantTicket(slot: nat)
    | DropSlot(slot: nat)

  function SlotHeld(slot: Slot): nat {
    if slot.Empty? then 0 else Held(slot.session)
  }

  function TotalHeld(slots: seq<Slot>): nat {
    if slots == [] then 0 else SlotHeld(slots[0]) + TotalHeld(slots[1..])
  }

  /** Frames sitting in the buffers of one slot's plans. */
  function BufferedOf(p: Plan): int { |p.buffer| }

  function SlotBuffered(slot: Slot): int {
    if slot.Live? then Total(BufferedOf, slot.session.plans) else 0
  }

  function TotalBuffered(slots: seq<Slot>): int {
    if slots == [] then 0 else SlotBuffered(slots[0]) + TotalBuffered(slots[1..])
  }

  // ---- Steps ----------------------------------------------------------------------------------

  /** A slot after a step, with the budget's free permits, and whether the step ended a poll that woke itself. */
  datatype Moved = Moved(slot: Slot, available: nat, woke: bool)

  function Missing(s: Session, desired: nat, available: nat): nat {
    Min(Max(desired - s.allocation, 0), available)
  }

  /** `try_reserve` of what was free a moment ago; others may have been faster. */
  function TryGrow(s: Session, available: nat, missing: nat): (f: Funded)
    ensures Funds(s, available, f) && f.session.allocation >= s.allocation
  {
    if missing == 0 || (missing <= U32_MAX && missing > available) then Funded(s, available, true)
    else if missing > U32_MAX then Funded(s, available, false)
    else Funded(s.(allocation := s.allocation + missing), available - missing, true)
  }

  /** The first access of a poll: the outstanding ticket. */
  function StartPoll(s: Session, env: Env, available: nat): Moved {
    if env.desired.None? then Moved(Dead(s), available, false)
    else
      var polled := PollTicket(s, available, env.desired.value);
      Moved(Live(polled.session, Checked(env)), polled.available, false)
  }

  /** How a fill goes on: it failed, it is done, or the sink is next. */
  function AfterFill(f: Filled, env: Env): Moved {
    match f.phase
    case Aborted => Moved(Dead(f.session), f.available, f.woke)
    case Closing => AfterEmit(Close(f, env))
    case InProgress => Moved(Live(f.session, Filling(env, f.woke, f.parked)), f.available, false)
  }

  function AfterEmit(o: Outcome): Moved {
    Moved(if o.phase.Aborted? then Dead(o.session) else Live(o.session, Idle), o.available, o.woke)
  }

  /** The next access of a session to the budget, and what it does before the one after. */
  function Next(s: Session, stage: Stage, available: nat): Moved
    requires StagePossible(stage)
  {
    match stage
    case Idle => Moved(Live(s, Idle), available, false)
    case Opening(desired) => Moved(Live(s, OpeningCounted(desired, Missing(s, desired, available))), available, false)
    case OpeningCounted(desired, missing) =>
      var grown := TryGrow(s, available, missing);
      if grown.ok then Moved(Live(grown.session, Idle), grown.available, false)
      else Moved(Empty, available + Held(s), false)
    case Checked(env) => Moved(Live(s, Counted(env, Missing(s, env.desired.value, available))), available, false)
    case Counted(env, missing) =>
      var grown := TryGrow(s, available, missing);
      if grown.ok then Moved(Live(grown.session, Grown(env)), grown.available, false) else Moved(Dead(s), available, false)
    case Grown(env) =>
      var asked := RequestTicket(s, available, env.desired.value);
      Moved(Live(asked.session, Asked(env)), asked.available, false)
    case Asked(env) =>
      var kept := ShrinkTo(s, available, Max(Capacity(s, env.desired.value), Committed(s.plans)));
      Moved(if env.prefetch.None? then Dead(kept.session) else Live(kept.session, Allotted(env)), kept.available, false)
    case Allotted(env) => AfterFill(FillFunded(s, available, env), env)
    case Filling(env, woke, parked) => AfterEmit(Emit(Filled(s, available, InProgress, woke, parked), env))
  }

  predicate StagePossible(stage: Stage) {
    match stage
    case Idle => true
    case Opening(_) => true
    case OpeningCounted(_, _) => true
    case Allotted(env) => env.desired.Some? && env.prefetch.Some?
    case _ => stage.env.desired.Some?
  }

  function Put(sys: System, i: nat, m: Moved): System
    requires i < |sys.slots| == |sys.wakes|
  {
    sys.(available := m.available,
         slots := sys.slots[i := m.slot],
         wakes := sys.wakes[i := sys.wakes[i] + if m.woke then 1 else 0])
  }

  /** A granted ticket is set aside for its session, whatever stage it is in. */
  function Act(sys: System, action: Action): (after: System)
    requires |sys.wakes| == |sys.slots|
    ensures |after.wakes| == |after.slots|
  {
    match action
    case Open(first, last, desired) =>
      if first >= last || sys.available < 1 then sys
      else
        var session := Session(first, last, [], 1, NoTicket, 0, false, [], [], 0);
        sys.(available := sys.available - 1, slots := sys.slots + [Live(session, Opening(desired))], wakes := sys.wakes + [0])
    case Start(i, env) =>
      if i >= |sys.slots| || !sys.slots[i].Live? || !sys.slots[i].stage.Idle? then sys
      else Put(sys, i, StartPoll(sys.slots[i].session, env, sys.available))
    case Advance(i) =>
      if i >= |sys.slots| || !sys.slots[i].Live? || !StagePossible(sys.slots[i].stage) then sys
      else Put(sys, i, Next(sys.slots[i].session, sys.slots[i].stage, sys.available))
    case GrantTicket(i) =>
      if i >= |sys.slots| || !sys.slots[i].Live? || !sys.slots[i].session.ticket.Waiting? || sys.available < 1 then sys
      else
        var granted := sys.slots[i].session.(ticket := Granted);
        Put(sys, i, Moved(Live(granted, sys.slots[i].stage), sys.available - 1, false))
    case DropSlot(i) =>
      if i >= |sys.slots| then sys else Put(sys, i, Moved(Empty, sys.available + SlotHeld(sys.slots[i]), false))
  }

  function ActAll(sys: System, actions: seq<Action>): (after: System)
    requires |sys.wakes| == |sys.slots|
    ensures |after.wakes| == |after.slots|
  {
    if actions == [] then sys else Act(ActAll(sys, actions[..|actions| - 1]), actions[|actions| - 1])
  }

  // ---- A poll nobody interrupts ----------------------------------------------------------------

  /** Steps of one slot with nothing in between. */
  function Steps(m: Moved, n: nat): Moved
    decreases n
  {
    if n == 0 || !m.slot.Live? || m.slot.stage.Idle? || !StagePossible(m.slot.stage) then m
    else Steps(Next(m.slot.session, m.slot.stage, m.available), n - 1)
  }

  lemma StepsOne(m: Moved, n: nat)
    requires n > 0 && m.slot.Live? && StagePossible(m.slot.stage) && !m.slot.stage.Idle?
    ensures Steps(m, n) == Steps(Next(m.slot.session, m.slot.stage, m.available), n - 1)
  {
  }

  lemma StepsRest(m: Moved, n: nat)
    requires !m.slot.Live? || m.slot.stage.Idle?
    ensures Steps(m, n) == m
  {
  }

  /** Without interruption the steps of refreshing are `Refresh`. */
  lemma UndisturbedRefresh(s: Session, available: nat, env: Env)
    ensures var funded, m := Refresh(s, available, env), Steps(StartPoll(s, env, available), 4);
            && m.available == funded.available && !m.woke
            && (funded.ok ==> m.slot == Live(funded.session, Allotted(env)))
            && (!funded.ok ==> m.slot == Dead(funded.session))
  {
    hide PollTicket, RequestTicket, ShrinkTo, Steps, Committed;
    var m := StartPoll(s, env, available);
    if env.desired.None? {
      StepsRest(m, 4);
    } else {
      var desired := env.desired.value;
      StepsOne(m, 4);
      var counted := Next(m.slot.session, m.slot.stage, m.available);
      StepsOne(counted, 3);
      var grown := Next(counted.slot.session, counted.slot.stage, counted.available);
      if grown.slot.Dead? {
        StepsRest(grown, 2);
      } else {
        StepsOne(grown, 2);
        var asked := Next(grown.slot.session, grown.slot.stage, grown.available);
        StepsOne(asked, 1);
        StepsNone(Next(asked.slot.session, asked.slot.stage, asked.available));
      }
    }
  }

  lemma StepsNone(m: Moved)
    ensures Steps(m, 0) == m
  {
  }

  lemma {:induction false} StepsAdd(m: Moved, a: nat, b: nat)
    ensures Steps(m, a + b) == Steps(Steps(m, a), b)
    decreases a
  {
    hide Next;
    if a > 0 && m.slot.Live? && !m.slot.stage.Idle? && StagePossible(m.slot.stage) {
      StepsAdd(Next(m.slot.session, m.slot.stage, m.available), a - 1, b);
    }
  }

  /** Without interruption the steps of a poll are `Poll`. */
  lemma UndisturbedPoll(s: Session, available: nat, env: Env)
    ensures Steps(StartPoll(s, env, available), 6) == AfterEmit(Poll(s, available, env))
  {
    hide Refresh, FillFunded, Emit, Steps, StartPoll;
    UndisturbedRefresh(s, available, env);
    StepsAdd(StartPoll(s, env, available), 4, 2);
    var funded, m := Refresh(s, available, env), Steps(StartPoll(s, env, available), 4);
    if !funded.ok {
      StepsRest(m, 2);
    } else {
      StepsOne(m, 2);
      var f := FillFunded(funded.session, funded.available, env);
      var filled := AfterFill(f, env);
      if f.phase.InProgress? {
        StepsOne(filled, 1);
        StepsNone(Next(filled.slot.session, filled.slot.stage, filled.available));
      } else {
        StepsRest(filled, 1);
      }
    }
  }

  // ---- Conservation ------------------------------------------------------------------------------

  lemma {:induction false} TotalHeldUpdate(slots: seq<Slot>, i: nat, slot: Slot)
    requires i < |slots|
    ensures TotalHeld(slots[i := slot]) == TotalHeld(slots) - SlotHeld(slots[i]) + SlotHeld(slot)
  {
    if i == 0 {
      assert slots[0 := slot][1..] == slots[1..];
    } else {
      assert slots[i := slot][1..] == slots[1..][i - 1 := slot];
      TotalHeldUpdate(slots[1..], i - 1, slot);
    }
  }

  lemma {:induction false} TotalHeldAppend(slots: seq<Slot>, slot: Slot)
    ensures TotalHeld(slots + [slot]) == TotalHeld(slots) + SlotHeld(slot)
  {
    if slots == [] {
      assert slots + [slot] == [slot];
    } else {
      assert (slots + [slot])[1..] == slots[1..] + [slot];
      TotalHeldAppend(slots[1..], slot);
    }
  }

  /** The environment a stage carries is possible there and honest. */
  ghost predicate StageOk(serve: Serve, stage: Stage) {
    StagePossible(stage) && (!stage.Idle? && !stage.Opening? && !stage.OpeningCounted? ==> Honest(serve, stage.env))
  }

  /** A live session is in good order at every stage; a dead one still sent frames in order. */
  ghost predicate SlotOk(serve: Serve, slot: Slot) {
    match slot
    case Empty => true
    case Live(session, stage) => Settled(serve, session) && StageOk(serve, stage)
    case Dead(session) => Ordered(serve, session)
  }

  ghost predicate SystemInv(serves: nat -> Serve, sys: System) {
    && sys.available + TotalHeld(sys.slots) == sys.capacity
    && forall i | 0 <= i < |sys.slots| :: SlotOk(serves(i), sys.slots[i])
  }

  ghost predicate HonestAction(serves: nat -> Serve, action: Action) {
    action.Start? ==> Honest(serves(action.slot), action.env)
  }

  /** A step moves permits between the slot and the budget, and leaves the slot in good order. */
  ghost predicate MovedOk(serve: Serve, slot: Slot, available: nat, m: Moved) {
    SlotOk(serve, m.slot) && m.available + SlotHeld(m.slot) == available + SlotHeld(slot)
  }

  lemma FundedSettled(serve: Serve, s: Session, available: nat, f: Funded)
    requires Settled(serve, s) && Funds(s, available, f) && f.session.allocation >= Max(1, Committed(s.plans))
    ensures Settled(serve, f.session)
  {
    FundingKeepsInv(serve, s, available, f);
    hide Inv;
  }

  lemma SettledFacts(serve: Serve, s: Session)
    requires Settled(serve, s)
    ensures Ordered(serve, s) && s.allocation >= Max(1, Committed(s.plans))
  {
    InvOrdered(serve, s);
  }

  lemma StartKeeps(serve: Serve, s: Session, env: Env, available: nat)
    requires Settled(serve, s) && Honest(serve, env)
    ensures MovedOk(serve, Live(s, Idle), available, StartPoll(s, env, available))
  {
    hide Settled, Ordered, Honest, Committed;
    SettledFacts(serve, s);
    if env.desired.Some? { FundedSettled(serve, s, available, PollTicket(s, available, env.desired.value)); }
  }

  lemma GrowKeeps(serve: Serve, s: Session, stage: Stage, available: nat)
    requires Settled(serve, s) && StageOk(serve, stage) && (stage.OpeningCounted? || stage.Counted?)
    ensures MovedOk(serve, Live(s, stage), available, Next(s, stage, available))
  {
    hide Settled, Ordered, Honest, Committed;
    SettledFacts(serve, s);
    FundedSettled(serve, s, available, TryGrow(s, available, stage.missing));
  }

  lemma AskKeeps(serve: Serve, s: Session, env: Env, available: nat)
    requires Settled(serve, s) && StageOk(serve, Grown(env))
    ensures MovedOk(serve, Live(s, Grown(env)), available, Next(s, Grown(env), available))
  {
    hide Settled, Ordered, Honest, Committed;
    SettledFacts(serve, s);
    FundedSettled(serve, s, available, RequestTicket(s, available, env.desired.value));
  }

  lemma SettleKeeps(serve: Serve, s: Session, env: Env, available: nat)
    requires Settled(serve, s) && StageOk(serve, Asked(env))
    ensures MovedOk(serve, Live(s, Asked(env)), available, Next(s, Asked(env), available))
  {
    hide Settled, Ordered, Honest, Committed;
    SettledFacts(serve, s);
    var kept := ShrinkTo(s, available, Max(Capacity(s, env.desired.value), Committed(s.plans)));
    FundedSettled(serve, s, available, kept);
    SettledFacts(serve, kept.session);
  }

  lemma FillStepKeeps(serve: Serve, s: Session, env: Env, available: nat)
    requires Settled(serve, s) && StageOk(serve, Allotted(env))
    ensures MovedOk(serve, Live(s, Allotted(env)), available, Next(s, Allotted(env), available))
  {
    hide Inv, Ordered, Honest, FillFunded;
    FillFundedKeeps(serve, s, available, env);
    var f := FillFunded(s, available, env);
    InvOrdered(serve, f.session);
  }

  lemma EmitStepKeeps(serve: Serve, s: Session, stage: Stage, available: nat)
    requires Settled(serve, s) && StageOk(serve, stage) && stage.Filling?
    ensures MovedOk(serve, Live(s, stage), available, Next(s, stage, available))
  {
    hide Inv, Ordered, Honest, Emit;
    EmitKeeps(serve, Filled(s, available, InProgress, stage.woke, stage.parked), stage.env);
  }

  lemma NextKeeps(serve: Serve, s: Session, stage: Stage, available: nat)
    requires Settled(serve, s) && StageOk(serve, stage)
    ensures MovedOk(serve, Live(s, stage), available, Next(s, stage, available))
  {
    match stage {
      case OpeningCounted(_, _) => GrowKeeps(serve, s, stage, available);
      case Counted(_, _) => GrowKeeps(serve, s, stage, available);
      case Grown(env) => AskKeeps(serve, s, env, available);
      case Asked(env) => SettleKeeps(serve, s, env, available);
      case Allotted(env) => FillStepKeeps(serve, s, env, available);
      case Filling(_, _, _) => EmitStepKeeps(serve, s, stage, available);
      case _ => { hide Settled, Honest, Held; }
    }
  }

  lemma PutKeeps(serves: nat -> Serve, sys: System, i: nat, m: Moved)
    requires SystemInv(serves, sys) && i < |sys.slots| == |sys.wakes| && MovedOk(serves(i), sys.slots[i], sys.available, m)
    ensures SystemInv(serves, Put(sys, i, m))
  {
    hide SlotOk, SlotHeld;
    TotalHeldUpdate(sys.slots, i, m.slot);
  }

  lemma OpenedSettled(serve: Serve, first: nat, last: nat)
    requires first < last
    ensures Settled(serve, Session(first, last, [], 1, NoTicket, 0, false, [], [], 0))
  {
  }

  lemma GrantedOk(serve: Serve, s: Session, stage: Stage, available: nat)
    requires SlotOk(serve, Live(s, stage)) && s.ticket.Waiting? && available >= 1
    ensures MovedOk(serve, Live(s, stage), available, Moved(Live(s.(ticket := Granted), stage), available - 1, false))
  {
    InvOrdered(serve, s);
    GrantKeeps(serve, s);
    hide Inv, Ordered, Honest;
  }

  /** Any step of any session keeps the permits and every session in good order. */
  lemma ActKeeps(serves: nat -> Serve, sys: System, action: Action)
    requires SystemInv(serves, sys) && HonestAction(serves, action) && |sys.wakes| == |sys.slots|
    ensures SystemInv(serves, Act(sys, action)) && Act(sys, action).capacity == sys.capacity
  {
    hide Settled, Honest, Next, StartPoll, MovedOk, Ordered;
    match action
    case Open(first, last, desired) =>
      if first < last && sys.available >= 1 {
        var session := Session(first, last, [], 1, NoTicket, 0, false, [], [], 0);
        OpenedSettled(serves(|sys.slots|), first, last);
        TotalHeldAppend(sys.slots, Live(session, Opening(desired)));
      }
    case Start(i, env) =>
      if i < |sys.slots| && sys.slots[i].Live? && sys.slots[i].stage.Idle? {
        StartKeeps(serves(i), sys.slots[i].session, env, sys.available);
        PutKeeps(serves, sys, i, StartPoll(sys.slots[i].session, env, sys.available));
      }
    case Advance(i) =>
      if i < |sys.slots| && sys.slots[i].Live? && StagePossible(sys.slots[i].stage) {
        NextKeeps(serves(i), sys.slots[i].session, sys.slots[i].stage, sys.available);
        PutKeeps(serves, sys, i, Next(sys.slots[i].session, sys.slots[i].stage, sys.available));
      }
    case GrantTicket(i) =>
      if i < |sys.slots| && sys.slots[i].Live? && sys.slots[i].session.ticket.Waiting? && sys.available >= 1 {
        var s, stage := sys.slots[i].session, sys.slots[i].stage;
        GrantedOk(serves(i), s, stage, sys.available);
        PutKeeps(serves, sys, i, Moved(Live(s.(ticket := Granted), stage), sys.available - 1, false));
      }
    case DropSlot(i) =>
      if i < |sys.slots| {
        DroppedOk(serves(i), sys.slots[i], sys.available);
        PutKeeps(serves, sys, i, Moved(Empty, sys.available + SlotHeld(sys.slots[i]), false));
      }
  }

  lemma DroppedOk(serve: Serve, slot: Slot, available: nat)
    ensures MovedOk(serve, slot, available, Moved(Empty, available + SlotHeld(slot), false))
  {
  }

  // ---- Self-waking -----------------------------------------------------------------------------------

  /** The wakes counted so far, and the one a fill has announced, are covered by progress made. */
  ghost predicate WakesCovered(slot: Slot, wakes: nat) {
    match slot
    case Empty => true
    case Live(s, stage) => wakes + (if stage.Filling? && stage.woke then 1 else 0) <= Progress(s)
    case Dead(s) => wakes <= 3 * (s.last - s.first) + 1
  }

  lemma StartCovered(serve: Serve, s: Session, env: Env, available: nat, wakes: nat)
    requires Settled(serve, s) && WakesCovered(Live(s, Idle), wakes)
    ensures WakesCovered(StartPoll(s, env, available).slot, wakes) && !StartPoll(s, env, available).woke
  {
    ProgressBounded(serve, s);
    hide Settled, Total;
  }

  lemma FillCovered(serve: Serve, s: Session, env: Env, available: nat, wakes: nat)
    requires Settled(serve, s) && StageOk(serve, Allotted(env)) && WakesCovered(Live(s, Allotted(env)), wakes)
    ensures var m := Next(s, Allotted(env), available);
            WakesCovered(m.slot, wakes + if m.woke then 1 else 0)
  {
    hide Inv, Honest, FillFunded, Progress;
    FillFundedKeeps(serve, s, available, env);
    FillFundedProgress(serve, s, available, env);
    ProgressBounded(serve, s);
  }

  /** An emission pays for the wake it causes, and for the one its fill announced. */
  lemma EmitCovered(serve: Serve, s: Session, stage: Stage, available: nat, wakes: nat)
    requires Settled(serve, s) && StageOk(serve, stage) && stage.Filling? && WakesCovered(Live(s, stage), wakes)
    ensures var m := Next(s, stage, available);
            WakesCovered(m.slot, wakes + if m.woke then 1 else 0)
  {
    hide Inv, Honest, Emit, Progress, Held;
    ProgressBounded(serve, s);
    EmitProgress(serve, Filled(s, available, InProgress, stage.woke, stage.parked), stage.env);
  }

  lemma NextCovered(serve: Serve, s: Session, stage: Stage, available: nat, wakes: nat)
    requires Settled(serve, s) && StageOk(serve, stage) && WakesCovered(Live(s, stage), wakes)
    ensures var m := Next(s, stage, available);
            WakesCovered(m.slot, wakes + if m.woke then 1 else 0)
  {
    match stage {
      case Allotted(env) => FillCovered(serve, s, env, available, wakes);
      case Filling(_, _, _) => EmitCovered(serve, s, stage, available, wakes);
      case _ => {
        ProgressBounded(serve, s);
        hide Settled, Honest, Total, Committed;
      }
    }
  }

  lemma GrantCovered(s: Session, stage: Stage, wakes: nat)
    requires WakesCovered(Live(s, stage), wakes)
    ensures WakesCovered(Live(s.(ticket := Granted), stage), wakes)
  {
  }

  lemma OpenCovered(first: nat, last: nat, desired: Positive)
    ensures WakesCovered(Live(Session(first, last, [], 1, NoTicket, 0, false, [], [], 0), Opening(desired)), 0)
  {
  }

  ghost predicate AllCovered(sys: System) {
    |sys.wakes| == |sys.slots| && forall i | 0 <= i < |sys.slots| :: WakesCovered(sys.slots[i], sys.wakes[i])
  }

  lemma ActCovers(serves: nat -> Serve, sys: System, action: Action)
    requires SystemInv(serves, sys) && HonestAction(serves, action) && AllCovered(sys)
    ensures AllCovered(Act(sys, action))
  {
    hide Settled, Honest, Next, StartPoll, WakesCovered;
    match action
    case Open(first, last, desired) => OpenCovered(first, last, desired);
    case Start(i, env) =>
      if i < |sys.slots| && sys.slots[i].Live? && sys.slots[i].stage.Idle? {
        assert SlotOk(serves(i), sys.slots[i]);
        StartCovered(serves(i), sys.slots[i].session, env, sys.available, sys.wakes[i]);
      }
    case Advance(i) =>
      if i < |sys.slots| && sys.slots[i].Live? && StagePossible(sys.slots[i].stage) {
        assert SlotOk(serves(i), sys.slots[i]);
        NextCovered(serves(i), sys.slots[i].session, sys.slots[i].stage, sys.available, sys.wakes[i]);
      }
    case GrantTicket(i) =>
      if i < |sys.slots| && sys.slots[i].Live? { GrantCovered(sys.slots[i].session, sys.slots[i].stage, sys.wakes[i]); }
    case DropSlot(i) =>
      if i < |sys.slots| { EmptyCovered(sys.wakes[i]); }
  }

  lemma EmptyCovered(wakes: nat)
    ensures WakesCovered(Empty, wakes)
  {
  }

  lemma {:induction false} SystemCovers(serves: nat -> Serve, capacity: nat, actions: seq<Action>)
    requires forall i | 0 <= i < |actions| :: HonestAction(serves, actions[i])
    ensures AllCovered(ActAll(System(capacity, capacity, [], []), actions))
  {
    hide SystemInv, Act, HonestAction, WakesCovered;
    if actions != [] {
      var n := |actions| - 1;
      SystemCovers(serves, capacity, actions[..n]);
      SystemKeeps(serves, capacity, actions[..n]);
      assert HonestAction(serves, actions[n]);
      ActCovers(serves, ActAll(System(capacity, capacity, [], []), actions[..n]), actions[n]);
    }
  }

  /**
   Bounded self-waking under the same interleaving: no session ever wakes itself in more than
   three polls per requested frame, plus one.
   */
  lemma WakesBoundedUnderInterleaving(serves: nat -> Serve, capacity: nat, actions: seq<Action>, i: nat)
    requires forall k | 0 <= k < |actions| :: HonestAction(serves, actions[k])
    requires i < |ActAll(System(capacity, capacity, [], []), actions).slots|
    requires !ActAll(System(capacity, capacity, [], []), actions).slots[i].Empty?
    ensures var sys := ActAll(System(capacity, capacity, [], []), actions);
            var s := sys.slots[i].session;
            && sys.wakes[i] <= 3 * (s.last - s.first) + 1
            && (sys.slots[i].Live? ==> sys.wakes[i] <= 3 * (s.last - s.first))
  {
    hide ActAll, Inv, Progress, HonestAction;
    SystemCovers(serves, capacity, actions);
    SystemKeeps(serves, capacity, actions);
    var sys := ActAll(System(capacity, capacity, [], []), actions);
    assert SlotOk(serves(i), sys.slots[i]) && WakesCovered(sys.slots[i], sys.wakes[i]);
    if sys.slots[i].Live? { ProgressBounded(serves(i), sys.slots[i].session); }
  }

  // ---- Memory safety ------------------------------------------------------------------------------

  /** A session buffers no more than it committed, and commits no more than it holds. */
  lemma SessionWithinAllocation(serve: Serve, s: Session)
    requires Inv(serve, s)
    ensures Total(BufferedOf, s.plans) <= Committed(s.plans) <= s.allocation
  {
    hide AllFrames, Offset, SentOk, Sourced, Tiled, Head, Total, Chained, RightsInFront;
    assert forall i | 0 <= i < |s.plans| :: PlanOk(serve, s.plans[i]);
    TotalMonotone(BufferedOf, s.plans, CommittedOf, s.plans);
  }

  lemma {:induction false} BufferedWithinHeld(serves: nat -> Serve, slots: seq<Slot>, from: nat)
    requires from <= |slots|
    requires forall i | 0 <= i < |slots| :: SlotOk(serves(i), slots[i])
    ensures TotalBuffered(slots[from..]) <= TotalHeld(slots[from..])
    decreases |slots| - from
  {
    if from < |slots| {
      assert slots[from..][1..] == slots[from + 1..];
      BufferedWithinHeld(serves, slots, from + 1);
      assert SlotOk(serves(from), slots[from]);
      if slots[from].Live? { SessionWithinAllocation(serves(from), slots[from].session); }
    }
  }

  lemma {:induction false} SystemKeeps(serves: nat -> Serve, capacity: nat, actions: seq<Action>)
    requires forall i | 0 <= i < |actions| :: HonestAction(serves, actions[i])
    ensures var sys := ActAll(System(capacity, capacity, [], []), actions);
            SystemInv(serves, sys) && sys.capacity == capacity
  {
    hide SystemInv, Act, HonestAction;
    if actions == [] {
      NobodyYet(serves, capacity);
    } else {
      var n := |actions| - 1;
      SystemKeeps(serves, capacity, actions[..n]);
      assert HonestAction(serves, actions[n]);
      ActKeeps(serves, ActAll(System(capacity, capacity, [], []), actions[..n]), actions[n]);
    }
  }

  lemma NobodyYet(serves: nat -> Serve, capacity: nat)
    ensures SystemInv(serves, System(capacity, capacity, [], []))
  {
  }

  /**
   Memory safety. Starting from an idle budget, however any number of sessions interleave
   between any two of their accesses to it: no permit is lost or made, no session buffers more
   than it committed or commits more than it holds, all of them together never buffer more
   frames than the capacity, and every session has sent its frames in order.
   */
  lemma MemorySafety(serves: nat -> Serve, capacity: nat, actions: seq<Action>)
    requires forall i | 0 <= i < |actions| :: HonestAction(serves, actions[i])
    ensures var sys := ActAll(System(capacity, capacity, [], []), actions);
            && sys.available + TotalHeld(sys.slots) == capacity
            && TotalBuffered(sys.slots) <= capacity
            && forall i | 0 <= i < |sys.slots| && !sys.slots[i].Empty? ::
                 var s := sys.slots[i].session;
                 && Ordered(serves(i), s)
                 && (sys.slots[i].Live? ==> Total(BufferedOf, s.plans) <= Committed(s.plans) <= s.allocation)
  {
    hide ActAll, Total, Inv, Ordered, HonestAction;
    var sys := ActAll(System(capacity, capacity, [], []), actions);
    SystemKeeps(serves, capacity, actions);
    BufferedWithinHeld(serves, sys.slots, 0);
    assert sys.slots[0..] == sys.slots;
    forall i | 0 <= i < |sys.slots| && sys.slots[i].Live?
      ensures Ordered(serves(i), sys.slots[i].session)
      ensures var s := sys.slots[i].session;
              Total(BufferedOf, s.plans) <= Committed(s.plans) <= s.allocation
    {
      assert SlotOk(serves(i), sys.slots[i]);
      SessionWithinAllocation(serves(i), sys.slots[i].session);
      InvOrdered(serves(i), sys.slots[i].session);
    }
    forall i | 0 <= i < |sys.slots| && sys.slots[i].Dead? ensures Ordered(serves(i), sys.slots[i].session) {
      assert SlotOk(serves(i), sys.slots[i]);
    }
  }

  /**
   Order and completeness under the same interleaving: every session, even one that failed, has
   sent a prefix of what it was asked for; one with nothing left to do has sent all of it.
   */
  lemma OrderUnderInterleaving(serves: nat -> Serve, capacity: nat, actions: seq<Action>, i: nat)
    requires forall k | 0 <= k < |actions| :: HonestAction(serves, actions[k])
    requires i < |ActAll(System(capacity, capacity, [], []), actions).slots|
    requires !ActAll(System(capacity, capacity, [], []), actions).slots[i].Empty?
    ensures var slot := ActAll(System(capacity, capacity, [], []), actions).slots[i];
            var s := slot.session;
            var requested := Slice(AllFrames(serves(i), s.supplied), s.first, s.last);
            s.sent <= requested && (slot.Live? && Drained(s) ==> s.sent == requested)
  {
    hide ActAll, Inv, Ordered, HonestAction, Slice, AllFrames;
    SystemKeeps(serves, capacity, actions);
    var slot := ActAll(System(capacity, capacity, [], []), actions).slots[i];
    assert SlotOk(serves(i), slot);
    if slot.Live? { InvOrdered(serves(i), slot.session); }
    OrderedIsPrefix(serves(i), slot.session);
    if slot.Live? && Drained(slot.session) { DrainedIsComplete(serves(i), slot.session); }
  }

  /** Once every session is dropped the whole budget is free again. */
  lemma AllDropped(serves: nat -> Serve, sys: System)
    requires SystemInv(serves, sys) && forall i | 0 <= i < |sys.slots| :: sys.slots[i].Empty?
    ensures sys.available == sys.capacity
  {
    NothingHeld(sys.slots);
  }

  lemma {:induction false} NothingHeld(slots: seq<Slot>)
    requires forall i | 0 <= i < |slots| :: slots[i].Empty?
    ensures TotalHeld(slots) == 0
  {
    if slots != [] { NothingHeld(slots[1..]); }
  }
}
