/**
 What each access of a session to a shared budget gets it, with any other sessions in between, and
 when it dies of one.
 */
module BudgetShares {
  import opened Basics
  import opened SessionModel
  import opened SessionInvariant
  import opened SessionRuns
  import opened SessionFaults
  import opened BudgetSystem

  // ---- Growing -------------------------------------------------------------------------------

  /** Meanwhile the others can do no more to a session than grant its ticket. */
  predicate Resumed(before: Session, after: Session) {
    after == before || (before.ticket.Waiting? && after == before.(ticket := Granted))
  }

  /** A live slot at a stage, after an access. */
  ghost predicate Reached(m: Moved, t: Session, stage: Stage) {
    m.slot.Live? && m.slot.stage == stage && Resumed(m.slot.session, t)
  }

  lemma PollsTicket(s: Session, env: Env, free: nat)
    requires env.desired.Some?
    ensures var m := StartPoll(s, env, free);
            && m.slot.Live?
            && m.slot.session == s.(allocation := m.slot.session.allocation, ticket := m.slot.session.ticket)
            && m.slot.session.allocation == s.allocation + if s.ticket.Granted? && s.allocation < env.desired.value then 1 else 0
  {
  }

  lemma Counts(s: Session, env: Env, free: nat)
    requires env.desired.Some?
    ensures Next(s, Checked(env), free).slot == Live(s, Counted(env, Min(Max(env.desired.value - s.allocation, 0), free)))
  {
  }

  lemma TakesCounted(s: Session, env: Env, missing: nat, free: nat)
    requires env.desired.Some? && missing <= U32_MAX
    ensures Next(s, Counted(env, missing), free).slot
         == Live(s.(allocation := s.allocation + if missing <= free then missing else 0), Grown(env))
  {
  }

  lemma AsksForOne(s: Session, env: Env, free: nat)
    requires env.desired.Some?
    ensures var m, short := Next(s, Grown(env), free), s.allocation < env.desired.value && s.ticket.NoTicket?;
            && m.slot.Live?
            && m.slot.session == s.(allocation := s.allocation + (if short && free >= 1 then 1 else 0),
                                    ticket := if short && free == 0 then Waiting else s.ticket)
  {
  }

  lemma GivesBack(s: Session, env: Env, free: nat)
    requires env.desired.Some? && env.prefetch.Some?
    ensures var m := Next(s, Asked(env), free);
            && m.slot.Live? && m.slot.stage == Allotted(env)
            && m.slot.session.allocation == Min(s.allocation, Max(Committed(s.plans), Min(env.desired.value, s.allocation)))
            && m.available == free + s.allocation - m.slot.session.allocation
  {
    hide Committed;
  }

  /**
   The five accesses of a refresh, each with as many permits free as the others left then. What was
   counted as missing and free is taken unless others took it first; a session that is still short
   takes one more permit or waits in line for it; and only what exceeds both the window and what is
   committed goes back.
   */
  lemma SharesGrow(s: Session, env: Env, free: seq<nat>, polled: Session, counted: Session, grown: Session, asked: Session)
    requires env.desired.Some? && env.prefetch.Some? && |free| == 5
    requires Reached(StartPoll(s, env, free[0]), polled, Checked(env))
    requires var missing := Min(Max(env.desired.value - polled.allocation, 0), free[1]);
             && missing <= U32_MAX
             && Reached(Next(polled, Checked(env), free[1]), counted, Counted(env, missing))
             && Reached(Next(counted, Counted(env, missing), free[2]), grown, Grown(env))
    requires Reached(Next(grown, Grown(env), free[3]), asked, Asked(env))
    ensures var desired := env.desired.value;
            var missing := Min(Max(desired - polled.allocation, 0), free[1]);
            var m := Next(asked, Asked(env), free[4]);
            && polled.allocation == s.allocation + (if s.ticket.Granted? && s.allocation < desired then 1 else 0)
            && grown.allocation == polled.allocation + (if missing <= free[2] then missing else 0)
            && asked.allocation
               == grown.allocation + (if grown.allocation < desired && grown.ticket.NoTicket? && free[3] >= 1 then 1 else 0)
            && (asked.allocation < desired && free[3] == 0 ==> !asked.ticket.NoTicket?)
            && m.slot.Live? && m.slot.stage == Allotted(env)
            && m.slot.session.allocation == Min(asked.allocation, Max(Committed(s.plans), Min(desired, asked.allocation)))
            && m.available == free[4] + asked.allocation - m.slot.session.allocation
  {
    hide Next, StartPoll, Committed;
    var missing := Min(Max(env.desired.value - polled.allocation, 0), free[1]);
    PollsTicket(s, env, free[0]);
    Counts(polled, env, free[1]);
    TakesCounted(counted, env, missing, free[2]);
    AsksForOne(grown, env, free[3]);
    GivesBack(asked, env, free[4]);
  }


  /** A session that opens takes what it counted, unless others took it first. */
  lemma OpeningGrows(s: Session, desired: Positive, free: nat, left: nat)
    requires s.allocation <= desired
    ensures var missing := Min(desired - s.allocation, free);
            && Next(s, Opening(desired), free).slot == Live(s, OpeningCounted(desired, missing))
            && var m := Next(s, OpeningCounted(desired, missing), left);
               if missing > U32_MAX then m.slot.Empty? && m.available == left + Held(s)
               else
                 m.slot == Live(s.(allocation := s.allocation + if missing <= left then missing else 0), Idle)
  {
  }

  // ---- Failing ------------------------------------------------------------------------------------

  /** What the next access of a session to the budget, or what it does then, fails on. */
  ghost predicate StageFault(s: Session, stage: Stage, available: nat)
    requires StagePossible(stage)
  {
    match stage
    case Idle => false
    case Opening(_) => false
    case OpeningCounted(_, _) => false
    case Checked(_) => false
    case Counted(_, missing) => missing > U32_MAX
    case Grown(_) => false
    case Asked(env) => env.prefetch.None?
    case Allotted(env) =>
      FundedFault(s, env)
      || (FillFunded(s, available, env).phase.Closing? && SinkFault(FillFunded(s, available, env), env))
    case Filling(env, woke, parked) => SinkFault(Filled(s, available, InProgress, woke, parked), env)
  }

  /** A session dies exactly of a fault, wherever the others come in between. */
  lemma DiesIff(serve: Serve, s: Session, stage: Stage, available: nat)
    requires Settled(serve, s) && StageOk(serve, stage)
    ensures Next(s, stage, available).slot.Dead? <==> StageFault(s, stage, available)
  {
    hide Inv, Honest, FillFunded, FundedFault, Emit, Close, PollTicket, ShrinkTo, RequestTicket, SinkFault;
    match stage
    case Idle =>
    case Opening(_) =>
    case OpeningCounted(_, _) =>
    case Checked(_) =>
    case Counted(_, _) =>
    case Grown(_) =>
    case Asked(_) =>
    case Allotted(env) =>
      FillFundedAbortsIff(serve, s, available, env);
      var f := FillFunded(s, available, env);
      if f.phase.Closing? { CloseAbortsIff(f, env); }
    case Filling(env, woke, parked) => EmitAbortsIff(Filled(s, available, InProgress, woke, parked), env);
  }
}
