/**
 What one poll keeps, and over whole runs of one driver the order and completeness of the
 frames it emits.
 */
module SessionRuns {
  import opened Basics
  import opened SessionModel
  import opened SessionInvariant

  // ---- One poll -------------------------------------------------------------------------

  /** Filling never touches the request or what was sent, and only adds supplied objects. */
  ghost predicate Continues(s: Session, t: Session) {
    t.first == s.first && t.last == s.last && t.sent == s.sent && s.supplied <= t.supplied
  }

  /** What a fill guarantees, however it ends. */
  ghost predicate FillKept(serve: Serve, s: Session, available: nat, f: Filled) {
    && Inv(serve, f.session)
    && f.available + Held(f.session) == available + Held(s)
    && Continues(s, f.session)
    && (!f.phase.Aborted? ==> Settled(serve, f.session))
    && (f.phase.Closing? ==>
          f.session.plans == [] && (f.session.terminated || f.session.cursor >= f.session.last))
  }

  lemma FillDownloadsKeeps(serve: Serve, s: Session, available: nat, parked: set<Waker>, env: Env)
    requires Inv(serve, s) && Honest(serve, env)
    ensures FillKept(serve, s, available, FillDownloads(s, available, parked, env))
  {
    hide Inv, AfterDownloads, Honest, DownloadFails, Progresses, DownloadWakers;
    if !exists i | 0 <= i < |s.plans| :: DownloadFails(s.plans[i], env) {
      AfterDownloadsKeeps(serve, s, env);
      DiscardKeeps(serve, s.(plans := AfterDownloads(s.plans, env)));
    }
  }

  lemma FillPlansKeeps(serve: Serve, s: Session, available: nat, capacity: nat, parked: bool, env: Env)
    requires Inv(serve, s) && capacity <= s.allocation && Honest(serve, env)
    ensures FillKept(serve, s, available, FillPlans(s, available, capacity, parked, env))
  {
    hide Inv, AuthorizeWindow, AfterUrls, Honest, UrlFails, UrlWakers, FillDownloads;
    var authorized := s.(plans := AuthorizeWindow(s.plans, capacity));
    AuthorizeKeeps(serve, s, capacity);
    if !exists i | 0 <= i < |authorized.plans| :: UrlFails(authorized.plans[i], env) {
      var resolved := authorized.(plans := AfterUrls(authorized.plans, env));
      var waiting := (if parked then {WakeSource} else {}) + UrlWakers(authorized.plans, env);
      AfterUrlsKeeps(serve, authorized, env);
      FillDownloadsKeeps(serve, resolved, available, waiting, env);
    }
  }

  lemma RefreshKeeps(serve: Serve, s: Session, available: nat, env: Env)
    requires Inv(serve, s)
    ensures Inv(serve, Refresh(s, available, env).session)
    ensures Continues(s, Refresh(s, available, env).session)
  {
    RefreshFunds(s, available, env);
    FundingKeepsInv(serve, s, available, Refresh(s, available, env));
  }

  lemma FillKeptFrom(serve: Serve, s: Session, available: nat, t: Session, free: nat, f: Filled)
    requires Continues(s, t) && free + Held(t) == available + Held(s)
    requires FillKept(serve, t, free, f)
    ensures FillKept(serve, s, available, f)
  {
    hide Inv, Settled;
  }

  lemma FillFundedKeeps(serve: Serve, s: Session, available: nat, env: Env)
    requires Inv(serve, s) && Honest(serve, env) && env.desired.Some? && env.prefetch.Some?
    ensures FillKept(serve, s, available, FillFunded(s, available, env))
  {
    hide Inv, Settled, PollObjects, FillPlans, Honest, Total;
    var capacity := Capacity(s, env.desired.value);
    var target := capacity + env.prefetch.value;
    PollObjectsKeeps(serve, s, target, env.source);
    var pulled := PollObjects(s, target, env.source);
    assert Continues(s, pulled.session) && Held(pulled.session) == Held(s);
    assert capacity <= pulled.session.allocation;
    hide OnlyPlans;
    if pulled.ok {
      FillPlansKeeps(serve, pulled.session, available, capacity, pulled.parked, env);
      FillKeptFrom(serve, s, available, pulled.session, available,
                   FillPlans(pulled.session, available, capacity, pulled.parked, env));
    }
  }

  lemma FillKeeps(serve: Serve, s: Session, available: nat, env: Env)
    requires Inv(serve, s) && Honest(serve, env)
    ensures FillKept(serve, s, available, Fill(s, available, env))
  {
    var funded := Refresh(s, available, env);
    RefreshKeeps(serve, s, available, env);
    hide Inv, Settled, Refresh, FillFunded, Honest, Total;
    if funded.ok {
      FillFundedKeeps(serve, funded.session, funded.available, env);
      FillKeptFrom(serve, s, available, funded.session, funded.available,
                   FillFunded(funded.session, funded.available, env));
    }
  }

  /** What was sent is the beginning of the request and never runs past its end. */
  ghost predicate Ordered(serve: Serve, s: Session) {
    && s.first < s.last
    && SentOk(AllFrames(serve, s.supplied), s.first, s.sent)
    && Position(s) <= s.last
  }

  lemma InvOrdered(serve: Serve, s: Session)
    requires Inv(serve, s)
    ensures Ordered(serve, s)
  {
    RemainingIsPlanned(serve, s);
  }

  ghost predicate PollKept(serve: Serve, s: Session, available: nat, o: Outcome) {
    && Ordered(serve, o.session)
    && o.available + Held(o.session) == available + Held(s)
    && o.session.first == s.first && o.session.last == s.last
    && s.supplied <= o.session.supplied && s.sent <= o.session.sent
    && (!o.phase.Aborted? ==> Settled(serve, o.session))
    && (o.phase.Closing? ==>
          o.session.plans == [] && (o.session.terminated || o.session.cursor >= o.session.last))
  }

  /** After a pop the front plan, if any, still has frames or its end to come. */
  lemma PoppedFront(serve: Serve, s: Session, available: nat, desired: Positive)
    requires Inv(serve, s) && s.plans != [] && s.plans[0].buffer != []
    ensures var after := PopReady(s, available, desired).session;
            && (after.plans != [] ==> !after.plans[0].Exhausted())
            && after.supplied == s.supplied && after.first == s.first && after.last == s.last && after.sent == s.sent
  {
    hide AllFrames, Offset, SentOk, Sourced, RightsInFront, Tiled, Head, Total;
    if |s.plans| > 1 { assert PlanOk(serve, s.plans[1]); }
  }

  lemma EmitFrontKeeps(serve: Serve, s: Session, available: nat, parked: set<Waker>, env: Env)
    requires env.desired.Some? && Inv(serve, s) && s.plans != [] && s.plans[0].buffer != []
    ensures PollKept(serve, s, available, EmitFront(s, available, parked, env))
  {
    var popped := PopReady(s, available, env.desired.value);
    var handed := popped.session.(sent := s.sent + [s.plans[0].buffer[0]]);
    InvOrdered(serve, s);
    PopKeeps(serve, s, available, env.desired.value);
    InvOrdered(serve, handed);
    PoppedFront(serve, s, available, env.desired.value);
    assert Ordered(serve, popped.session);
    hide Inv, Ordered, PopReady;
  }

  /** Leaving a settled session as it is needs no further argument. */
  lemma StayKeeps(serve: Serve, s: Session, available: nat, o: Outcome)
    requires Settled(serve, s)
    requires o.session == s && o.available == available && !o.phase.Closing?
    ensures PollKept(serve, s, available, o)
  {
    InvOrdered(serve, s);
    hide Inv, Ordered;
  }

  lemma EmitKeeps(serve: Serve, f: Filled, env: Env)
    requires f.phase.InProgress? && env.desired.Some? && Settled(serve, f.session)
    ensures PollKept(serve, f.session, f.available, Emit(f, env))
  {
    var s := f.session;
    hide Inv;
    if s.plans != [] && env.sinkReady.Ready? && s.plans[0].buffer != [] {
      EmitFrontKeeps(serve, s, f.available, f.parked, env);
      hide PollKept, EmitFront;
    } else {
      StayKeeps(serve, s, f.available, Emit(f, env));
      hide PollKept;
    }
  }

  /** A fill that failed, or that is done and closes the sink, is the end of its poll. */
  lemma CloseKeeps(serve: Serve, s: Session, available: nat, f: Filled, env: Env)
    requires FillKept(serve, s, available, f)
    ensures f.phase.Closing? ==> PollKept(serve, f.session, f.available, Close(f, env))
    ensures f.phase.Aborted? ==>
              PollKept(serve, f.session, f.available, Outcome(f.session, f.available, Aborted, f.woke, f.parked))
  {
    InvOrdered(serve, f.session);
    hide Inv, Ordered;
  }

  lemma PollKeptFrom(serve: Serve, s: Session, available: nat, f: Filled, o: Outcome)
    requires FillKept(serve, s, available, f) && PollKept(serve, f.session, f.available, o)
    ensures PollKept(serve, s, available, o)
  {
    hide Inv, Ordered;
  }

  /** One poll keeps the order, the permits and, unless it fails, the whole invariant. */
  lemma PollKeeps(serve: Serve, s: Session, available: nat, env: Env)
    requires Settled(serve, s) && Honest(serve, env)
    ensures PollKept(serve, s, available, Poll(s, available, env))
  {
    FillKeeps(serve, s, available, env);
    var f := Fill(s, available, env);
    var o := Poll(s, available, env);
    hide Honest, Fill;
    if f.phase.InProgress? {
      EmitKeeps(serve, f, env);
      hide Inv, Emit;
    } else {
      CloseKeeps(serve, s, available, f, env);
      hide Inv, Close;
    }
    hide FillKept, PollKept;
    PollKeptFrom(serve, s, available, f, o);
  }

  // ---- Whole runs ------------------------------------------------------------------------------------

  /** One thing that can happen to a driver: it is polled, or its ticket is granted. */
  datatype Event = Polled(available: nat, env: Env) | TicketGranted

  /** A driver after a run, with the phase its last poll reached and its self-wakes so far. */
  datatype Driven = Driven(session: Session, phase: Phase, selfWakes: nat)

  function Step(d: Driven, event: Event): Driven {
    if d.phase.Aborted? then d
    else
      match event
      case Polled(available, env) =>
        var o := Poll(d.session, available, env);
        Driven(o.session, o.phase, d.selfWakes + if o.woke then 1 else 0)
      case TicketGranted =>
        if d.session.ticket.Waiting? then d.(session := d.session.(ticket := Granted)) else d
  }

  /** A failed driver is not polled again. */
  function Drive(s: Session, events: seq<Event>): Driven {
    if events == [] then Driven(s, InProgress, 0)
    else Step(Drive(s, events[..|events| - 1]), events[|events| - 1])
  }

  /** A session as `StreamSession::new` builds it, with whatever it could allocate. */
  predicate Fresh(s: Session) {
    && s.first < s.last
    && s.plans == [] && s.supplied == [] && s.sent == []
    && s.allocation >= 1 && s.ticket.NoTicket? && s.cursor == 0 && !s.terminated && s.retired == 0
  }

  ghost predicate HonestRun(serve: Serve, events: seq<Event>) {
    forall i | 0 <= i < |events| && events[i].Polled? :: Honest(serve, events[i].env)
  }

  /** Frames `[from, to)` of a sequence, as far as it reaches. */
  function Slice(all: seq<Frame>, from: nat, to: nat): seq<Frame> {
    var end := Min(to, |all|);
    if from < end then all[from..end] else []
  }

  ghost predicate DriveKept(serve: Serve, s: Session, d: Driven) {
    && Ordered(serve, d.session)
    && d.session.first == s.first && d.session.last == s.last
    && (!d.phase.Aborted? ==> Settled(serve, d.session))
    && (d.phase.Closing? ==>
          d.session.plans == [] && (d.session.terminated || d.session.cursor >= d.session.last))
  }

  lemma GrantKeeps(serve: Serve, s: Session)
    requires Ordered(serve, s)
    ensures Ordered(serve, s.(ticket := Granted))
    ensures Settled(serve, s) ==> Settled(serve, s.(ticket := Granted))
  {
    hide AllFrames, Offset, SentOk, Sourced, PlansOk, Chained, RightsInFront, Tiled, Head, Total;
  }

  lemma StepKeeps(serve: Serve, s: Session, d: Driven, event: Event)
    requires DriveKept(serve, s, d)
    requires event.Polled? ==> Honest(serve, event.env)
    ensures DriveKept(serve, s, Step(d, event))
  {
    GrantKeeps(serve, d.session);
    hide Honest, Poll, Ordered, Inv;
    if !d.phase.Aborted? && event.Polled? {
      PollKeeps(serve, d.session, event.available, event.env);
    }
  }

  lemma {:induction false} DriveKeeps(serve: Serve, s: Session, events: seq<Event>)
    requires Fresh(s) && HonestRun(serve, events)
    ensures DriveKept(serve, s, Drive(s, events))
  {
    if events != [] {
      var n := |events| - 1;
      DriveKeeps(serve, s, events[..n]);
      assert events[n].Polled? ==> Honest(serve, events[n].env);
      StepKeeps(serve, s, Drive(s, events[..n]), events[n]);
    }
  }

  /** In order means a prefix of the requested frames, as far as the source supplied them. */
  lemma OrderedIsPrefix(serve: Serve, s: Session)
    requires Ordered(serve, s)
    ensures s.sent <= Slice(AllFrames(serve, s.supplied), s.first, s.last)
  {
    hide AllFrames;
  }

  predicate Drained(s: Session) {
    s.plans == [] && (s.terminated || s.cursor >= s.last)
  }

  /** With nothing planned and nothing left to plan, everything requested has been sent. */
  lemma DrainedIsComplete(serve: Serve, s: Session)
    requires Settled(serve, s) && Drained(s)
    ensures s.sent == Slice(AllFrames(serve, s.supplied), s.first, s.last)
    ensures !s.terminated ==> |s.sent| == s.last - s.first
  {
    hide AllFrames, Offset, PlansOk, Chained, RightsInFront, Sourced, Total, Head;
  }

  /**
   Whole-run order and completeness. Whatever the objects, the window and the interleaving
   of answers, the sink has been given a prefix of the requested frames; in the close phase
   it has been given all of them that the source supplied.
   */
  lemma OrderAndCompleteness(serve: Serve, s: Session, events: seq<Event>)
    requires Fresh(s) && HonestRun(serve, events)
    ensures var d := Drive(s, events);
            var requested := Slice(AllFrames(serve, d.session.supplied), s.first, s.last);
            && d.session.sent <= requested
            && (d.phase.Closing? ==> d.session.sent == requested)
            && (d.phase.Closing? && !d.session.terminated ==> |requested| == s.last - s.first)
  {
    var d := Drive(s, events);
    DriveKeeps(serve, s, events);
    hide AllFrames, Drive, Slice, Inv, Ordered;
    OrderedIsPrefix(serve, d.session);
    if d.phase.Closing? { DrainedIsComplete(serve, d.session); }
  }

  ghost predicate Covers(p: Plan, g: nat) {
    p.base + p.emitted <= g < p.base + p.authorized
  }

  function ZeroOf(p: Plan): int { 0 }

  lemma {:induction false} ZeroTotal(plans: seq<Plan>)
    ensures Total(ZeroOf, plans) == 0
  {
    if plans != [] { ZeroTotal(plans[1..]); }
  }

  /** The authorized frames not yet emitted are exactly the next `Committed` ones. */
  lemma {:induction false} RightsInterval(serve: Serve, plans: seq<Plan>, g: nat)
    requires PlansOk(serve, plans) && Chained(plans) && RightsInFront(plans) && plans != []
    ensures var next := plans[0].base + plans[0].emitted;
            (exists i | 0 <= i < |plans| :: Covers(plans[i], g)) <==> next <= g < next + Committed(plans)
  {
    assert PlanOk(serve, plans[0]);
    var rest := plans[1..];
    assert forall i | 0 <= i < |rest| :: rest[i] == plans[i + 1];
    assert (exists i | 0 <= i < |plans| :: Covers(plans[i], g))
      <==> Covers(plans[0], g) || (exists i | 0 <= i < |rest| :: Covers(rest[i], g)) by
    {
      if i :| 0 < i < |plans| && Covers(plans[i], g) { assert Covers(rest[i - 1], g); }
      if i :| 0 <= i < |rest| && Covers(rest[i], g) { assert Covers(plans[i + 1], g); }
    }
    if rest != [] {
      RightsInterval(serve, rest, g);
      assert PlanOk(serve, rest[0]);
      ZeroTotal(rest);
      TotalMonotone(ZeroOf, rest, CommittedOf, rest);
      if plans[0].authorized < plans[0].end { TotalMonotone(CommittedOf, rest, ZeroOf, rest); }
    }
    assert Committed(plans) == CommittedOf(plans[0]) + Committed(rest);
  }
}
