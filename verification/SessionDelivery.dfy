/**
 A driver that is given no error makes none: it never fails, and if it is never kept waiting it
 delivers every requested frame.
 */
module SessionDelivery {
  import opened Basics
  import opened SessionModel
  import opened SessionInvariant
  import opened SessionRuns
  import opened SessionFaults
  import opened SessionLiveness

  // ---- An environment without errors ------------------------------------------------------------

  /** Objects with frames in them, whose global indices fit 64 bits. */
  predicate Storable(objects: seq<ObjectMeta>) {
    (forall i | 0 <= i < |objects| :: objects[i].frameCount > 0) && Offset(objects, |objects|) <= U64_MAX
  }

  predicate AllObjects(answers: seq<SourceAnswer>, n: nat)
    requires n <= |answers|
  {
    forall j | 0 <= j < n :: answers[j].SourceObject?
  }

  /** The answer at `i` is that of a source of these objects. */
  predicate AnswerFits(s: Session, objects: seq<ObjectMeta>, answers: seq<SourceAnswer>, i: nat)
    requires i < |answers|
  {
    match answers[i]
    case SourcePending => true
    case SourceError => false
    case SourceObject(meta) => |s.supplied| + i < |objects| && meta == objects[|s.supplied| + i]
    case SourceEnd => |s.supplied| + i == |objects|
  }

  /** As far as they are asked for, the answers are the next of these objects, and their end. */
  ghost predicate SourceFits(s: Session, objects: seq<ObjectMeta>, answers: seq<SourceAnswer>) {
    forall i | 0 <= i < |answers| && AllObjects(answers, i) :: AnswerFits(s, objects, answers, i)
  }

  /** Where the request leaves this object. */
  function EndOf(objects: seq<ObjectMeta>, last: nat, serial: nat): int
    requires serial < |objects|
  {
    Min(objects[serial].frameCount, last - Offset(objects, serial))
  }

  /** Each object's download has its requested frames and then ends. */
  ghost predicate Serving(objects: seq<ObjectMeta>, last: nat, env: Env) {
    forall serial: nat, k: nat | serial < |objects| ::
      var answer := env.download(serial, k);
      && !answer.FrameError?
      && (k < EndOf(objects, last, serial) ==> !answer.FrameEnd?)
      && (k >= EndOf(objects, last, serial) ==> !answer.FrameItem?)
  }

  /** No part of the environment answers with an error, and the budget does not overflow. */
  ghost predicate Flawless(s: Session, available: nat, objects: seq<ObjectMeta>, env: Env) {
    && env.desired.Some? && env.prefetch.Some? && (env.desired.value <= U32_MAX || available < U32_MAX)
    && SourceFits(s, objects, env.source)
    && (forall serial :: !env.url(serial).Failed?)
    && Serving(objects, s.last, env)
    && !env.sinkReady.Failed? && env.sinkAccepts && !env.sinkFlush.Failed? && !env.sinkClose.Failed?
  }

  /** What was supplied so far is the beginning of the objects, and all of them once the source ended. */
  predicate Drawn(s: Session, objects: seq<ObjectMeta>) {
    s.supplied <= objects && (s.terminated ==> s.supplied == objects)
  }

  // ---- What the source supplies -----------------------------------------------------------------------

  lemma {:induction false} OffsetMonotone(objects: seq<ObjectMeta>, m: nat, n: nat)
    requires m <= n <= |objects|
    ensures Offset(objects, m) <= Offset(objects, n)
  {
    if m < n { OffsetMonotone(objects, m, n - 1); }
  }

  lemma {:induction false} OffsetOfDrawn(supplied: seq<ObjectMeta>, objects: seq<ObjectMeta>, n: nat)
    requires supplied <= objects && n <= |supplied|
    ensures Offset(supplied, n) == Offset(objects, n)
  {
    assert supplied == objects[..|supplied|];
    OffsetOfPrefix(objects, |supplied|, n);
  }

  /** Objects taken are the next ones, and the cursor stands behind them. */
  lemma {:induction false} TakenAreNext(s: Session, target: nat, objects: seq<ObjectMeta>, answers: seq<SourceAnswer>, n: nat)
    requires s.supplied <= objects && s.cursor == Offset(objects, |s.supplied|) && SourceFits(s, objects, answers)
    requires n <= |answers| && forall j | 0 <= j < n :: Taken(s, target, answers, j)
    ensures |s.supplied| + n <= |objects| && s.supplied + Metas(answers, n) == objects[..|s.supplied| + n]
    ensures CursorAfter(s.cursor, answers, n) == Offset(objects, |s.supplied| + n)
  {
    if n > 0 {
      TakenAreNext(s, target, objects, answers, n - 1);
      hide Offset, CursorAfter;
      forall j | 0 <= j < n ensures answers[j].SourceObject? { assert Taken(s, target, answers, j); }
      assert AllObjects(answers, n - 1) && AnswerFits(s, objects, answers, n - 1);
      assert Metas(answers, n) == Metas(answers, n - 1) + [answers[n - 1].meta];
      NextOffset(s, objects, answers, n);
    } else {
      assert Metas(answers, 0) == [];
    }
  }

  lemma NextOffset(s: Session, objects: seq<ObjectMeta>, answers: seq<SourceAnswer>, n: nat)
    requires 0 < n <= |answers| && |s.supplied| + n <= |objects|
    requires answers[n - 1].SourceObject? && answers[n - 1].meta == objects[|s.supplied| + n - 1]
    requires CursorAfter(s.cursor, answers, n - 1) == Offset(objects, |s.supplied| + n - 1)
    ensures CursorAfter(s.cursor, answers, n) == Offset(objects, |s.supplied| + n)
  {
  }

  lemma CursorIsOffset(serve: Serve, s: Session, objects: seq<ObjectMeta>)
    requires Inv(serve, s) && s.supplied <= objects
    ensures s.cursor == Offset(objects, |s.supplied|)
  {
    AllFramesLength(serve, s.supplied);
    OffsetOfDrawn(s.supplied, objects, |s.supplied|);
  }

  /** The answer behind those taken is not faulty. */
  lemma NextFits(s: Session, target: nat, objects: seq<ObjectMeta>, answers: seq<SourceAnswer>, n: nat)
    requires Drawn(s, objects) && Storable(objects)
    requires s.cursor == Offset(objects, |s.supplied|) && SourceFits(s, objects, answers)
    requires Takes(s, target, answers, n) && n < |answers|
    ensures !Faulty(answers[n], CursorAfter(s.cursor, answers, n)) && AnswerFits(s, objects, answers, n)
  {
    hide Wants, CursorAfter, Offset, Taken, AnswerFits, Storable;
    TakenAreNext(s, target, objects, answers, n);
    forall j | 0 <= j < n ensures answers[j].SourceObject? { assert Taken(s, target, answers, j); }
    assert AllObjects(answers, n);
    FitMeansSound(s, objects, answers, n, CursorAfter(s.cursor, answers, n));
  }

  lemma FitMeansSound(s: Session, objects: seq<ObjectMeta>, answers: seq<SourceAnswer>, n: nat, cursor: nat)
    requires Storable(objects) && n < |answers| && AnswerFits(s, objects, answers, n)
    requires |s.supplied| + n <= |objects| && cursor == Offset(objects, |s.supplied| + n)
    ensures !Faulty(answers[n], cursor)
  {
    if answers[n].SourceObject? { NotTooFar(objects, |s.supplied| + n); }
  }

  lemma NoSourceFault(serve: Serve, s: Session, target: nat, objects: seq<ObjectMeta>, answers: seq<SourceAnswer>)
    requires Inv(serve, s) && Drawn(s, objects) && Storable(objects) && SourceFits(s, objects, answers)
    ensures !SourceFault(s, target, answers)
    ensures Drawn(PollObjects(s, target, answers).session, objects)
  {
    hide Inv, PollObjects, Wants, CursorAfter, Offset, Taken, Takes, SourceFits, Storable, SourceFault;
    CursorIsOffset(serve, s, objects);
    var n := PollObjectsExact(serve, s, target, answers);
    TakesTaken(s, target, answers, n);
    TakenAreNext(s, target, objects, answers, n);
    if n < |answers| { NextFits(s, target, objects, answers, n); }
  }

  lemma TakesTaken(s: Session, target: nat, answers: seq<SourceAnswer>, n: nat)
    requires Takes(s, target, answers, n)
    ensures n <= |answers| && forall j | 0 <= j < n :: Taken(s, target, answers, j)
  {
  }

  lemma NotTooFar(objects: seq<ObjectMeta>, n: nat)
    requires Storable(objects) && n < |objects|
    ensures Offset(objects, n) + objects[n].frameCount <= U64_MAX
  {
    OffsetMonotone(objects, n + 1, |objects|);
  }

  // ---- Where plans end -----------------------------------------------------------------------------------

  /** Every plan ends with its object or with the request. */
  lemma PlanEnds(serve: Serve, s: Session, objects: seq<ObjectMeta>, i: nat)
    requires Inv(serve, s) && s.supplied <= objects && Storable(objects) && i < |s.plans|
    ensures s.plans[i].serial < |objects| && s.plans[i].end == EndOf(objects, s.last, s.plans[i].serial)
  {
    var p := s.plans[i];
    CursorIsOffset(serve, s, objects);
    OffsetOfDrawn(s.supplied, objects, p.serial);
    OffsetMonotone(objects, p.serial + 1, |s.supplied|);
    RemainingIsPlanned(serve, s);
    assert PlanOk(serve, p);
    if i + 1 < |s.plans| {
      var q := s.plans[i + 1];
      OffsetOfDrawn(s.supplied, objects, q.serial);
      LaterSerial(objects, p, q);
      EndsInside(serve, s, i + 1);
    }
  }

  /** A plan that begins behind another belongs to a later object. */
  lemma LaterSerial(objects: seq<ObjectMeta>, p: Plan, q: Plan)
    requires p.serial < |objects| && q.serial < |objects| && p.start < p.end <= p.meta.frameCount
    requires p.base == Offset(objects, p.serial) && q.base == Offset(objects, q.serial) && p.base + p.end == q.base
    ensures Offset(objects, p.serial + 1) <= q.base
  {
    if q.serial <= p.serial {
      OffsetMonotone(objects, q.serial, p.serial);
    } else {
      OffsetMonotone(objects, p.serial + 1, q.serial);
    }
  }

  /** No plan begins behind the end of the request. */
  lemma {:induction false} EndsInside(serve: Serve, s: Session, i: nat)
    requires Inv(serve, s) && i < |s.plans|
    ensures s.plans[i].base + s.plans[i].end <= s.last
    decreases |s.plans| - i
  {
    RemainingIsPlanned(serve, s);
    if i + 1 < |s.plans| {
      EndsInside(serve, s, i + 1);
      assert PlanOk(serve, s.plans[i + 1]);
    }
  }

  // ---- One poll ----------------------------------------------------------------------------------------------

  lemma NoDownloadFault(serve: Serve, s: Session, objects: seq<ObjectMeta>, env: Env)
    requires Inv(serve, s) && s.supplied <= objects && Storable(objects) && Serving(objects, s.last, env)
    ensures !DownloadFault(s.plans, env)
  {
    forall i | 0 <= i < |s.plans| && Asked(s.plans[i])
      ensures !Bad(s.plans[i], env.download(s.plans[i].serial, s.plans[i].received))
    {
      PlanEnds(serve, s, objects, i);
      assert PlanOk(serve, s.plans[i]);
    }
    hide Inv, Serving, Asked, Bad;
  }

  lemma NoFundedFault(serve: Serve, s: Session, available: nat, objects: seq<ObjectMeta>, env: Env)
    requires Inv(serve, s) && Drawn(s, objects) && Storable(objects) && Flawless(s, available, objects, env)
    ensures !FundedFault(s, env)
  {
    hide Inv, PollObjects, DownloadFault, SourceFault, Resolved, Serving, SourceFits, Storable, OnlyPlans;
    var capacity := Capacity(s, env.desired.value);
    var target := capacity + env.prefetch.value;
    NoSourceFault(serve, s, target, objects, env.source);
    var pulled := PollObjects(s, target, env.source).session;
    PollObjectsKeeps(serve, s, target, env.source);
    SameBounds(s, pulled);
    ResolvedKeeps(serve, pulled, capacity, env);
    NoDownloadFault(serve, pulled.(plans := Resolved(pulled.plans, capacity, env)), objects, env);
  }

  lemma SameBounds(s: Session, t: Session)
    requires OnlyPlans(s, t)
    ensures t.last == s.last && t.allocation == s.allocation
  {
  }

  lemma ResolvedKeeps(serve: Serve, s: Session, capacity: nat, env: Env)
    requires Inv(serve, s) && capacity <= s.allocation
    ensures Inv(serve, s.(plans := Resolved(s.plans, capacity, env)))
  {
    AuthorizeKeeps(serve, s, capacity);
    AfterUrlsKeeps(serve, s.(plans := AuthorizeWindow(s.plans, capacity)), env);
    hide Inv, AuthorizeWindow, AfterUrls, SameCounters;
  }

  /** Without an error a poll does not fail. */
  lemma NoFault(serve: Serve, s: Session, available: nat, objects: seq<ObjectMeta>, env: Env)
    requires Settled(serve, s) && Drawn(s, objects) && Storable(objects) && Flawless(s, available, objects, env)
    ensures !Fault(s, available, env)
  {
    hide Inv, Fill, FundedFault, Storable, Flawless, Refresh;
    RefreshKeeps(serve, s, available, env);
    var funded := Refresh(s, available, env).session;
    RefreshChanges(s, available, env);
    StaysFlawless(s, funded, available, objects, env);
    NoFundedFault(serve, funded, 0, objects, env);
    HasPermit(serve, s);
    NoOtherFault(s, available, objects, env);
  }

  lemma HasPermit(serve: Serve, s: Session)
    requires Inv(serve, s)
    ensures s.allocation >= 1
  {
  }

  lemma RefreshChanges(s: Session, available: nat, env: Env)
    ensures var t := Refresh(s, available, env).session; t == s.(allocation := t.allocation, ticket := t.ticket)
  {
    hide PollTicket, GrowAvailable, RequestTicket, ShrinkTo, Committed;
  }

  lemma StaysFlawless(s: Session, t: Session, available: nat, objects: seq<ObjectMeta>, env: Env)
    requires t == s.(allocation := t.allocation, ticket := t.ticket) && Flawless(s, available, objects, env)
    ensures Flawless(t, 0, objects, env)
  {
    hide Serving;
    SameSource(s, t, objects, env.source);
  }

  lemma NoOtherFault(s: Session, available: nat, objects: seq<ObjectMeta>, env: Env)
    requires s.allocation >= 1 && Flawless(s, available, objects, env)
    ensures env.desired.Some? && env.prefetch.Some? && !PermitFault(s, available, env.desired.value)
    ensures forall f :: !SinkFault(f, env)
  {
    hide Serving, SourceFits;
  }

  lemma SameSource(s: Session, t: Session, objects: seq<ObjectMeta>, answers: seq<SourceAnswer>)
    requires s.supplied == t.supplied && SourceFits(s, objects, answers)
    ensures SourceFits(t, objects, answers)
  {
  }

  /** A poll draws from the source only while pulling objects. */
  lemma PollDraws(s: Session, available: nat, env: Env)
    requires !Poll(s, available, env).phase.Aborted?
    ensures var t, o := Refresh(s, available, env).session, Poll(s, available, env).session;
            && env.desired.Some? && env.prefetch.Some?
            && var pulled := PollObjects(t, Capacity(t, env.desired.value) + env.prefetch.value, env.source).session;
               o.supplied == pulled.supplied && o.terminated == pulled.terminated
  {
    hide Fill, Refresh, PollObjects, PopReady;
    var f := Fill(s, available, env);
    FillDraws(s, available, env);
    if f.phase.InProgress? && f.session.plans != [] && f.session.plans[0].buffer != [] {
      PopDraws(f.session, f.available, env.desired.value);
    }
  }

  lemma PopDraws(s: Session, available: nat, desired: nat)
    requires s.plans != [] && s.plans[0].buffer != []
    ensures var t := PopReady(s, available, desired).session; t.supplied == s.supplied && t.terminated == s.terminated
  {
    hide Committed;
  }

  lemma FillDraws(s: Session, available: nat, env: Env)
    requires !Fill(s, available, env).phase.Aborted?
    ensures var t, f := Refresh(s, available, env).session, Fill(s, available, env).session;
            && env.desired.Some? && env.prefetch.Some?
            && var pulled := PollObjects(t, Capacity(t, env.desired.value) + env.prefetch.value, env.source).session;
               f.supplied == pulled.supplied && f.terminated == pulled.terminated
  {
    hide Refresh, PollObjects, AuthorizeWindow, AfterUrls, AfterDownloads, DownloadFails, Progresses;
    var t := Refresh(s, available, env).session;
    var pulled := PollObjects(t, Capacity(t, env.desired.value) + env.prefetch.value, env.source).session;
    forall plans: seq<Plan> ensures Discard(pulled.(plans := plans)).supplied == pulled.supplied
                                 && Discard(pulled.(plans := plans)).terminated == pulled.terminated {
      DiscardDraws(pulled.(plans := plans));
    }
  }

  lemma {:induction false} DiscardDraws(s: Session)
    ensures Discard(s).supplied == s.supplied && Discard(s).terminated == s.terminated
    decreases |s.plans|
  {
    if s.plans != [] && s.plans[0].Exhausted() { DiscardDraws(DropFront(s)); }
  }

  // ---- Whole runs --------------------------------------------------------------------------------------------

  /** The event polls a driver that has not failed yet, and something is wrong in that poll. */
  ghost predicate FaultAtEvent(s: Session, events: seq<Event>, i: nat)
    requires i < |events|
  {
    && events[i].Polled? && !Drive(s, events[..i]).phase.Aborted?
    && Fault(Drive(s, events[..i]).session, events[i].available, events[i].env)
  }

  lemma StepAbortsIff(serve: Serve, d: Driven, event: Event)
    requires !d.phase.Aborted? && Settled(serve, d.session)
    ensures Step(d, event).phase.Aborted? <==> event.Polled? && Fault(d.session, event.available, event.env)
  {
    hide Settled, Fault, Poll;
    if event.Polled? { PollAbortsIff(serve, d.session, event.available, event.env); }
  }

  ghost predicate AnyFault(s: Session, events: seq<Event>) {
    exists i | 0 <= i < |events| :: FaultAtEvent(s, events, i)
  }

  lemma FaultsBefore(s: Session, events: seq<Event>)
    requires events != []
    ensures AnyFault(s, events) <==> FaultAtEvent(s, events, |events| - 1) || AnyFault(s, events[..|events| - 1])
  {
    hide Drive, Fault;
    var n := |events| - 1;
    forall i | 0 <= i < n ensures FaultAtEvent(s, events, i) <==> FaultAtEvent(s, events[..n], i) {
      assert events[..n][..i] == events[..i];
    }
    hide FaultAtEvent;
    if AnyFault(s, events) {
      var i :| 0 <= i < |events| && FaultAtEvent(s, events, i);
      if i < n { assert FaultAtEvent(s, events[..n], i); }
    }
    if AnyFault(s, events[..n]) {
      var i :| 0 <= i < n && FaultAtEvent(s, events[..n], i);
      assert FaultAtEvent(s, events, i);
    }
  }

  /** A driver has failed exactly if something was wrong in one of its polls. */
  lemma {:induction false} AbortsIff(serve: Serve, s: Session, events: seq<Event>)
    requires Fresh(s) && HonestRun(serve, events)
    ensures Drive(s, events).phase.Aborted? <==> AnyFault(s, events)
  {
    hide Settled, Ordered, Fault, Step, Honest;
    if events != [] {
      var n := |events| - 1;
      var before := Drive(s, events[..n]);
      AbortsIff(serve, s, events[..n]);
      DriveKeeps(serve, s, events[..n]);
      FaultsBefore(s, events);
      if !before.phase.Aborted? { StepAbortsIff(serve, before, events[n]); } else { StaysAborted(before, events[n]); }
    }
  }

  lemma StaysAborted(d: Driven, event: Event)
    requires d.phase.Aborted?
    ensures Step(d, event) == d
  {
  }

  /** No poll of the run is answered with an error. */
  ghost predicate FlawlessRun(s: Session, objects: seq<ObjectMeta>, events: seq<Event>) {
    forall i | 0 <= i < |events| && events[i].Polled? ::
      Flawless(Drive(s, events[..i]).session, events[i].available, objects, events[i].env)
  }

  lemma PollStaysDrawn(serve: Serve, s: Session, available: nat, objects: seq<ObjectMeta>, env: Env)
    requires Settled(serve, s) && Drawn(s, objects) && Storable(objects) && Flawless(s, available, objects, env)
    ensures !Poll(s, available, env).phase.Aborted? && Drawn(Poll(s, available, env).session, objects)
  {
    hide Inv, Poll, Fault, Storable, Refresh, PollObjects, Flawless, SourceFits;
    NoFault(serve, s, available, objects, env);
    PollAbortsIff(serve, s, available, env);
    PollDraws(s, available, env);
    RefreshKeeps(serve, s, available, env);
    RefreshChanges(s, available, env);
    var t := Refresh(s, available, env).session;
    FlawlessSource(s, t, available, objects, env);
    NoSourceFault(serve, t, Capacity(t, env.desired.value) + env.prefetch.value, objects, env.source);
  }

  lemma FlawlessSource(s: Session, t: Session, available: nat, objects: seq<ObjectMeta>, env: Env)
    requires t == s.(allocation := t.allocation, ticket := t.ticket) && Flawless(s, available, objects, env)
    ensures SourceFits(t, objects, env.source)
  {
    hide Serving;
    SameSource(s, t, objects, env.source);
  }

  lemma StepDraws(serve: Serve, d: Driven, event: Event, objects: seq<ObjectMeta>)
    requires !d.phase.Aborted? && Settled(serve, d.session) && Drawn(d.session, objects) && Storable(objects)
    requires event.Polled? ==> Flawless(d.session, event.available, objects, event.env)
    ensures !Step(d, event).phase.Aborted? && Drawn(Step(d, event).session, objects)
  {
    hide Settled, Poll, Storable, Flawless;
    if event.Polled? { PollStaysDrawn(serve, d.session, event.available, objects, event.env); }
  }

  lemma FlawlessBefore(s: Session, objects: seq<ObjectMeta>, events: seq<Event>)
    requires events != [] && FlawlessRun(s, objects, events)
    ensures var n := |events| - 1;
            && FlawlessRun(s, objects, events[..n])
            && (events[n].Polled? ==> Flawless(Drive(s, events[..n]).session, events[n].available, objects, events[n].env))
  {
    hide Drive, Flawless;
    var n := |events| - 1;
    forall i | 0 <= i < n && events[..n][i].Polled?
      ensures Flawless(Drive(s, events[..n][..i]).session, events[..n][i].available, objects, events[..n][i].env)
    {
      assert events[..n][..i] == events[..i];
    }
  }

  /** A driver that is never answered with an error never fails. */
  lemma {:induction false} NeverFails(serve: Serve, s: Session, objects: seq<ObjectMeta>, events: seq<Event>)
    requires Fresh(s) && HonestRun(serve, events) && Storable(objects) && FlawlessRun(s, objects, events)
    ensures !Drive(s, events).phase.Aborted? && Drawn(Drive(s, events).session, objects)
  {
    hide Settled, Ordered, Flawless, FlawlessRun, Storable, Step, Honest;
    if events != [] {
      var n := |events| - 1;
      FlawlessBefore(s, objects, events);
      NeverFails(serve, s, objects, events[..n]);
      DriveKeeps(serve, s, events[..n]);
      StepDraws(serve, Drive(s, events[..n]), events[n], objects);
    }
  }

  lemma {:induction false} FramesOfDrawn(serve: Serve, supplied: seq<ObjectMeta>, objects: seq<ObjectMeta>)
    requires supplied <= objects
    ensures AllFrames(serve, supplied) <= AllFrames(serve, objects)
    decreases |objects|
  {
    if supplied == objects {
    } else {
      var n := |objects| - 1;
      assert supplied == objects[..|supplied|] && objects[..n][..|supplied|] == supplied;
      FramesOfDrawn(serve, supplied, objects[..n]);
    }
  }

  /** What was requested of the objects supplied is what was requested of all. */
  lemma AllRequested(serve: Serve, s: Session, objects: seq<ObjectMeta>)
    requires Settled(serve, s) && Drawn(s, objects) && Drained(s)
    ensures Slice(AllFrames(serve, s.supplied), s.first, s.last) == Slice(AllFrames(serve, objects), s.first, s.last)
  {
    FramesOfDrawn(serve, s.supplied, objects);
    hide AllFrames, Offset, PlansOk, Chained, RightsInFront, Sourced, Total, Head, Tiled;
  }

  /**
   Delivery. If nothing answers with an error or "pending", any run of more polls than three for each
   requested frame ends in the close phase, and has sent exactly the requested frames of the objects.
   */
  lemma Delivers(serve: Serve, s: Session, objects: seq<ObjectMeta>, events: seq<Event>)
    requires Fresh(s) && HonestRun(serve, events) && Storable(objects)
    requires FlawlessRun(s, objects, events) && ResponsiveRun(s, events) && PollCount(events) > 3 * (s.last - s.first)
    ensures var d := Drive(s, events);
            d.phase.Closing? && d.session.sent == Slice(AllFrames(serve, objects), s.first, s.last)
  {
    NeverFails(serve, s, objects, events);
    ReachesClose(serve, s, events);
    DriveKeeps(serve, s, events);
    hide Drive, FlawlessRun, ResponsiveRun, HonestRun, Settled;
    AllRequested(serve, Drive(s, events).session, objects);
  }
}
