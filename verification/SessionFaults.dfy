/**
 When a poll fails: exactly if something it was answered, or asked of the budget, is an error.
 */
module SessionFaults {
  import opened Basics
  import opened SessionModel
  import opened SessionInvariant
  import opened SessionRuns

  // ---- The source -----------------------------------------------------------------------------

  /** The global index behind the first `n` answers. */
  function CursorAfter(cursor: nat, answers: seq<SourceAnswer>, n: nat): nat
    requires n <= |answers|
  {
    if n == 0 then cursor
    else CursorAfter(cursor, answers, n - 1) + if answers[n - 1].SourceObject? then answers[n - 1].meta.frameCount else 0
  }

  /** The source is asked on while it has not ended and neither the request nor the plan is served up to `cursor`. */
  predicate Wants(s: Session, target: nat, cursor: nat) {
    !s.terminated && cursor < s.last && Max(s.first, Min(cursor, s.last)) - Position(s) < target
  }

  predicate Usable(answer: SourceAnswer, cursor: nat) {
    answer.SourceObject? && answer.meta.frameCount > 0 && cursor + answer.meta.frameCount <= U64_MAX
  }

  /** An error of the source, an empty object, or one that reaches beyond the largest index. */
  predicate Faulty(answer: SourceAnswer, cursor: nat) {
    answer.SourceError? || (answer.SourceObject? && !Usable(answer, cursor))
  }

  /** The answer at `j` is asked for and usable, if all before it are. */
  predicate Taken(s: Session, target: nat, answers: seq<SourceAnswer>, j: nat): (r: bool)
    requires j < |answers|
    ensures r ==> answers[j].SourceObject?
  {
    var cursor := CursorAfter(s.cursor, answers, j);
    Wants(s, target, cursor) && Usable(answers[j], cursor)
  }

  /** Exactly the first `n` answers are objects that are asked for and usable. */
  ghost predicate Takes(s: Session, target: nat, answers: seq<SourceAnswer>, n: nat) {
    n <= |answers| && (forall j | 0 <= j < n :: Taken(s, target, answers, j)) && (n < |answers| ==> !Taken(s, target, answers, n))
  }

  /** The answer after those is asked for and faulty. */
  ghost predicate SourceFault(s: Session, target: nat, answers: seq<SourceAnswer>) {
    exists n: nat | Takes(s, target, answers, n) && n < |answers| ::
      var cursor := CursorAfter(s.cursor, answers, n); Wants(s, target, cursor) && Faulty(answers[n], cursor)
  }

  function Metas(answers: seq<SourceAnswer>, n: nat): seq<ObjectMeta>
    requires n <= |answers|
  {
    seq(n, j requires 0 <= j < n => MetaOf(answers[j]))
  }

  function MetaOf(answer: SourceAnswer): ObjectMeta {
    if answer.SourceObject? then answer.meta else ObjectMeta(0, 0)
  }

  lemma TakesOnce(s: Session, target: nat, answers: seq<SourceAnswer>, m: nat, n: nat)
    requires Takes(s, target, answers, m) && Takes(s, target, answers, n)
    ensures m == n
  {
    hide Taken;
  }

  lemma {:induction false} CursorOfRest(cursor: nat, answers: seq<SourceAnswer>, n: nat)
    requires 0 < n <= |answers| && answers[0].SourceObject?
    ensures CursorAfter(cursor, answers, n) == CursorAfter(cursor + answers[0].meta.frameCount, answers[1..], n - 1)
  {
    if n == 1 {
      assert CursorAfter(cursor, answers, 1) == CursorAfter(cursor, answers, 0) + answers[0].meta.frameCount;
    } else {
      CursorOfRest(cursor, answers, n - 1);
    }
  }

  /** The session once the first answer is taken, as far as the source is concerned. */
  ghost predicate TakesFirst(s: Session, t: Session, target: nat, answers: seq<SourceAnswer>) {
    && answers != [] && Taken(s, target, answers, 0)
    && t.first == s.first && t.last == s.last && t.sent == s.sent && t.terminated == s.terminated
    && t.cursor == s.cursor + answers[0].meta.frameCount
  }

  lemma TakenRest(s: Session, t: Session, target: nat, answers: seq<SourceAnswer>, j: nat)
    requires TakesFirst(s, t, target, answers) && j < |answers| - 1
    ensures Taken(s, target, answers, j + 1) <==> Taken(t, target, answers[1..], j)
    ensures CursorAfter(s.cursor, answers, j + 1) == CursorAfter(t.cursor, answers[1..], j)
  {
    CursorOfRest(s.cursor, answers, j + 1);
  }

  /** Taking one object first and then those that follow. */
  lemma TakesRest(s: Session, t: Session, target: nat, answers: seq<SourceAnswer>, n: nat)
    requires TakesFirst(s, t, target, answers) && Takes(t, target, answers[1..], n)
    ensures Takes(s, target, answers, n + 1)
    ensures CursorAfter(s.cursor, answers, n + 1) == CursorAfter(t.cursor, answers[1..], n)
  {
    CursorOfRest(s.cursor, answers, n + 1);
    hide Taken, CursorAfter;
    assert Taken(s, target, answers, 0);
    forall j | 0 <= j < n + 1 ensures Taken(s, target, answers, j) {
      if j > 0 { TakenRest(s, t, target, answers, j - 1); }
    }
    if n + 1 < |answers| { TakenRest(s, t, target, answers, n); }
  }

  /** What `n` objects taken from the source leave behind. */
  ghost predicate Took(s: Session, target: nat, answers: seq<SourceAnswer>, n: nat, p: Pulled) {
    && Takes(s, target, answers, n)
    && var cursor := CursorAfter(s.cursor, answers, n);
       var asked := Wants(s, target, cursor);
       && p.session.cursor == cursor
       && p.session.supplied == s.supplied + Metas(answers, n)
       && (p.ok <==> !(asked && n < |answers| && Faulty(answers[n], cursor)))
       && (p.parked <==> asked && (n == |answers| || answers[n].SourcePending?))
       && (p.session.terminated <==> s.terminated || (asked && n < |answers| && answers[n].SourceEnd?))
  }

  /** What is planned is what lies between the next frame to emit and the cursor. */
  lemma WantsMore(serve: Serve, s: Session, target: nat)
    requires Inv(serve, s)
    ensures Wants(s, target, s.cursor) <==> Remaining(s.plans) < target && s.cursor < s.last && !s.terminated
  {
    RemainingIsPlanned(serve, s);
    hide Inv, Total;
  }

  /** One object accepted is one taken. */
  lemma TookFirst(s: Session, target: nat, answers: seq<SourceAnswer>, m: nat, p: Pulled)
    requires answers != [] && Taken(s, target, answers, 0)
    requires Took(Accept(s, answers[0].meta), target, answers[1..], m, p)
    ensures Took(s, target, answers, m + 1, p)
  {
    hide Taken, CursorAfter, Total, Accept, Wants;
    var t := Accept(s, answers[0].meta);
    FirstTaken(s, target, answers);
    FirstAccepted(s, answers[0].meta);
    TakesRest(s, t, target, answers, m);
    assert Metas(answers, m + 1) == [answers[0].meta] + Metas(answers[1..], m);
    SameWants(s, t, target, CursorAfter(t.cursor, answers[1..], m));
  }

  lemma FirstAccepted(s: Session, meta: ObjectMeta)
    ensures var t := Accept(s, meta);
            && t.first == s.first && t.last == s.last && t.sent == s.sent && t.terminated == s.terminated
            && t.supplied == s.supplied + [meta]
  {
  }

  lemma FirstTaken(s: Session, target: nat, answers: seq<SourceAnswer>)
    requires answers != [] && Taken(s, target, answers, 0)
    ensures TakesFirst(s, Accept(s, answers[0].meta), target, answers)
  {
    hide CursorAfter, Wants, Total;
  }

  lemma SameWants(s: Session, t: Session, target: nat, cursor: nat)
    requires t.first == s.first && t.last == s.last && t.sent == s.sent && t.terminated == s.terminated
    ensures Wants(s, target, cursor) <==> Wants(t, target, cursor)
  {
  }

  lemma TookNothing(serve: Serve, s: Session, target: nat, answers: seq<SourceAnswer>)
    requires Inv(serve, s) && (answers != [] ==> !Taken(s, target, answers, 0))
    ensures Took(s, target, answers, 0, PollObjects(s, target, answers))
  {
    hide Inv, Total, Wants, Accept;
    WantsMore(serve, s, target);
    assert CursorAfter(s.cursor, answers, 0) == s.cursor && Metas(answers, 0) == [];
    Stops(s, target, answers);
  }

  /** Without an object that is wanted and usable the loop ends here. */
  lemma Stops(s: Session, target: nat, answers: seq<SourceAnswer>)
    requires answers == [] || !(Remaining(s.plans) < target && s.cursor < s.last && !s.terminated && Usable(answers[0], s.cursor))
    ensures var p := PollObjects(s, target, answers);
            var asked := Remaining(s.plans) < target && s.cursor < s.last && !s.terminated;
            && p.session == s.(terminated := s.terminated || (asked && answers != [] && answers[0].SourceEnd?))
            && (p.ok <==> !(asked && answers != [] && Faulty(answers[0], s.cursor)))
            && (p.parked <==> asked && (answers == [] || answers[0].SourcePending?))
  {
    hide Total;
  }

  /**
   The source is asked exactly as long as the target is not planned, up to the first answer that
   is not a usable object; the loop fails exactly if that answer is faulty.
   */
  lemma {:induction false} PollObjectsExact(serve: Serve, s: Session, target: nat, answers: seq<SourceAnswer>) returns (n: nat)
    requires Inv(serve, s)
    ensures Took(s, target, answers, n, PollObjects(s, target, answers))
    ensures PollObjects(s, target, answers).ok <==> !SourceFault(s, target, answers)
    decreases |answers|
  {
    hide Inv, Took, PollObjects, Accept, Taken, SourceFault;
    if answers != [] && Taken(s, target, answers, 0) {
      StepsOverFirst(serve, s, target, answers);
      var m := PollObjectsExact(serve, Accept(s, answers[0].meta), target, answers[1..]);
      TookFirst(s, target, answers, m, PollObjects(s, target, answers));
      n := m + 1;
    } else {
      TookNothing(serve, s, target, answers);
      n := 0;
    }
    FaultAt(s, target, answers, n, PollObjects(s, target, answers));
  }

  lemma StepsOverFirst(serve: Serve, s: Session, target: nat, answers: seq<SourceAnswer>)
    requires Inv(serve, s) && answers != [] && Taken(s, target, answers, 0)
    ensures Inv(serve, Accept(s, answers[0].meta))
    ensures PollObjects(s, target, answers) == PollObjects(Accept(s, answers[0].meta), target, answers[1..])
  {
    hide Inv, Total, Accept, Wants;
    WantsMore(serve, s, target);
    AcceptKeeps(serve, s, answers[0].meta);
  }

  lemma FaultAt(s: Session, target: nat, answers: seq<SourceAnswer>, n: nat, p: Pulled)
    requires Took(s, target, answers, n, p)
    ensures p.ok <==> !SourceFault(s, target, answers)
  {
    if SourceFault(s, target, answers) {
      var m: nat :| Takes(s, target, answers, m) && m < |answers|
                    && var cursor := CursorAfter(s.cursor, answers, m); Wants(s, target, cursor) && Faulty(answers[m], cursor);
      TakesOnce(s, target, answers, m, n);
    }
  }

  // ---- The budget ---------------------------------------------------------------------------------

  /**
   More permits than fit 32 bits are missing from the window and free, counting what the ticket
   brings: to the session if it is short, else back to the budget.
   */
  predicate PermitFault(s: Session, available: nat, desired: nat) {
    var brought := if s.ticket.Granted? then 1 else 0;
    var short := desired > s.allocation;
    Min(desired - s.allocation - (if short then brought else 0), available + if short then 0 else brought) > U32_MAX
  }

  lemma RefreshFailsIff(s: Session, available: nat, env: Env)
    ensures !Refresh(s, available, env).ok
       <==> env.desired.None? || env.prefetch.None? || PermitFault(s, available, env.desired.value)
  {
  }

  // ---- URLs and downloads ----------------------------------------------------------------------------

  ghost predicate UrlFault(plans: seq<Plan>, env: Env) {
    exists i | 0 <= i < |plans| :: plans[i].ticket && env.url(plans[i].serial).Failed?
  }

  /** A download is asked for a frame it may deliver, or for its end. */
  predicate Asked(p: Plan) {
    p.download && !p.finished && (p.received < p.authorized || p.received == p.end)
  }

  /** An error, a frame too many or an end too early. */
  predicate Bad(p: Plan, answer: DownloadAnswer) {
    || answer.FrameError?
    || (answer.FrameItem? && p.received == p.end)
    || (answer.FrameEnd? && p.received < p.end)
  }

  ghost predicate DownloadFault(plans: seq<Plan>, env: Env) {
    exists i | 0 <= i < |plans| :: Asked(plans[i]) && Bad(plans[i], env.download(plans[i].serial, plans[i].received))
  }

  /** The plans whose downloads are polled. */
  function Resolved(plans: seq<Plan>, capacity: nat, env: Env): seq<Plan> {
    AfterUrls(AuthorizeWindow(plans, capacity), env)
  }

  lemma AuthorizedTickets(serve: Serve, s: Session, capacity: nat, env: Env)
    requires PlansOk(serve, s.plans)
    ensures UrlFault(AuthorizeWindow(s.plans, capacity), env) <==> UrlFault(s.plans, env)
  {
    AuthorizeRaises(s.plans, Max(capacity - Committed(s.plans), 0));
    hide Authorize, PlanOk, Committed;
    var after := AuthorizeWindow(s.plans, capacity);
    assert forall i | 0 <= i < |after| :: after[i].ticket == s.plans[i].ticket && after[i].serial == s.plans[i].serial;
  }

  lemma ResolvedOk(serve: Serve, s: Session, capacity: nat, env: Env)
    requires Inv(serve, s) && capacity <= s.allocation
    ensures PlansOk(serve, Resolved(s.plans, capacity, env))
  {
    AuthorizeKeeps(serve, s, capacity);
    AfterUrlsKeeps(serve, s.(plans := AuthorizeWindow(s.plans, capacity)), env);
    hide AllFrames, Offset, SentOk, Sourced, PlansOk, Chained, RightsInFront, Tiled, Head, Total, AuthorizeWindow,
         AfterUrls, SameCounters;
  }

  lemma PlansAbort(s: Session, available: nat, capacity: nat, parked: bool, env: Env)
    ensures FillPlans(s, available, capacity, parked, env).phase.Aborted?
       <==> || UrlFault(AuthorizeWindow(s.plans, capacity), env)
            || exists i | 0 <= i < |Resolved(s.plans, capacity, env)| :: DownloadFails(Resolved(s.plans, capacity, env)[i], env)
  {
    hide AuthorizeWindow, AfterUrls, FillDownloads, DownloadFails, UrlWakers;
    var authorized := s.(plans := AuthorizeWindow(s.plans, capacity));
    UrlsFail(authorized.plans, env);
    var resolved := authorized.(plans := AfterUrls(authorized.plans, env));
    assert resolved.plans == Resolved(s.plans, capacity, env);
    var waiting := (if parked then {WakeSource} else {}) + UrlWakers(authorized.plans, env);
    DownloadsAbort(resolved, available, waiting, env);
    if !UrlFault(authorized.plans, env) {
      assert FillPlans(s, available, capacity, parked, env) == FillDownloads(resolved, available, waiting, env);
    }
  }

  lemma UrlsFail(plans: seq<Plan>, env: Env)
    ensures UrlFault(plans, env) <==> exists i | 0 <= i < |plans| :: UrlFails(plans[i], env)
  {
    forall i | 0 <= i < |plans| ensures UrlFails(plans[i], env) <==> plans[i].ticket && env.url(plans[i].serial).Failed? {
    }
  }

  lemma DownloadsAbort(s: Session, available: nat, parked: set<Waker>, env: Env)
    ensures FillDownloads(s, available, parked, env).phase.Aborted?
       <==> exists i | 0 <= i < |s.plans| :: DownloadFails(s.plans[i], env)
  {
    hide Discard, AfterDownloads, DownloadFails, Progresses, DownloadWakers;
  }

  lemma PlansAbortIff(serve: Serve, s: Session, available: nat, capacity: nat, parked: bool, env: Env)
    requires Inv(serve, s) && capacity <= s.allocation
    ensures FillPlans(s, available, capacity, parked, env).phase.Aborted?
       <==> UrlFault(s.plans, env) || DownloadFault(Resolved(s.plans, capacity, env), env)
  {
    ResolvedOk(serve, s, capacity, env);
    PlansAbort(s, available, capacity, parked, env);
    DownloadsFailIff(serve, Resolved(s.plans, capacity, env), env);
    assert PlansOk(serve, s.plans);
    hide Inv, Resolved, FillPlans, DownloadFault, UrlFault, DownloadFails, PlansOk;
    AuthorizedTickets(serve, s, capacity, env);
  }

  lemma DownloadsFailIff(serve: Serve, plans: seq<Plan>, env: Env)
    requires PlansOk(serve, plans)
    ensures DownloadFault(plans, env) <==> exists i | 0 <= i < |plans| :: DownloadFails(plans[i], env)
  {
    forall i | 0 <= i < |plans|
      ensures DownloadFails(plans[i], env)
         <==> Asked(plans[i]) && Bad(plans[i], env.download(plans[i].serial, plans[i].received))
    {
      assert PlanOk(serve, plans[i]);
    }
    hide DownloadFails, Asked, Bad, PlanOk;
  }

  // ---- One poll ---------------------------------------------------------------------------------------

  /** What a fill fails on once the allocation is refreshed. */
  ghost predicate FundedFault(s: Session, env: Env)
    requires env.desired.Some? && env.prefetch.Some?
  {
    var capacity := Capacity(s, env.desired.value);
    var target := capacity + env.prefetch.value;
    var plans := PollObjects(s, target, env.source).session.plans;
    SourceFault(s, target, env.source) || UrlFault(plans, env) || DownloadFault(Resolved(plans, capacity, env), env)
  }

  lemma FillFundedAbortsIff(serve: Serve, s: Session, available: nat, env: Env)
    requires Inv(serve, s) && env.desired.Some? && env.prefetch.Some?
    ensures FillFunded(s, available, env).phase.Aborted? <==> FundedFault(s, env)
  {
    hide Inv, PollObjects, FillPlans, SourceFault, UrlFault, DownloadFault, Resolved, Took;
    var capacity := Capacity(s, env.desired.value);
    var target := capacity + env.prefetch.value;
    var n := PollObjectsExact(serve, s, target, env.source);
    PollObjectsKeeps(serve, s, target, env.source);
    var pulled := PollObjects(s, target, env.source);
    if pulled.ok { PlansAbortIff(serve, pulled.session, available, capacity, pulled.parked, env); }
  }

  ghost predicate FillFault(s: Session, available: nat, env: Env) {
    || env.desired.None? || env.prefetch.None? || PermitFault(s, available, env.desired.value)
    || FundedFault(Refresh(s, available, env).session, env)
  }

  /** The sink refuses the frame or fails to get ready, to flush or to close, when asked to. */
  predicate SinkFault(f: Filled, env: Env) {
    if f.phase.Closing? then env.sinkClose.Failed?
    else
      || env.sinkFlush.Failed?
      || (f.session.plans != [] && env.sinkReady.Failed?)
      || (f.session.plans != [] && f.session.plans[0].buffer != [] && env.sinkReady.Ready? && !env.sinkAccepts)
  }

  lemma EmitAbortsIff(f: Filled, env: Env)
    requires f.phase.InProgress? && env.desired.Some?
    ensures Emit(f, env).phase.Aborted? <==> SinkFault(f, env)
  {
    hide PopReady;
  }

  lemma CloseAbortsIff(f: Filled, env: Env)
    requires f.phase.Closing?
    ensures Close(f, env).phase.Aborted? <==> SinkFault(f, env)
  {
  }

  /** Everything a poll can fail on. */
  ghost predicate Fault(s: Session, available: nat, env: Env) {
    FillFault(s, available, env) || SinkFault(Fill(s, available, env), env)
  }

  /**
   A poll fails exactly if something was wrong: the transfer model, a permit count beyond 32 bits,
   an error, an empty or overflowing object from the source, a URL error, a download error or wrong
   frame count, or the sink. No such answer is swallowed.
   */
  lemma PollAbortsIff(serve: Serve, s: Session, available: nat, env: Env)
    requires Settled(serve, s)
    ensures Poll(s, available, env).phase.Aborted? <==> Fault(s, available, env)
  {
    FillAbortsIff(serve, s, available, env);
    hide Settled, Fill, FillFault, Emit, Close, SinkFault;
    var f := Fill(s, available, env);
    match f.phase
    case Aborted =>
    case Closing => CloseAbortsIff(f, env);
    case InProgress => EmitAbortsIff(f, env);
  }

  lemma FillAbortsIff(serve: Serve, s: Session, available: nat, env: Env)
    requires Inv(serve, s)
    ensures Fill(s, available, env).phase.Aborted? <==> FillFault(s, available, env)
  {
    hide Inv, Refresh, FillFunded, FundedFault, PermitFault;
    RefreshFailsIff(s, available, env);
    RefreshKeeps(serve, s, available, env);
    var funded := Refresh(s, available, env);
    if funded.ok { FillFundedAbortsIff(serve, funded.session, funded.available, env); }
  }
}
