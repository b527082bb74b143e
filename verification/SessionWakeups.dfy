/**
 No lost wake-up: whenever a poll parks without waking itself, whatever blocks the next
 frame answered "pending" during that very poll and so holds the driver's waker.
 */
module SessionWakeups {
  import opened Basics
  import opened SessionModel
  import opened SessionInvariant
  import opened SessionRuns

  // ---- Head-of-line rights ----------------------------------------------------------------

  /** Plan `i` holds the next frame to emit: all plans before it are fully emitted. */
  ghost predicate IsNext(plans: seq<Plan>, i: nat) {
    && i < |plans| && plans[i].emitted < plans[i].end
    && forall j | 0 <= j < i :: plans[j].emitted == plans[j].end
  }

  /** Only plan `i` of these can hold a right: the rest is emitted or waits behind it. */
  lemma OnlyNextCommits(serve: Serve, plans: seq<Plan>, i: nat)
    requires PlansOk(serve, plans) && Chained(plans) && RightsInFront(plans) && IsNext(plans, i)
    requires plans[i].authorized == plans[i].emitted
    ensures Committed(plans) <= 0
  {
    forall j | 0 <= j < |plans| ensures CommittedOf(plans[j]) <= 0 {
      assert PlanOk(serve, plans[j]) && PlanOk(serve, plans[i]);
    }
    hide PlanOk;
    ZeroTotal(plans);
    TotalMonotone(CommittedOf, plans, ZeroOf, plans);
  }

  /** With a window of at least one frame, the next frame to emit is always authorized. */
  lemma NextIsAuthorized(serve: Serve, s: Session, capacity: nat, i: nat)
    requires Inv(serve, s) && 1 <= capacity <= s.allocation && IsNext(s.plans, i)
    ensures var after := AuthorizeWindow(s.plans, capacity);
            i < |after| && after[i].authorized > after[i].emitted
  {
    hide AllFrames, Offset, SentOk, Sourced, Tiled, Head, Total, Authorize, Chained, RightsInFront;
    var available := Max(capacity - Committed(s.plans), 0);
    var after := AuthorizeWindow(s.plans, capacity);
    AuthorizeRaises(s.plans, available);
    AuthorizeSpends(s.plans, available);
    AuthorizeKeeps(serve, s, capacity);
    assert IsNext(after, i) && PlanOk(serve, after[i]);
    if after[i].authorized == after[i].emitted { OnlyNextCommits(serve, after, i); }
  }

  // ---- What blocks the next frame ------------------------------------------------------------

  /** The front frame's blocker is registered: its URL ticket, its download, or the sink. */
  ghost predicate FrontParked(plans: seq<Plan>, parked: set<Waker>) {
    plans != [] && plans[0].buffer == [] ==>
      WakeUrl(plans[0].serial) in parked || WakeDownload(plans[0].serial) in parked
  }

  /** The front plan is not done, and its next frame, if it has one, is authorized. */
  ghost predicate FrontReady(plans: seq<Plan>) {
    plans != [] ==>
      !plans[0].Exhausted() && (plans[0].emitted < plans[0].end ==> plans[0].authorized > plans[0].emitted)
  }

  /** A front plan that lacks its next frame has a registered ticket or an open download. */
  ghost predicate FrontLinked(plans: seq<Plan>, parked: set<Waker>) {
    plans != [] ==>
      && !plans[0].Exhausted()
      && (plans[0].ticket ==> WakeUrl(plans[0].serial) in parked)
      && (plans[0].emitted < plans[0].end ==>
            plans[0].authorized > plans[0].emitted && (plans[0].ticket || plans[0].download))
  }

  lemma AuthorizeReadiesFront(serve: Serve, s: Session, capacity: nat)
    requires Settled(serve, s) && 1 <= capacity <= s.allocation
    ensures FrontReady(AuthorizeWindow(s.plans, capacity))
    ensures |AuthorizeWindow(s.plans, capacity)| == |s.plans|
  {
    AuthorizeRaises(s.plans, Max(capacity - Committed(s.plans), 0));
    if s.plans != [] && s.plans[0].emitted < s.plans[0].end { NextIsAuthorized(serve, s, capacity, 0); }
    hide Total, AllFrames, Offset, SentOk, Sourced, Tiled, Head, Chained, RightsInFront, PlanOk, Authorize;
  }

  /** Whichever plan holds the next frame has a registered ticket or an open download afterwards. */
  lemma UrlsLinkTheNext(serve: Serve, plans: seq<Plan>, env: Env, i: nat)
    requires PlansOk(serve, plans) && IsNext(plans, i) && plans[i].authorized > plans[i].emitted
    requires forall j | 0 <= j < |plans| :: !UrlFails(plans[j], env)
    ensures var after := AfterUrls(plans, env);
            && IsNext(after, i) && after[i].authorized > after[i].emitted
            && (after[i].download || (after[i].ticket && WakeUrl(after[i].serial) in UrlWakers(plans, env)))
  {
    assert PlanOk(serve, plans[i]) && !UrlFails(plans[i], env);
  }

  lemma UrlsLinkTheFront(serve: Serve, plans: seq<Plan>, parked: set<Waker>, env: Env)
    requires PlansOk(serve, plans) && FrontReady(plans)
    requires forall i | 0 <= i < |plans| :: !UrlFails(plans[i], env)
    ensures FrontLinked(AfterUrls(plans, env), parked + UrlWakers(plans, env))
  {
    if plans != [] {
      assert PlanOk(serve, plans[0]) && !UrlFails(plans[0], env);
    }
  }

  /**
   A fill that parked quietly: the front frame's own blocker is registered, and the source
   too when nothing is planned at all.
   */
  ghost predicate Quiet(s: Session, parked: set<Waker>, f: Filled) {
    f.phase.InProgress? && !f.woke ==>
      && parked <= f.parked
      && FrontParked(f.session.plans, f.parked)
      && (f.session.plans == [] ==> s.plans == [] && !s.terminated && s.cursor < s.last)
  }

  lemma NothingReceived(plans: seq<Plan>, env: Env)
    requires forall i | 0 <= i < |plans| :: !DownloadFails(plans[i], env) && !Progresses(plans[i], env)
    ensures AfterDownloads(plans, env) == plans
  {
  }

  /** When no download makes progress, nothing changes and the front's download is waited for. */
  lemma QuietDownloads(serve: Serve, s: Session, parked: set<Waker>, env: Env, available: nat)
    requires PlansOk(serve, s.plans) && FrontLinked(s.plans, parked)
    ensures Quiet(s, parked, FillDownloads(s, available, parked, env))
  {
    if !(exists i | 0 <= i < |s.plans| :: DownloadFails(s.plans[i], env))
      && !(exists i | 0 <= i < |s.plans| :: Progresses(s.plans[i], env))
    {
      NothingReceived(s.plans, env);
      assert s.plans != [] ==> PlanOk(serve, s.plans[0]);
      hide AfterDownloads;
      assert Discard(s) == s;
    }
  }

  function SourceWaker(sourceParked: bool): set<Waker> {
    if sourceParked then {WakeSource} else {}
  }

  lemma QuietFillPlans(serve: Serve, s: Session, available: nat, capacity: nat, sourceParked: bool, env: Env)
    requires Settled(serve, s) && 1 <= capacity <= s.allocation
    ensures Quiet(s, SourceWaker(sourceParked), FillPlans(s, available, capacity, sourceParked, env))
  {
    var authorized := s.(plans := AuthorizeWindow(s.plans, capacity));
    AuthorizeKeeps(serve, s, capacity);
    AuthorizeReadiesFront(serve, s, capacity);
    hide AuthorizeWindow, AfterUrls, FillDownloads, FrontReady, FrontLinked, FrontParked, UrlWakers;
    if !exists i | 0 <= i < |authorized.plans| :: UrlFails(authorized.plans[i], env) {
      var resolved := authorized.(plans := AfterUrls(authorized.plans, env));
      var parked := SourceWaker(sourceParked) + UrlWakers(authorized.plans, env);
      AfterUrlsKeeps(serve, authorized, env);
      UrlsLinkTheFront(serve, authorized.plans, SourceWaker(sourceParked), env);
      hide Inv, UrlFails;
      QuietDownloads(serve, resolved, parked, env, available);
      assert FillPlans(s, available, capacity, sourceParked, env) == FillDownloads(resolved, available, parked, env);
    }
  }

  lemma PollObjectsSettled(serve: Serve, s: Session, target: Positive, answers: seq<SourceAnswer>)
    requires Settled(serve, s)
    ensures var p := PollObjects(s, target, answers);
            && Settled(serve, p.session)
            && p.session.allocation == s.allocation
            && (p.ok && !p.parked && p.session.plans == [] ==>
                  p.session.terminated || p.session.cursor >= p.session.last)
  {
    PollObjectsKeeps(serve, s, target, answers);
    hide Inv, PollObjects;
  }

  lemma CapacityInRange(serve: Serve, s: Session, desired: Positive)
    requires Settled(serve, s)
    ensures 1 <= Capacity(s, desired) <= s.allocation
  {
  }

  lemma QuietFillFunded(serve: Serve, s: Session, available: nat, env: Env)
    requires Settled(serve, s) && env.desired.Some? && env.prefetch.Some?
    ensures var f := FillFunded(s, available, env);
            f.phase.InProgress? && !f.woke ==>
              FrontParked(f.session.plans, f.parked) && (f.session.plans == [] ==> WakeSource in f.parked)
  {
    hide Inv, Settled, PollObjects, FillPlans, FrontParked, Capacity;
    var capacity := Capacity(s, env.desired.value);
    CapacityInRange(serve, s, env.desired.value);
    var target := capacity + env.prefetch.value;
    var pulled := PollObjects(s, target, env.source);
    PollObjectsSettled(serve, s, target, env.source);
    if pulled.ok { QuietFillPlans(serve, pulled.session, available, capacity, pulled.parked, env); }
  }

  lemma QuietFill(serve: Serve, s: Session, available: nat, env: Env)
    requires Settled(serve, s)
    ensures var f := Fill(s, available, env);
            f.phase.InProgress? && !f.woke ==>
              FrontParked(f.session.plans, f.parked) && (f.session.plans == [] ==> WakeSource in f.parked)
  {
    var funded := Refresh(s, available, env);
    RefreshKeeps(serve, s, available, env);
    hide Inv, Refresh, FillFunded, FrontParked;
    if funded.ok { QuietFillFunded(serve, funded.session, funded.available, env); }
  }

  /** The poll returned "pending": more is to come, or the sink is still closing. */
  predicate ReturnsPending(o: Outcome, env: Env) {
    o.phase.InProgress? || (o.phase.Closing? && env.sinkClose.Pending?)
  }

  /**
   There is a registration on what the driver waits for: the sink if it is closing or the front
   frame is ready, the front's URL ticket or download if it is not, the source if nothing is
   planned.
   */
  ghost predicate Registered(o: Outcome) {
    if o.phase.Closing? then WakeSink in o.parked
    else if o.session.plans == [] then WakeSource in o.parked
    else if o.session.plans[0].buffer != [] then WakeSink in o.parked
    else
      || WakeUrl(o.session.plans[0].serial) in o.parked
      || WakeDownload(o.session.plans[0].serial) in o.parked
  }

  /** No lost wake-up: a poll that returns pending wakes itself or is registered on what it waits for. */
  lemma NoLostWakeup(serve: Serve, s: Session, available: nat, env: Env)
    requires Settled(serve, s)
    ensures var o := Poll(s, available, env);
            ReturnsPending(o, env) && !o.woke ==> Registered(o)
  {
    hide Settled, Fill, PopReady;
    QuietFill(serve, s, available, env);
  }

  /** The same when other sessions use the budget, and grant a ticket, in the middle of the poll. */
  lemma NoLostWakeupInterrupted(serve: Serve, s: Session, available: nat, env: Env, ticket: Ticket, later: nat)
    requires Settled(serve, s) && env.desired.Some? && env.prefetch.Some?
    ensures var f := FillFunded(s, available, env);
            var resumed := f.(session := f.session.(ticket := ticket), available := later);
            && (f.phase.InProgress? ==>
                  var o := Emit(resumed, env);
                  ReturnsPending(o, env) && !o.woke ==> Registered(o))
            && (f.phase.Closing? ==>
                  var o := Close(resumed, env);
                  ReturnsPending(o, env) && !o.woke ==> Registered(o))
  {
    hide Settled, FillFunded, PopReady;
    QuietFillFunded(serve, s, available, env);
  }
}
