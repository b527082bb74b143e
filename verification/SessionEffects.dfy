/**
 What one poll does with what it is answered: every plan, not only the front one, is served; the
 window is used up; a frame goes to the sink exactly when it can; and registrations are left with
 whatever answered "pending", and with nothing else.
 */
module SessionEffects {
  import opened Basics
  import opened SessionModel
  import opened SessionInvariant
  import opened SessionRuns
  import opened SessionWakeups

  // ---- Rights --------------------------------------------------------------------------------------

  lemma CommittedWithinRemaining(plans: seq<Plan>)
    requires WithinRights(plans)
    ensures Committed(plans) <= Remaining(plans)
  {
    hide Total;
    TotalMonotone(CommittedOf, plans, RemainingOf, plans);
  }

  lemma AllCommitted(plans: seq<Plan>)
    requires forall i | 0 <= i < |plans| :: plans[i].authorized == plans[i].end
    ensures Committed(plans) == Remaining(plans)
  {
    hide Total;
    TotalMonotone(CommittedOf, plans, RemainingOf, plans);
    TotalMonotone(RemainingOf, plans, CommittedOf, plans);
  }

  lemma SameRemaining(plans: seq<Plan>, after: seq<Plan>)
    requires |plans| == |after| && forall i | 0 <= i < |plans| :: RemainingOf(after[i]) == RemainingOf(plans[i])
    ensures Remaining(after) == Remaining(plans)
  {
    hide Total;
    TotalMonotone(RemainingOf, plans, RemainingOf, after);
    TotalMonotone(RemainingOf, after, RemainingOf, plans);
  }

  /** The window is used up: as many frames are in flight or buffered as it and the plans have room for. */
  lemma WindowIsUsed(s: Session, capacity: nat)
    requires WithinRights(s.plans)
    ensures Committed(AuthorizeWindow(s.plans, capacity)) == Max(Committed(s.plans), Min(capacity, Remaining(s.plans)))
  {
    hide Total, Authorize;
    var available := Max(capacity - Committed(s.plans), 0);
    var after := Authorize(s.plans, available);
    AuthorizeRaises(s.plans, available);
    AuthorizeSpends(s.plans, available);
    SameRemaining(s.plans, after);
    CommittedWithinRemaining(s.plans);
    CommittedWithinRemaining(after);
    if Committed(after) < Committed(s.plans) + available { AllCommitted(after); }
  }

  // ---- URLs and downloads -------------------------------------------------------------------------------

  predicate HasRight(p: Plan) { p.authorized > p.emitted }

  /** A URL is at hand, or arrives in this poll. */
  predicate UrlArrived(p: Plan, env: Env) { p.url || (p.ticket && env.url(p.serial).Ready?) }

  /**
   Every ticket is polled, not only the front one's, and a download opens exactly when its URL is there
   and a frame of it may be fetched.
   */
  lemma EveryUrlServed(serve: Serve, plans: seq<Plan>, env: Env, i: nat)
    requires PlansOk(serve, plans) && i < |plans|
    ensures var p, r := plans[i], AfterUrls(plans, env)[i];
            && r == p.(ticket := r.ticket, url := r.url, download := r.download)
            && (r.ticket <==> p.ticket && !env.url(p.serial).Ready?)
            && (r.download <==> p.download || (HasRight(p) && UrlArrived(p, env)))
            && (r.url <==> UrlArrived(p, env) && !HasRight(p))
  {
    assert PlanOk(serve, plans[i]);
  }

  /** The download may be asked: for a frame there is a right to, or for its end. */
  predicate Due(p: Plan) {
    p.download && !p.finished && (p.received < p.authorized || p.received == p.end)
  }

  /** Every download that is due is polled once, and what it yields is kept. */
  lemma EveryDownloadServed(serve: Serve, plans: seq<Plan>, env: Env, i: nat)
    requires PlansOk(serve, plans) && i < |plans| && !DownloadFails(plans[i], env)
    ensures var p, r := plans[i], AfterDownloads(plans, env)[i];
            var answer := env.download(p.serial, p.received);
            && r == p.(received := r.received, buffer := r.buffer, finished := r.finished)
            && r.received == p.received + (if Due(p) && answer.FrameItem? then 1 else 0)
            && r.buffer == p.buffer + (if Due(p) && answer.FrameItem? then [answer.frame] else [])
            && (r.finished <==> p.finished || (Due(p) && answer.FrameEnd?))
  {
    assert PlanOk(serve, plans[i]);
  }

  // ---- Downloads are paid for -----------------------------------------------------------------------------

  /** No download is open for an object none of whose frames was authorized. */
  ghost predicate PaidFor(plans: seq<Plan>) {
    forall i | 0 <= i < |plans| :: plans[i].download ==> plans[i].authorized > plans[i].start
  }

  lemma AuthorizePaysFor(s: Session, capacity: nat)
    requires WithinRights(s.plans) && PaidFor(s.plans)
    ensures PaidFor(AuthorizeWindow(s.plans, capacity))
  {
    AuthorizeRaises(s.plans, Max(capacity - Committed(s.plans), 0));
    hide Authorize, Total;
  }

  lemma UrlsPayFor(serve: Serve, plans: seq<Plan>, env: Env)
    requires PlansOk(serve, plans) && PaidFor(plans)
    ensures PaidFor(AfterUrls(plans, env))
  {
    forall i | 0 <= i < |plans| ensures PlanOk(serve, plans[i]) { }
  }

  lemma DownloadsPayFor(plans: seq<Plan>, env: Env)
    requires PaidFor(plans)
    ensures PaidFor(AfterDownloads(plans, env))
  {
  }

  lemma {:induction false} DiscardDrops(s: Session)
    ensures exists n: nat | n <= |s.plans| :: Discard(s).plans == s.plans[n..]
    decreases |s.plans|
  {
    if s.plans != [] && s.plans[0].Exhausted() {
      DiscardDrops(DropFront(s));
      var n: nat :| n <= |s.plans[1..]| && Discard(DropFront(s)).plans == s.plans[1..][n..];
      assert s.plans[1..][n..] == s.plans[n + 1..];
    } else {
      assert s.plans[0..] == s.plans;
    }
  }

  lemma TailPaidFor(plans: seq<Plan>, n: nat)
    requires n <= |plans| && PaidFor(plans)
    ensures PaidFor(plans[n..])
  {
  }

  lemma DiscardPaidFor(s: Session)
    requires PaidFor(s.plans)
    ensures PaidFor(Discard(s).plans)
  {
    hide Discard, PaidFor;
    DiscardDrops(s);
    var n: nat :| n <= |s.plans| && Discard(s).plans == s.plans[n..];
    TailPaidFor(s.plans, n);
  }

  lemma FillPlansPaidFor(serve: Serve, s: Session, available: nat, capacity: nat, parked: bool, env: Env)
    requires Inv(serve, s) && capacity <= s.allocation && PaidFor(s.plans)
    ensures PaidFor(FillPlans(s, available, capacity, parked, env).session.plans)
  {
    hide AuthorizeWindow, AfterUrls, AfterDownloads, Discard, UrlFails, DownloadFails, Progresses, UrlWakers, DownloadWakers, PaidFor,
         AllFrames, Offset, SentOk, Sourced, Chained, Tiled, Head, Total, RightsInFront;
    assert WithinRights(s.plans) by { Rightful(serve, s.plans); }
    AuthorizePaysFor(s, capacity);
    AuthorizeKeeps(serve, s, capacity);
    var authorized := s.(plans := AuthorizeWindow(s.plans, capacity));
    UrlsPayFor(serve, authorized.plans, env);
    var resolved := authorized.(plans := AfterUrls(authorized.plans, env));
    DownloadsPayFor(resolved.plans, env);
    DiscardPaidFor(resolved.(plans := AfterDownloads(resolved.plans, env)));
  }

  lemma Rightful(serve: Serve, plans: seq<Plan>)
    requires PlansOk(serve, plans)
    ensures WithinRights(plans)
  {
    forall i | 0 <= i < |plans| ensures plans[i].start <= plans[i].authorized <= plans[i].end { assert PlanOk(serve, plans[i]); }
  }

  lemma NewPlansPaidFor(serve: Serve, s: Session, t: Session)
    requires OnlyPlans(s, t) && PaidFor(s.plans) && PlansOk(serve, t.plans)
    ensures PaidFor(t.plans)
  {
    forall i | 0 <= i < |t.plans| ensures t.plans[i].download ==> t.plans[i].authorized > t.plans[i].start {
      assert PlanOk(serve, t.plans[i]);
      if i < |s.plans| { assert t.plans[i] == s.plans[i]; }
    }
  }

  lemma FillPaidFor(serve: Serve, s: Session, available: nat, env: Env)
    requires Inv(serve, s) && PaidFor(s.plans)
    ensures PaidFor(Fill(s, available, env).session.plans)
  {
    hide AllFrames, Offset, SentOk, Sourced, Chained, Tiled, Head, Total, RightsInFront, PlansOk, Refresh,
         PollObjects, FillPlans, PaidFor;
    RefreshFunds(s, available, env);
    RefreshKeeps(serve, s, available, env);
    var funded := Refresh(s, available, env);
    if funded.ok {
      var capacity := Capacity(funded.session, env.desired.value);
      var target := capacity + env.prefetch.value;
      PollObjectsKeeps(serve, funded.session, target, env.source);
      var pulled := PollObjects(funded.session, target, env.source);
      NewPlansPaidFor(serve, funded.session, pulled.session);
      if pulled.ok { FillPlansPaidFor(serve, pulled.session, funded.available, capacity, pulled.parked, env); }
    }
  }

  lemma PopPaidFor(s: Session, available: nat, desired: nat)
    requires s.plans != [] && s.plans[0].buffer != [] && PaidFor(s.plans)
    ensures PaidFor(PopReady(s, available, desired).session.plans)
  {
    hide Total;
  }

  lemma PollPaidFor(serve: Serve, s: Session, available: nat, env: Env)
    requires Inv(serve, s) && PaidFor(s.plans)
    ensures PaidFor(Poll(s, available, env).session.plans)
  {
    hide Inv, Fill, PaidFor, PopReady;
    FillPaidFor(serve, s, available, env);
    var f := Fill(s, available, env);
    if f.phase.InProgress? && f.session.plans != [] && f.session.plans[0].buffer != [] {
      PopPaidFor(f.session, f.available, env.desired.value);
    }
  }

  /** In every run, a download is opened only for an object that a permit was spent on. */
  lemma {:induction false} DownloadsArePaidFor(serve: Serve, s: Session, events: seq<Event>)
    requires Fresh(s) && HonestRun(serve, events)
    ensures PaidFor(Drive(s, events).session.plans)
  {
    hide Poll, PaidFor, Ordered, Inv, Honest;
    if events == [] {
      NothingPaidFor(s.plans);
    } else {
      var n := |events| - 1;
      DownloadsArePaidFor(serve, s, events[..n]);
      DriveKeeps(serve, s, events[..n]);
      var d := Drive(s, events[..n]);
      if !d.phase.Aborted? && events[n].Polled? { PollPaidFor(serve, d.session, events[n].available, events[n].env); }
    }
  }

  lemma NothingPaidFor(plans: seq<Plan>)
    requires plans == []
    ensures PaidFor(plans)
  {
  }

  // ---- Registrations -------------------------------------------------------------------------------------

  /**
   This plan's ticket, if it still has one, is registered; so is its download, if that may be asked,
   unless the poll woke itself.
   */
  ghost predicate PlanRegistered(p: Plan, woke: bool, parked: set<Waker>) {
    && (p.ticket ==> WakeUrl(p.serial) in parked)
    && (Polls(p) && !woke ==> WakeDownload(p.serial) in parked)
  }

  ghost predicate AllRegistered(plans: seq<Plan>, woke: bool, parked: set<Waker>) {
    forall i | 0 <= i < |plans| :: PlanRegistered(plans[i], woke, parked)
  }

  lemma TicketsRegistered(plans: seq<Plan>, env: Env)
    requires forall i | 0 <= i < |plans| :: !UrlFails(plans[i], env)
    ensures forall i | 0 <= i < |plans| && AfterUrls(plans, env)[i].ticket ::
              WakeUrl(AfterUrls(plans, env)[i].serial) in UrlWakers(plans, env)
  {
    forall i | 0 <= i < |plans| && AfterUrls(plans, env)[i].ticket
      ensures WakeUrl(AfterUrls(plans, env)[i].serial) in UrlWakers(plans, env)
    {
      assert !UrlFails(plans[i], env) && AwaitsUrl(plans[i], env);
    }
  }

  lemma DownloadsRegistered(plans: seq<Plan>, parked: set<Waker>, env: Env)
    requires forall i | 0 <= i < |plans| :: !DownloadFails(plans[i], env)
    requires forall i | 0 <= i < |plans| && plans[i].ticket :: WakeUrl(plans[i].serial) in parked
    ensures var progressed := exists i | 0 <= i < |plans| :: Progresses(plans[i], env);
            AllRegistered(AfterDownloads(plans, env), progressed, parked + DownloadWakers(plans, env))
  {
    var progressed := exists i | 0 <= i < |plans| :: Progresses(plans[i], env);
    var after, waiting := AfterDownloads(plans, env), parked + DownloadWakers(plans, env);
    forall i | 0 <= i < |plans| ensures PlanRegistered(after[i], progressed, waiting) {
      assert after[i].ticket == plans[i].ticket && after[i].serial == plans[i].serial && !DownloadFails(plans[i], env);
      if !progressed && Polls(after[i]) {
        assert !Progresses(plans[i], env);
        assert AwaitsFrame(plans[i], env);
      }
    }
  }

  lemma TailRegistered(plans: seq<Plan>, n: nat, woke: bool, parked: set<Waker>)
    requires n <= |plans| && AllRegistered(plans, woke, parked)
    ensures AllRegistered(plans[n..], woke, parked)
  {
  }

  lemma DownloadsRegister(s: Session, available: nat, parked: set<Waker>, env: Env)
    requires forall i | 0 <= i < |s.plans| && s.plans[i].ticket :: WakeUrl(s.plans[i].serial) in parked
    ensures var f := FillDownloads(s, available, parked, env);
            !f.phase.Aborted? ==> AllRegistered(f.session.plans, f.woke, f.parked) && parked <= f.parked
  {
    hide AfterDownloads, Discard, DownloadFails, Progresses, DownloadWakers, AllRegistered;
    if !exists i | 0 <= i < |s.plans| :: DownloadFails(s.plans[i], env) {
      DownloadsRegistered(s.plans, parked, env);
      DiscardRegistered(s.(plans := AfterDownloads(s.plans, env)), exists i | 0 <= i < |s.plans| :: Progresses(s.plans[i], env),
                        parked + DownloadWakers(s.plans, env));
      NoneRegistered(parked + DownloadWakers(s.plans, env));
    }
  }

  lemma DiscardRegistered(s: Session, woke: bool, parked: set<Waker>)
    requires AllRegistered(s.plans, woke, parked)
    ensures AllRegistered(Discard(s).plans, woke, parked)
  {
    hide Discard, AllRegistered;
    DiscardDrops(s);
    var n: nat :| n <= |s.plans| && Discard(s).plans == s.plans[n..];
    TailRegistered(s.plans, n, woke, parked);
  }

  lemma FillRegisters(s: Session, available: nat, capacity: nat, sourceParked: bool, env: Env)
    ensures var f := FillPlans(s, available, capacity, sourceParked, env);
            !f.phase.Aborted? ==> AllRegistered(f.session.plans, f.woke, f.parked) && (sourceParked ==> WakeSource in f.parked)
  {
    hide AuthorizeWindow, AfterUrls, UrlFails, UrlWakers, FillDownloads, AllRegistered;
    var plans := AuthorizeWindow(s.plans, capacity);
    if !exists i | 0 <= i < |plans| :: UrlFails(plans[i], env) {
      TicketsRegistered(plans, env);
      var parked := (if sourceParked then {WakeSource} else {}) + UrlWakers(plans, env);
      var resolved := s.(plans := AfterUrls(plans, env));
      DownloadsRegister(resolved, available, parked, env);
      assert FillPlans(s, available, capacity, sourceParked, env) == FillDownloads(resolved, available, parked, env);
    }
  }

  lemma NoneRegistered(parked: set<Waker>)
    ensures AllRegistered([], false, parked)
  {
  }

  lemma MoreRegistered(plans: seq<Plan>, woke: bool, parked: set<Waker>, more: set<Waker>)
    requires AllRegistered(plans, woke, parked) && parked <= more
    ensures AllRegistered(plans, woke, more)
  {
    forall i | 0 <= i < |plans| ensures PlanRegistered(plans[i], woke, more) { assert PlanRegistered(plans[i], woke, parked); }
  }

  /** A pop leaves the other plans, and the front one has no ticket. */
  lemma PopRegistered(s: Session, available: nat, desired: nat, woke: bool, parked: set<Waker>)
    requires s.plans != [] && s.plans[0].buffer != [] && AllRegistered(s.plans, woke, parked)
    ensures AllRegistered(PopReady(s, available, desired).session.plans, true, parked)
  {
    hide Total;
    var popped := PopFront(s);
    forall i | 0 <= i < |popped.plans| ensures PlanRegistered(popped.plans[i], true, parked) {
      assert PlanRegistered(s.plans[i], woke, parked);
    }
  }

  /**
   Prefetching loses no wake-up either: after a poll that does not fail, every ticket still
   outstanding is registered, and unless the poll woke itself so is every download that may go on.
   */
  lemma EveryPlanRegistered(s: Session, available: nat, env: Env)
    ensures var o := Poll(s, available, env);
            !o.phase.Aborted? ==> AllRegistered(o.session.plans, o.woke, o.parked)
  {
    hide Refresh, PollObjects, FillPlans, PopReady, AllRegistered, Capacity;
    var funded := Refresh(s, available, env);
    if funded.ok {
      var capacity := Capacity(funded.session, env.desired.value);
      var pulled := PollObjects(funded.session, capacity + env.prefetch.value, env.source);
      FillRegisters(pulled.session, funded.available, capacity, pulled.parked, env);
      var f := Fill(s, available, env);
      if !f.phase.Aborted? {
        MoreRegistered(f.session.plans, f.woke, f.parked, f.parked + {WakeSink});
        if f.phase.InProgress? && f.session.plans != [] && f.session.plans[0].buffer != [] {
          PopRegistered(f.session, f.available, env.desired.value, f.woke, f.parked);
        }
      }
    }
  }

  /** What the environment answered "pending" to in this poll. */
  ghost predicate AnsweredPending(w: Waker, pulled: bool, env: Env) {
    match w
    case WakeSource => pulled
    case WakeUrl(serial) => env.url(serial).Pending?
    case WakeDownload(serial) => exists k: nat :: env.download(serial, k).FramePending?
    case WakeSink => env.sinkReady.Pending? || env.sinkClose.Pending?
  }

  /** And no registration is left with anything else. */
  lemma OnlyPendingRegistered(s: Session, available: nat, env: Env)
    ensures var funded, o := Refresh(s, available, env), Poll(s, available, env);
            forall w | w in o.parked ::
              && funded.ok
              && var target := Capacity(funded.session, env.desired.value) + env.prefetch.value;
                 AnsweredPending(w, PollObjects(funded.session, target, env.source).parked, env)
  {
    hide Refresh, PollObjects, PopReady, AuthorizeWindow, AfterUrls, AfterDownloads, Discard, Capacity;
  }

  // ---- The sink ------------------------------------------------------------------------------------------

  /**
   A frame is handed over exactly if it is at hand once the poll has fetched what it could, the sink is
   ready and takes it; then it is the next one, and nothing else is sent.
   */
  lemma PollSendsIff(serve: Serve, s: Session, available: nat, env: Env)
    requires Inv(serve, s) && Honest(serve, env)
    ensures var f, o := Fill(s, available, env), Poll(s, available, env);
            var sends := && f.phase.InProgress? && f.session.plans != [] && f.session.plans[0].buffer != []
                         && env.sinkReady.Ready? && env.sinkAccepts;
            && (sends <==> o.session.sent != s.sent)
            && (sends ==> o.session.sent == s.sent + [serve(f.session.plans[0].serial, f.session.plans[0].emitted)] && o.woke)
  {
    hide Fill, PollObjects, Total, AllFrames, Offset, SentOk, Sourced, Chained, Tiled, Head, RightsInFront, Honest;
    FillKeeps(serve, s, available, env);
    var f := Fill(s, available, env);
    if f.session.plans != [] { assert PlanOk(serve, f.session.plans[0]); }
  }

  /**
   After a frame is sent, the permits above both the window and what is still in flight go back at
   once, and no others.
   */
  lemma PopFreesSurplus(serve: Serve, s: Session, available: nat, desired: Positive)
    requires Inv(serve, s) && s.plans != [] && s.plans[0].buffer != []
    ensures var popped := PopReady(s, available, desired);
            var kept := Max(Min(desired, s.allocation), Committed(popped.session.plans));
            kept <= s.allocation && popped.session.allocation == kept && popped.available == available + s.allocation - kept
  {
    PoppedKeeps(serve, s);
    hide PlansOk, AllFrames, Offset, SentOk, Sourced, Chained, Tiled, Head, RightsInFront, Total;
  }

  // ---- The plan ahead ------------------------------------------------------------------------------------

  lemma FillPlansStays(s: Session, available: nat, capacity: nat, parked: bool, env: Env)
    ensures var f := FillPlans(s, available, capacity, parked, env);
            && f.session.cursor == s.cursor && f.session.terminated == s.terminated
            && f.session.first == s.first && f.session.last == s.last && f.session.sent == s.sent
            && (!f.phase.Aborted? && parked ==> WakeSource in f.parked)
  {
    hide AuthorizeWindow, AfterUrls, AfterDownloads, UrlFails, DownloadFails, Progresses, UrlWakers, DownloadWakers;
    var authorized := s.(plans := AuthorizeWindow(s.plans, capacity));
    DiscardStays(authorized.(plans := AfterDownloads(AfterUrls(authorized.plans, env), env)));
  }

  lemma {:induction false} DiscardStays(s: Session)
    ensures var t := Discard(s);
            t.cursor == s.cursor && t.terminated == s.terminated && t.first == s.first && t.last == s.last && t.sent == s.sent
    decreases |s.plans|
  {
    if s.plans != [] && s.plans[0].Exhausted() { DiscardStays(DropFront(s)); }
  }

  lemma PulledEnough(s: Session, target: nat, answers: seq<SourceAnswer>)
    ensures var p := PollObjects(s, target, answers);
            p.ok ==>
              || Remaining(p.session.plans) >= target || p.session.cursor >= p.session.last
              || p.session.terminated || p.parked
    decreases |answers|
  {
    hide Total, Accept;
    if answers != [] && answers[0].SourceObject? { PulledEnough(Accept(s, answers[0].meta), target, answers[1..]); }
  }

  /**
   The plan reaches ahead by the window and the URL prefetch: after a fill as many frames are planned,
   or everything requested is, or the source has ended or is waited for.
   */
  lemma LooksAhead(serve: Serve, s: Session, available: nat, env: Env)
    requires Inv(serve, s) && Honest(serve, env) && env.desired.Some? && env.prefetch.Some?
    ensures var f := FillFunded(s, available, env);
            !f.phase.Aborted? ==>
              || Remaining(f.session.plans) >= Min(env.desired.value, s.allocation) + env.prefetch.value
              || f.session.cursor >= f.session.last || f.session.terminated || WakeSource in f.parked
  {
    hide PlansOk, AllFrames, Offset, SentOk, Sourced, Chained, Tiled, Head, RightsInFront, PollObjects, FillPlans,
         Total, Honest;
    var capacity := Capacity(s, env.desired.value);
    var target := capacity + env.prefetch.value;
    var pulled := PollObjects(s, target, env.source);
    PulledEnough(s, target, env.source);
    PollObjectsKeeps(serve, s, target, env.source);
    if pulled.ok {
      FillFundedKeeps(serve, s, available, env);
      FillPlansStays(pulled.session, available, capacity, pulled.parked, env);
      RemainingIsPlanned(serve, pulled.session);
      RemainingIsPlanned(serve, FillFunded(s, available, env).session);
    }
  }
}
