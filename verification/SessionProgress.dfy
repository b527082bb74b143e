/**
 Why a driver never spins: every poll that wakes itself advances a measure that is bounded by
 the size of the request.
 */
module SessionProgress {
  import opened Basics
  import opened SessionModel
  import opened SessionInvariant
  import opened SessionRuns

  // ---- The measure ---------------------------------------------------------------------------------

  function ProgressOf(p: Plan): int { p.received - p.emitted + if p.finished then 1 else 0 }

  /** Frames received, frames emitted and downloads finished so far, added up. */
  function Progress(s: Session): int {
    2 * |s.sent| + Total(ProgressOf, s.plans) + s.retired
  }

  lemma {:induction false} ProgressBelow(serve: Serve, plans: seq<Plan>)
    requires PlansOk(serve, plans)
    ensures Total(ProgressOf, plans) <= Remaining(plans) + |plans|
  {
    if plans != [] {
      assert PlanOk(serve, plans[0]);
      ProgressBelow(serve, plans[1..]);
    }
  }

  lemma ProgressBounded(serve: Serve, s: Session)
    requires Inv(serve, s)
    ensures Progress(s) <= 3 * (s.last - s.first)
  {
    RemainingIsPlanned(serve, s);
    ProgressBelow(serve, s.plans);
    if s.plans != [] { RemainingTelescopes(serve, s.plans); }
    hide AllFrames, Offset, SentOk, Sourced, RightsInFront, PlansOk, Chained, Total;
  }

  /** How plan-by-plan receiving moves the measure. */
  lemma {:induction false} ReceiveProgress(serve: Serve, plans: seq<Plan>, env: Env)
    requires PlansOk(serve, plans)
    requires forall i | 0 <= i < |plans| :: !DownloadFails(plans[i], env)
    ensures Total(ProgressOf, AfterDownloads(plans, env)) >= Total(ProgressOf, plans)
    ensures (exists i | 0 <= i < |plans| :: Progresses(plans[i], env)) ==>
              Total(ProgressOf, AfterDownloads(plans, env)) > Total(ProgressOf, plans)
    ensures !(exists i | 0 <= i < |plans| :: Progresses(plans[i], env)) ==> AfterDownloads(plans, env) == plans
  {
    var after := AfterDownloads(plans, env);
    forall i | 0 <= i < |plans|
      ensures ProgressOf(after[i]) == ProgressOf(plans[i]) + (if Progresses(plans[i], env) then 1 else 0)
      ensures !Progresses(plans[i], env) ==> after[i] == plans[i]
    {
    }
    TotalMonotone(ProgressOf, plans, ProgressOf, after);
  }

  lemma SameProgress(plans: seq<Plan>, after: seq<Plan>)
    requires |plans| == |after|
    requires forall i | 0 <= i < |plans| :: ProgressOf(after[i]) == ProgressOf(plans[i])
    ensures Total(ProgressOf, after) == Total(ProgressOf, plans)
  {
    TotalMonotone(ProgressOf, plans, ProgressOf, after);
    TotalMonotone(ProgressOf, after, ProgressOf, plans);
  }

  lemma {:induction false} DiscardProgress(serve: Serve, s: Session)
    requires PlansOk(serve, s.plans)
    ensures Progress(Discard(s)) == Progress(s)
    decreases |s.plans|
  {
    if s.plans != [] && s.plans[0].Exhausted() {
      assert PlanOk(serve, s.plans[0]);
      assert forall i | 0 <= i < |s.plans[1..]| :: s.plans[1..][i] == s.plans[i + 1];
      DiscardProgress(serve, DropFront(s));
    }
  }

  lemma NewPlansNoProgress(s: Session, t: Session)
    requires OnlyPlans(s, t)
    ensures Progress(t) == Progress(s)
  {
    var added := t.plans[|s.plans|..];
    assert t.plans == s.plans + added;
    TotalAppend(ProgressOf, s.plans, added);
    ZeroTotal(added);
    TotalMonotone(ProgressOf, added, ZeroOf, added);
    TotalMonotone(ZeroOf, added, ProgressOf, added);
  }

  // ---- One poll's progress ---------------------------------------------------------------------

  lemma AuthorizeProgress(serve: Serve, s: Session, capacity: nat)
    requires PlansOk(serve, s.plans)
    ensures Total(ProgressOf, AuthorizeWindow(s.plans, capacity)) == Total(ProgressOf, s.plans)
  {
    AuthorizeRaises(s.plans, Max(capacity - Committed(s.plans), 0));
    hide PlanOk, Total, Authorize;
    SameProgress(s.plans, AuthorizeWindow(s.plans, capacity));
  }

  lemma AfterUrlsProgress(plans: seq<Plan>, env: Env)
    ensures Total(ProgressOf, AfterUrls(plans, env)) == Total(ProgressOf, plans)
  {
    SameProgress(plans, AfterUrls(plans, env));
  }

  /** A fill step that does not fail advances the measure, strictly if it woke the driver. */
  ghost predicate Advances(s: Session, f: Filled) {
    !f.phase.Aborted? ==> Progress(f.session) >= Progress(s) + if f.woke then 1 else 0
  }

  lemma FillDownloadsProgress(serve: Serve, s: Session, available: nat, parked: set<Waker>, env: Env)
    requires Inv(serve, s) && Honest(serve, env)
    ensures Advances(s, FillDownloads(s, available, parked, env))
  {
    if !exists i | 0 <= i < |s.plans| :: DownloadFails(s.plans[i], env) {
      ReceiveProgress(serve, s.plans, env);
      AfterDownloadsKeeps(serve, s, env);
      DiscardProgress(serve, s.(plans := AfterDownloads(s.plans, env)));
      hide Inv, DownloadFails, Progresses, AfterDownloads, Honest, Total;
    }
  }

  lemma FillPlansProgress(serve: Serve, s: Session, available: nat, capacity: nat, parked: bool, env: Env)
    requires Inv(serve, s) && capacity <= s.allocation && Honest(serve, env)
    ensures Advances(s, FillPlans(s, available, capacity, parked, env))
  {
    hide AuthorizeWindow, AfterUrls, Honest, UrlFails, UrlWakers, FillDownloads;
    var authorized := s.(plans := AuthorizeWindow(s.plans, capacity));
    AuthorizeKeeps(serve, s, capacity);
    AuthorizeProgress(serve, s, capacity);
    hide Inv;
    if !exists i | 0 <= i < |authorized.plans| :: UrlFails(authorized.plans[i], env) {
      var resolved := authorized.(plans := AfterUrls(authorized.plans, env));
      var waiting := (if parked then {WakeSource} else {}) + UrlWakers(authorized.plans, env);
      AfterUrlsKeeps(serve, authorized, env);
      AfterUrlsProgress(authorized.plans, env);
      FillDownloadsProgress(serve, resolved, available, waiting, env);
    }
  }

  lemma FillFundedProgress(serve: Serve, s: Session, available: nat, env: Env)
    requires Inv(serve, s) && Honest(serve, env) && env.desired.Some? && env.prefetch.Some?
    ensures Advances(s, FillFunded(s, available, env))
  {
    hide Inv, PollObjects, FillPlans, Honest, Total;
    var capacity := Capacity(s, env.desired.value);
    var target := capacity + env.prefetch.value;
    PollObjectsKeeps(serve, s, target, env.source);
    var pulled := PollObjects(s, target, env.source);
    NewPlansNoProgress(s, pulled.session);
    assert capacity <= pulled.session.allocation;
    hide OnlyPlans, Progress;
    if pulled.ok { FillPlansProgress(serve, pulled.session, available, capacity, pulled.parked, env); }
  }

  lemma FillProgress(serve: Serve, s: Session, available: nat, env: Env)
    requires Inv(serve, s) && Honest(serve, env)
    ensures Advances(s, Fill(s, available, env))
  {
    var funded := Refresh(s, available, env);
    RefreshKeeps(serve, s, available, env);
    hide Inv, Refresh, FillFunded, Honest, Total;
    if funded.ok { FillFundedProgress(serve, funded.session, funded.available, env); }
  }

  lemma PopProgress(serve: Serve, s: Session, available: nat, desired: Positive)
    requires Inv(serve, s) && s.plans != [] && s.plans[0].buffer != []
    ensures Progress(PopReady(s, available, desired).session) == Progress(s) - 1
  {
    var front := PopFront(s).plans[0];
    assert PlanOk(serve, s.plans[0]);
    TotalUpdateFront(ProgressOf, s.plans, front);
    hide Inv;
    var popped := PopFront(s);
    assert Total(ProgressOf, popped.plans) == ProgressOf(front) + Total(ProgressOf, popped.plans[1..]);
  }

  /** Emitting pays for the wake it causes. */
  lemma EmitProgress(serve: Serve, f: Filled, env: Env)
    requires f.phase.InProgress? && env.desired.Some? && Settled(serve, f.session)
    ensures var o := Emit(f, env);
            && o.session.first == f.session.first && o.session.last == f.session.last
            && (!o.phase.Aborted? ==>
                  Progress(o.session) + (if f.woke then 1 else 0) >= Progress(f.session) + (if o.woke then 1 else 0))
  {
    hide Inv, Total;
    var s := f.session;
    if s.plans != [] && env.sinkReady.Ready? && s.plans[0].buffer != [] {
      PopProgress(serve, s, f.available, env.desired.value);
      PoppedFront(serve, s, f.available, env.desired.value);
      hide PopReady;
    }
  }

  /** Every poll that does not fail advances the measure, strictly if it woke itself. */
  lemma PollProgress(serve: Serve, s: Session, available: nat, env: Env)
    requires Settled(serve, s) && Honest(serve, env)
    ensures var o := Poll(s, available, env);
            !o.phase.Aborted? ==> Progress(o.session) >= Progress(s) + if o.woke then 1 else 0
  {
    FillKeeps(serve, s, available, env);
    FillProgress(serve, s, available, env);
    var f := Fill(s, available, env);
    hide Fill, Honest, Inv, Progress;
    if f.phase.InProgress? {
      EmitProgress(serve, f, env);
      hide Emit;
    }
  }

  lemma StepProgress(serve: Serve, s: Session, d: Driven, event: Event)
    requires DriveKept(serve, s, d) && Progress(d.session) >= d.selfWakes
    requires event.Polled? ==> Honest(serve, event.env)
    ensures var after := Step(d, event);
            !after.phase.Aborted? ==> Progress(after.session) >= after.selfWakes
    ensures Step(d, event).phase.Aborted? && !d.phase.Aborted? ==> Step(d, event).selfWakes <= d.selfWakes + 1
  {
    hide Inv, Ordered, Honest, Total;
    if !d.phase.Aborted? && event.Polled? {
      PollProgress(serve, d.session, event.available, event.env);
      hide Poll;
    }
  }

  /** Over any run a driver wakes itself at most three times per requested frame, plus once. */
  lemma {:induction false} SelfWakesBounded(serve: Serve, s: Session, events: seq<Event>)
    requires Fresh(s) && HonestRun(serve, events)
    ensures var d := Drive(s, events);
            && (!d.phase.Aborted? ==> d.selfWakes <= Progress(d.session))
            && d.selfWakes <= 3 * (s.last - s.first) + 1
  {
    if events != [] {
      var n := |events| - 1;
      var before := Drive(s, events[..n]);
      SelfWakesBounded(serve, s, events[..n]);
      DriveKeeps(serve, s, events[..n]);
      DriveKeeps(serve, s, events);
      assert events[n].Polled? ==> Honest(serve, events[n].env);
      if !before.phase.Aborted? {
        StepProgress(serve, s, before, events[n]);
        ProgressBounded(serve, before.session);
        var after := Drive(s, events);
        if !after.phase.Aborted? { ProgressBounded(serve, after.session); }
      }
      hide Inv, Step, Progress, Ordered, HonestRun;
    }
  }
}
