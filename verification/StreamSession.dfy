/**
 The session and its driver as objects updated in place, each operation proved against the
 transition functions of `SessionModel`.
 */
module StreamSessions {
  import opened Basics
  import opened FrameMemory
  import opened SessionModel

  class StreamSession {
    const first: nat
    const last: nat
    const budget: FrameBudget
    const allocation: FramePermit
    var plans: seq<Plan>
    var ticket: Ticket
    var cursor: nat
    var terminated: bool

    // History, kept for the statements below only.
    var supplied: seq<ObjectMeta>
    var sent: seq<Frame>
    var retired: nat

    /** The session as a value of the model. */
    ghost function State(): Session
      reads this, allocation
    {
      Session(first, last, plans, allocation.frames, ticket, cursor, terminated, supplied, sent, retired)
    }

    /** The permit comes from the session's budget, which is never overdrawn. */
    ghost predicate Valid()
      reads this, allocation, budget
    {
      allocation.budget == budget && budget.available + Held(State()) <= budget.capacity
    }

    constructor (first: nat, last: nat, budget: FrameBudget, allocation: FramePermit)
      requires allocation.budget == budget && budget.available + allocation.frames <= budget.capacity
      ensures Valid() && this.budget == budget && this.allocation == allocation
      ensures State() == Session(first, last, [], allocation.frames, NoTicket, 0, false, [], [], 0)
    {
      this.first := first;
      this.last := last;
      this.budget := budget;
      this.allocation := allocation;
      plans, ticket, cursor, terminated := [], NoTicket, 0, false;
      supplied, sent, retired := [], [], 0;
    }

    /**
     `StreamSession::new`: one permit to start with, then whatever of the window is free.
     A session that cannot be opened leaves the budget as it found it.
     */
    static method Open(first: nat, last: nat, budget: FrameBudget, desired: Positive)
      returns (r: Result<StreamSession, BudgetError>)
      requires budget.available <= budget.capacity
      modifies budget
      ensures r.Ok? <==> budget.capacity >= 1 && old(budget.available) >= 1
                         && OpenSession(first, last, old(budget.available), desired).ok
      ensures r.Ok? ==>
                && fresh(r.value) && fresh(r.value.allocation) && r.value.budget == budget && r.value.Valid()
                && Funded(r.value.State(), budget.available, true)
                == OpenSession(first, last, old(budget.available), desired)
      ensures r.Err? ==> budget.available == old(budget.available)
    {
      var permit := budget.TryReserve(1);
      if permit.Err? { return Err(permit.error); }
      var session := new StreamSession(first, last, budget, permit.value);
      var missing := Min(desired - 1, budget.available);
      var grown := session.GrowAvailable(desired);
      if !grown {
        session.allocation.ShrinkTo(0);
        return Err(TooManyFrames(missing));
      }
      return Ok(session);
    }

    // ---- refresh_allocation -----------------------------------------------------------

    method GrowAvailable(desired: nat) returns (ok: bool)
      requires Valid()
      modifies allocation, budget
      ensures Valid()
      ensures Funded(State(), budget.available, ok) == SessionModel.GrowAvailable(old(State()), old(budget.available), desired)
    {
      var missing := Min(Max(desired - allocation.frames, 0), budget.available);
      if missing == 0 { return true; }
      var extra := budget.TryReserve(missing);
      match extra
      case Ok(permit) =>
        allocation.Merge(permit);
        return true;
      case Err(error) =>
        return error.Unavailable?;
    }

    /** Drops the outstanding ticket if the window no longer needs it, else polls it. */
    method PollTicket(desired: nat)
      requires Valid()
      modifies this, allocation, budget
      ensures Valid()
      ensures Funded(State(), budget.available, true) == SessionModel.PollTicket(old(State()), old(budget.available), desired)
    {
      if desired <= allocation.frames {
        if ticket.Granted? { budget.available := budget.available + 1; }
        ticket := NoTicket;
      } else if ticket.Granted? {
        allocation.frames := allocation.frames + 1;
        ticket := NoTicket;
      }
    }

    /** Asks for one more permit, to be had at once or through a ticket. */
    method RequestTicket(desired: nat)
      requires Valid()
      modifies this, allocation, budget
      ensures Valid()
      ensures Funded(State(), budget.available, true) == SessionModel.RequestTicket(old(State()), old(budget.available), desired)
    {
      if desired > allocation.frames && ticket.NoTicket? {
        if budget.available >= 1 {
          budget.available := budget.available - 1;
          allocation.frames := allocation.frames + 1;
        } else {
          ticket := Waiting;
        }
      }
    }

    method RefreshAllocation(env: Env) returns (ok: bool)
      requires Valid()
      modifies this, allocation, budget
      ensures Valid()
      ensures Funded(State(), budget.available, ok) == Refresh(old(State()), old(budget.available), env)
    {
      hide SessionModel.PollTicket, SessionModel.GrowAvailable, SessionModel.RequestTicket, Committed;
      if env.desired.None? { return false; }
      var desired := env.desired.value;
      PollTicket(desired);
      ok := GrowAvailable(desired);
      if !ok { return; }
      RequestTicket(desired);
      var capacity := Min(desired, allocation.frames);
      allocation.ShrinkTo(Max(capacity, Committed(plans)));
      return env.prefetch.Some?;
    }

    // ---- poll_objects --------------------------------------------------------------------

    method PollObjects(target: nat, answers: seq<SourceAnswer>) returns (ok: bool, parked: bool)
      modifies this
      ensures Pulled(State(), ok, parked) == SessionModel.PollObjects(old(State()), target, answers)
      ensures ticket == old(ticket)
    {
      var planned := Remaining(plans);
      var next := 0;
      while planned < target && cursor < last && !terminated
        invariant next <= |answers| && planned == Remaining(plans) && ticket == old(ticket)
        invariant SessionModel.PollObjects(State(), target, answers[next..])
               == SessionModel.PollObjects(old(State()), target, answers)
        decreases |answers| - next, !terminated
      {
        if next == |answers| { return true, true; }
        var answer := answers[next];
        assert answers[next..][0] == answer && answers[next..][1..] == answers[next + 1..];
        next := next + 1;
        match answer
        case SourcePending => return true, true;
        case SourceEnd =>
          terminated := true;
          return true, false;
        case SourceError => return false, false;
        case SourceObject(meta) =>
          if meta.frameCount == 0 || cursor + meta.frameCount > U64_MAX { return false, false; }
          var useful := AcceptObject(meta);
          planned := planned + useful;
      }
      return true, false;
    }

    /** Plans the useful frames of one object; returns how many there are. */
    method AcceptObject(meta: ObjectMeta) returns (useful: nat)
      modifies this
      ensures State() == Accept(old(State()), meta)
      ensures Remaining(plans) == Remaining(old(plans)) + useful
    {
      var objectStart, objectEnd := cursor, cursor + meta.frameCount;
      var serial := |supplied|;
      cursor := objectEnd;
      supplied := supplied + [meta];
      var usefulStart, usefulEnd := Max(objectStart, first), Min(objectEnd, last);
      if usefulStart >= usefulEnd { return 0; }
      var start, end := usefulStart - objectStart, usefulEnd - objectStart;
      var plan := Plan(serial, objectStart, meta, start, end, true, false, false, start, start, start, false, []);
      RemainingAppend(plans, plan);
      plans := plans + [plan];
      return end - start;
    }

    // ---- authorize --------------------------------------------------------------------------

    method Authorize(capacity: nat)
      modifies this
      ensures State() == old(State()).(plans := AuthorizeWindow(old(plans), capacity))
    {
      hide SessionModel.Authorize, Committed;
      var available: nat := Max(capacity - Committed(plans), 0);
      ghost var total: nat := available;
      var i := 0;
      while i < |plans| && available > 0
        invariant i <= |plans| == |old(plans)| && plans[i..] == old(plans)[i..]
        invariant State() == old(State()).(plans := plans)
        invariant SessionModel.Authorize(old(plans), total) == plans[..i] + SessionModel.Authorize(plans[i..], available)
      {
        var plan := plans[i];
        var added := Min(Max(plan.end - plan.authorized, 0), available);
        ghost var done, rest := plans[..i], plans[i + 1..];
        assert plans[i..] == [plan] + rest;
        AuthorizeStep(done, plan, rest, available);
        plans := plans[i := plan.(authorized := plan.authorized + added)];
        assert plans[i + 1..] == rest && plans[..i + 1] == done + [plans[i]];
        available := available - added;
        i := i + 1;
      }
      assert plans == plans[..i] + plans[i..];
      AuthorizeNothing(plans[i..], available);
    }

    // ---- poll_urls and poll_downloads ---------------------------------------------------------

    method PollUrls(env: Env) returns (ok: bool, ghost parked: set<Waker>)
      modifies this
      ensures ok <==> forall i | 0 <= i < |old(plans)| :: !UrlFails(old(plans)[i], env)
      ensures State() == old(State()).(plans := if ok then AfterUrls(old(plans), env) else plans)
      ensures ok ==> parked == UrlWakers(old(plans), env)
    {
      parked := {};
      var i := 0;
      while i < |plans|
        invariant i <= |plans| == |old(plans)| && State() == old(State()).(plans := plans)
        invariant forall j | 0 <= j < i :: !UrlFails(old(plans)[j], env) && plans[j] == CollectUrl(old(plans)[j], env)
        invariant forall j | i <= j < |plans| :: plans[j] == old(plans)[j]
        invariant parked == set j | 0 <= j < i && AwaitsUrl(old(plans)[j], env) :: WakeUrl(old(plans)[j].serial)
      {
        var plan := plans[i];
        if plan.ticket {
          match env.url(plan.serial)
          case Ready => plans := plans[i := plan.(url := true, ticket := false)];
          case Failed =>
            plans := plans[i := plan.(ticket := false)];
            assert UrlFails(old(plans)[i], env);
            return false, parked;
          case Pending => parked := parked + {WakeUrl(plan.serial)};
        }
        i := i + 1;
      }
      i := 0;
      while i < |plans|
        invariant i <= |plans| == |old(plans)| && State() == old(State()).(plans := plans)
        invariant forall j | 0 <= j < i :: plans[j] == OpenDownload(CollectUrl(old(plans)[j], env))
        invariant forall j | i <= j < |plans| :: plans[j] == CollectUrl(old(plans)[j], env)
      {
        var plan := plans[i];
        if plan.authorized != plan.emitted && !plan.download && plan.url {
          plans := plans[i := plan.(url := false, download := true)];
        }
        i := i + 1;
      }
      return true, parked;
    }

    /** Polls one plan's download once, if it may receive another frame or its end. */
    static method PollDownload(plan: Plan, env: Env) returns (next: Plan, ok: bool, progressed: bool)
      ensures ok <==> !DownloadFails(plan, env)
      ensures ok ==> next == Receive(plan, env) && progressed == Progresses(plan, env)
    {
      if plan.finished || (plan.received == plan.authorized && plan.received < plan.end) || !plan.download {
        return plan, true, false;
      }
      match env.download(plan.serial, plan.received)
      case FrameItem(frame) =>
        if plan.received == plan.end { return plan, false, false; }
        return plan.(buffer := plan.buffer + [frame], received := plan.received + 1), true, true;
      case FrameError => return plan, false, false;
      case FrameEnd =>
        if plan.received != plan.end { return plan, false, false; }
        return plan.(finished := true), true, true;
      case FramePending => return plan, true, false;
    }

    method PollDownloads(env: Env) returns (ok: bool, progressed: bool, ghost parked: set<Waker>)
      modifies this
      ensures ok <==> forall i | 0 <= i < |old(plans)| :: !DownloadFails(old(plans)[i], env)
      ensures State() == old(State()).(plans := if ok then AfterDownloads(old(plans), env) else plans)
      ensures ok ==> progressed == exists i | 0 <= i < |old(plans)| :: Progresses(old(plans)[i], env)
      ensures ok ==> parked == DownloadWakers(old(plans), env)
    {
      hide Receive, Progresses, DownloadFails, AwaitsFrame;
      progressed, parked := false, {};
      var i := 0;
      while i < |plans|
        invariant i <= |plans| == |old(plans)| && State() == old(State()).(plans := plans)
        invariant forall j | 0 <= j < i :: !DownloadFails(old(plans)[j], env) && plans[j] == Receive(old(plans)[j], env)
        invariant forall j | i <= j < |plans| :: plans[j] == old(plans)[j]
        invariant progressed == exists j | 0 <= j < i :: Progresses(old(plans)[j], env)
        invariant parked == set j | 0 <= j < i && AwaitsFrame(old(plans)[j], env) :: WakeDownload(old(plans)[j].serial)
      {
        var next, polled, moved := PollDownload(plans[i], env);
        if !polled { return false, progressed, parked; }
        if AwaitsFrame(plans[i], env) { parked := parked + {WakeDownload(plans[i].serial)}; }
        progressed := progressed || moved;
        plans := plans[i := next];
        i := i + 1;
      }
      return true, progressed, parked;
    }

    // ---- discard_finished and pop_ready ---------------------------------------------------------

    method DiscardFinished()
      modifies this
      ensures State() == Discard(old(State()))
    {
      while |plans| > 0 && plans[0].Exhausted()
        invariant Discard(State()) == Discard(old(State()))
      {
        plans := plans[1..];
        retired := retired + 1;
      }
    }

    method PopReady(desired: nat) returns (frame: Option<Frame>)
      requires Valid()
      modifies this, allocation, budget
      ensures Valid()
      ensures frame.None? <==> old(plans) == [] || old(plans)[0].buffer == []
      ensures sent == old(sent)
      ensures frame.None? ==> State() == old(State()) && budget.available == old(budget.available)
      ensures frame.Some? ==>
                && frame.value == old(plans)[0].buffer[0]
                && Funded(State(), budget.available, true)
                == SessionModel.PopReady(old(State()), old(budget.available), desired)
    {
      if |plans| == 0 { return None; }
      var plan := plans[0];
      if |plan.buffer| == 0 { return None; }
      var popped := plan.(buffer := plan.buffer[1..], emitted := plan.emitted + 1);
      if popped.Exhausted() {
        assert plans[0 := popped][1..] == plans[1..];
        plans := plans[1..];
        retired := retired + 1;
      } else {
        plans := plans[0 := popped];
      }
      allocation.ShrinkTo(Max(Min(desired, allocation.frames), Committed(plans)));
      return Some(plan.buffer[0]);
    }

    // ---- poll_fill --------------------------------------------------------------------------------

    /** A failed fill leaves the plans half stepped; everything else is as the model says. */
    ghost predicate Agrees(f: Filled, phase: Phase, woke: bool, parked: set<Waker>)
      reads this, allocation, budget
    {
      && phase == f.phase && budget.available == f.available
      && State() == f.session.(plans := if phase.Aborted? then plans else f.session.plans)
      && (!phase.Aborted? ==> woke == f.woke && parked == f.parked)
    }

    method PollFill(env: Env) returns (phase: Phase, woke: bool, ghost parked: set<Waker>)
      requires Valid()
      modifies this, allocation, budget
      ensures Valid()
      ensures Agrees(Fill(old(State()), old(budget.available), env), phase, woke, parked)
    {
      hide Refresh, SessionModel.PollObjects, SessionModel.FillPlans, AfterUrls, AfterDownloads, Discard, UrlWakers, DownloadWakers;
      var ok := RefreshAllocation(env);
      if !ok { return Aborted, false, {}; }
      var capacity := Min(env.desired.value, allocation.frames);
      var sourceParked;
      ok, sourceParked := PollObjects(capacity + env.prefetch.value, env.source);
      if !ok { return Aborted, false, {}; }
      phase, woke, parked := FillPlans(capacity, sourceParked, env);
    }

    method FillPlans(capacity: nat, sourceParked: bool, env: Env) returns (phase: Phase, woke: bool, ghost parked: set<Waker>)
      requires Valid()
      modifies this
      ensures Valid()
      ensures Agrees(SessionModel.FillPlans(old(State()), old(budget.available), capacity, sourceParked, env), phase, woke, parked)
    {
      hide AuthorizeWindow, AfterUrls, AfterDownloads, Discard, UrlWakers, DownloadWakers, UrlFails, DownloadFails, Progresses;
      Authorize(capacity);
      var ok;
      ghost var urls;
      ok, urls := PollUrls(env);
      if !ok { return Aborted, false, {}; }
      parked := (if sourceParked then {WakeSource} else {}) + urls;
      phase, woke, parked := FillDownloads(parked, env);
    }

    method FillDownloads(ghost waiting: set<Waker>, env: Env) returns (phase: Phase, woke: bool, ghost parked: set<Waker>)
      requires Valid()
      modifies this
      ensures Valid()
      ensures Agrees(SessionModel.FillDownloads(old(State()), old(budget.available), waiting, env), phase, woke, parked)
    {
      hide AfterDownloads, Discard, DownloadWakers, DownloadFails, Progresses;
      var ok, progressed;
      ghost var downloads;
      ok, progressed, downloads := PollDownloads(env);
      if !ok { return Aborted, false, {}; }
      DiscardFinished();
      DiscardScope(old(State()).(plans := AfterDownloads(old(plans), env)));
      if |plans| == 0 && (terminated || cursor >= last) { return Closing, false, waiting + downloads; }
      return InProgress, progressed, waiting + downloads;
    }
  }

  /** Discarding touches only the plans and their count. */
  lemma DiscardScope(s: Session)
    ensures Discard(s) == s.(plans := Discard(s).plans, retired := Discard(s).retired)
    decreases |s.plans|
  {
    if s.plans != [] && s.plans[0].Exhausted() { DiscardScope(DropFront(s)); }
  }

  /** `StreamDriver`: a session and the sink it feeds. */
  class StreamDriver {
    const session: StreamSession

    constructor (session: StreamSession)
      ensures this.session == session
    {
      this.session := session;
    }

    /** One poll, with the frame it handed to the sink, if any. */
    method Poll(env: Env) returns (phase: Phase, woke: bool, ghost parked: set<Waker>)
      requires session.Valid()
      modifies session, session.allocation, session.budget
      ensures session.Valid()
      ensures var o := SessionModel.Poll(old(session.State()), old(session.budget.available), env);
              session.Agrees(Filled(o.session, o.available, o.phase, o.woke, o.parked), phase, woke, parked)
    {
      hide Fill, SessionModel.PopReady;
      phase, woke, parked := session.PollFill(env);
      if phase.Aborted? { return; }
      if phase.Closing? {
        match env.sinkClose
        case Failed => return Aborted, woke, parked;
        case Pending => return phase, woke, parked + {WakeSink};
        case Ready => return;
      }
      if |session.plans| > 0 {
        match env.sinkReady
        case Failed => return Aborted, woke, parked;
        case Pending => parked := parked + {WakeSink};
        case Ready =>
          var frame := session.PopReady(env.desired.value);
          if frame.Some? {
            woke := true;
            if !env.sinkAccepts { return Aborted, woke, parked; }
            session.sent := session.sent + [frame.value];
          }
      }
      phase := Flushed(env);
    }
  }

  lemma AuthorizeNothing(plans: seq<Plan>, available: nat)
    ensures plans == [] || available == 0 ==> SessionModel.Authorize(plans, available) == plans
  {
  }

  lemma AuthorizeStep(done: seq<Plan>, plan: Plan, rest: seq<Plan>, available: nat)
    requires available > 0
    ensures done + SessionModel.Authorize([plan] + rest, available)
         == var added := Min(Max(plan.end - plan.authorized, 0), available);
            (done + [plan.(authorized := plan.authorized + added)]) + SessionModel.Authorize(rest, available - added)
  {
    assert ([plan] + rest)[1..] == rest;
  }

  lemma RemainingAppend(plans: seq<Plan>, plan: Plan)
    ensures Remaining(plans + [plan]) == Remaining(plans) + plan.end - plan.emitted
  {
    if plans == [] {
      assert plans + [plan] == [plan];
    } else {
      assert (plans + [plan])[1..] == plans[1..] + [plan];
      RemainingAppend(plans[1..], plan);
    }
  }
}
