/**
 What every poll keeps: the plans tile the stretch of global frames between the next
 frame to emit and the last planned one, download rights form one run at its front, and
 the frames already handed over are the request's first ones.
 */
module SessionInvariant {
  import opened Basics
  import opened SessionModel

  /** `serve(serial, k)` is frame `k` of the object the source supplied at `serial`. */
  type Serve = (nat, nat) -> Frame

  // ---- The global frame sequence -------------------------------------------------------

  function Offset(supplied: seq<ObjectMeta>, serial: nat): nat
    requires serial <= |supplied|
  {
    if serial == 0 then 0 else Offset(supplied, serial - 1) + supplied[serial - 1].frameCount
  }

  /** All frames of the supplied objects, in source order. */
  function AllFrames(serve: Serve, supplied: seq<ObjectMeta>): seq<Frame> {
    if supplied == [] then []
    else
      var n := |supplied| - 1;
      AllFrames(serve, supplied[..n]) + seq(supplied[n].frameCount, k requires 0 <= k => serve(n, k))
  }

  lemma {:induction false} OffsetOfPrefix(supplied: seq<ObjectMeta>, n: nat, serial: nat)
    requires serial <= n <= |supplied|
    ensures Offset(supplied[..n], serial) == Offset(supplied, serial)
  {
    if serial > 0 { OffsetOfPrefix(supplied, n, serial - 1); }
  }

  lemma {:induction false} AllFramesLength(serve: Serve, supplied: seq<ObjectMeta>)
    ensures |AllFrames(serve, supplied)| == Offset(supplied, |supplied|)
  {
    if supplied != [] {
      var n := |supplied| - 1;
      AllFramesLength(serve, supplied[..n]);
      OffsetOfPrefix(supplied, n, n);
    }
  }

  /** Frame `k` of object `serial` sits at that object's offset plus `k`. */
  lemma {:induction false} FrameAt(serve: Serve, supplied: seq<ObjectMeta>, serial: nat, k: nat)
    requires serial < |supplied| && k < supplied[serial].frameCount
    ensures Offset(supplied, serial) + k < |AllFrames(serve, supplied)|
    ensures AllFrames(serve, supplied)[Offset(supplied, serial) + k] == serve(serial, k)
  {
    var n := |supplied| - 1;
    AllFramesLength(serve, supplied[..n]);
    OffsetOfPrefix(supplied, n, n);
    if serial < n {
      FrameAt(serve, supplied[..n], serial, k);
      OffsetOfPrefix(supplied, n, serial);
    }
  }

  lemma AllFramesGrow(serve: Serve, supplied: seq<ObjectMeta>, meta: ObjectMeta)
    ensures AllFrames(serve, supplied) <= AllFrames(serve, supplied + [meta])
    ensures |AllFrames(serve, supplied + [meta])| == |AllFrames(serve, supplied)| + meta.frameCount
  {
    assert (supplied + [meta])[..|supplied|] == supplied;
  }

  // ---- Sums over plans ---------------------------------------------------------------------

  lemma {:induction false} TotalAppend(measure: Plan -> int, left: seq<Plan>, right: seq<Plan>)
    ensures Total(measure, left + right) == Total(measure, left) + Total(measure, right)
  {
    if left == [] {
      assert left + right == right;
    } else {
      assert (left + right)[1..] == left[1..] + right;
      TotalAppend(measure, left[1..], right);
    }
  }

  /** A pointwise bound with slack `gain` at one position bounds the totals. */
  lemma {:induction false} TotalMonotone(small: Plan -> int, before: seq<Plan>, large: Plan -> int, after: seq<Plan>)
    requires |before| == |after|
    requires forall i | 0 <= i < |before| :: small(before[i]) <= large(after[i])
    ensures Total(small, before) <= Total(large, after)
    ensures (exists i | 0 <= i < |before| :: small(before[i]) < large(after[i])) ==> Total(small, before) < Total(large, after)
  {
    if before != [] {
      TotalMonotone(small, before[1..], large, after[1..]);
      if exists i | 0 <= i < |before| :: small(before[i]) < large(after[i]) {
        var i :| 0 <= i < |before| && small(before[i]) < large(after[i]);
        if i > 0 { assert before[1..][i - 1] == before[i] && after[1..][i - 1] == after[i]; }
      }
    }
  }

  lemma TotalUpdateFront(measure: Plan -> int, plans: seq<Plan>, plan: Plan)
    requires plans != []
    ensures Total(measure, plans[0 := plan]) == Total(measure, plans) - measure(plans[0]) + measure(plan)
  {
    assert plans[0 := plan][1..] == plans[1..];
  }

  // ---- The invariant ---------------------------------------------------------------------------

  ghost predicate PlanOk(serve: Serve, p: Plan) {
    && p.start <= p.emitted <= p.received <= p.authorized <= p.end <= p.meta.frameCount
    && p.start < p.end
    && |p.buffer| == p.received - p.emitted
    && (forall k | 0 <= k < |p.buffer| :: p.buffer[k] == serve(p.serial, p.emitted + k))
    && (p.finished ==> p.received == p.end)
    && (p.ticket || p.url || p.download)
    && !(p.ticket && p.url) && !(p.ticket && p.download) && !(p.url && p.download)
    && (p.received > p.start ==> p.download)
  }

  /** Objects follow each other without a gap; only the front one has emitted anything. */
  ghost predicate Chained(plans: seq<Plan>) {
    && (forall i | 0 < i < |plans| :: plans[i].start == plans[i].emitted == 0)
    && (forall i, j | 0 <= i < j < |plans| && j == i + 1 :: plans[i].base + plans[i].end == plans[j].base)
  }

  /** Download rights form one run: nothing after a plan that still lacks some. */
  ghost predicate RightsInFront(plans: seq<Plan>) {
    forall i, j | 0 <= i < j < |plans| :: plans[j].authorized > plans[j].start ==> plans[i].authorized == plans[i].end
  }

  function Position(s: Session): nat { s.first + |s.sent| }

  function PlannedEnd(s: Session): nat { Max(s.first, Min(s.cursor, s.last)) }

  /** The plans cover exactly the global frames `[from, to)`. */
  ghost predicate Tiled(plans: seq<Plan>, from: nat, to: nat) {
    if plans == [] then from == to
    else plans[0].base + plans[0].emitted == from && plans[|plans| - 1].base + plans[|plans| - 1].end == to
  }

  /** Every plan belongs to the source object its serial names. */
  ghost predicate Sourced(plans: seq<Plan>, supplied: seq<ObjectMeta>) {
    forall i | 0 <= i < |plans| ::
      var p := plans[i];
      p.serial < |supplied| && supplied[p.serial] == p.meta && p.base == Offset(supplied, p.serial)
  }

  /** What has been handed over is the beginning of the request, in order. */
  ghost predicate SentOk(all: seq<Frame>, first: nat, sent: seq<Frame>) {
    sent != [] ==> first + |sent| <= |all| && sent == all[first..first + |sent|]
  }

  ghost predicate PlansOk(serve: Serve, plans: seq<Plan>) {
    forall i | 0 <= i < |plans| :: PlanOk(serve, plans[i])
  }

  function Head(plans: seq<Plan>, plannedEnd: nat): nat {
    if plans == [] then plannedEnd else plans[0].base + plans[0].start
  }

  /** Holds throughout a poll. */
  ghost predicate Inv(serve: Serve, s: Session) {
    && s.first < s.last
    && PlansOk(serve, s.plans)
    && Chained(s.plans)
    && RightsInFront(s.plans)
    && Tiled(s.plans, Position(s), PlannedEnd(s))
    && Sourced(s.plans, s.supplied)
    && |AllFrames(serve, s.supplied)| == s.cursor
    && SentOk(AllFrames(serve, s.supplied), s.first, s.sent)
    && s.allocation >= Max(1, Committed(s.plans))
    && s.first + s.retired <= Head(s.plans, PlannedEnd(s))
  }

  /** Holds between polls: an exhausted plan never waits at the front. */
  ghost predicate Settled(serve: Serve, s: Session) {
    Inv(serve, s) && (s.plans != [] ==> !s.plans[0].Exhausted())
  }

  /** The honest environment: a download yields its object's frames in order. */
  ghost predicate Honest(serve: Serve, env: Env) {
    forall serial: nat, k: nat ::
      env.download(serial, k).FrameItem? ==> env.download(serial, k).frame == serve(serial, k)
  }

  // ---- Consequences of the invariant -----------------------------------------------------------------

  lemma {:induction false} RemainingTelescopes(serve: Serve, plans: seq<Plan>)
    requires plans != [] && PlansOk(serve, plans) && Chained(plans)
    ensures var last := plans[|plans| - 1];
            && Remaining(plans) == last.base + last.end - plans[0].base - plans[0].emitted
            && |plans| <= last.base + last.end - plans[0].base - plans[0].start
            && plans[0].base + plans[0].end <= last.base + last.end
  {
    var rest := plans[1..];
    assert Remaining(plans) == RemainingOf(plans[0]) + Remaining(rest);
    if rest != [] {
      assert rest[0] == plans[1] && rest[|rest| - 1] == plans[|plans| - 1];
      RemainingTelescopes(serve, rest);
    }
  }

  /** Frames planned but not emitted are counted by the plans. */
  lemma RemainingIsPlanned(serve: Serve, s: Session)
    requires Inv(serve, s)
    ensures Remaining(s.plans) == PlannedEnd(s) - Position(s)
    ensures Position(s) <= PlannedEnd(s) <= s.last
  {
    if s.plans != [] { RemainingTelescopes(serve, s.plans); }
  }

  // ---- refresh_allocation --------------------------------------------------------------------------------

  lemma FundingKeepsInv(serve: Serve, s: Session, available: nat, f: Funded)
    requires Inv(serve, s) && Funds(s, available, f)
    requires f.session.allocation >= Max(1, Committed(s.plans))
    ensures Inv(serve, f.session)
  {
  }

  /** The allocation ends at the window or at what is already committed, whichever is larger. */
  lemma RefreshFunds(s: Session, available: nat, env: Env)
    requires s.allocation >= Max(1, Committed(s.plans))
    ensures var f := Refresh(s, available, env);
            && Funds(s, available, f)
            && f.session.allocation >= Max(1, Committed(s.plans))
            && (f.ok ==>
                  && f.session.allocation == Max(Capacity(f.session, env.desired.value), Committed(s.plans))
                  && Capacity(f.session, env.desired.value) >= 1)
  {
  }

  /** Growing takes what is missing as far as it is free; it fails only on a count beyond 32 bits. */
  lemma GrowAvailableExact(s: Session, available: nat, desired: nat)
    ensures var f, missing := GrowAvailable(s, available, desired), Min(Max(desired - s.allocation, 0), available);
            && (f.ok <==> missing <= U32_MAX)
            && (f.ok ==> f.session == s.(allocation := s.allocation + missing) && f.available == available - missing)
            && (f.ok && s.allocation <= desired ==> f.session.allocation == desired || f.available == 0)
  {
  }

  /**
   A refreshed session has its window, or all that it held and all that was free, or what is
   committed if that is more. If it is short of its window the budget is exhausted and it waits in
   line for the next permit; otherwise no ticket is left but one that was already waiting when the
   window was short.
   */
  lemma RefreshFills(s: Session, available: nat, env: Env)
    requires s.allocation >= Max(1, Committed(s.plans))
    ensures var f := Refresh(s, available, env);
            f.ok ==>
              var desired := env.desired.value;
              && f.session.allocation == Max(Committed(s.plans), Min(desired, available + Held(s)))
              && (f.session.allocation < desired ==> f.available == 0 && f.session.ticket.Waiting?)
              && (f.session.allocation >= desired ==>
                    f.session.ticket == if s.ticket.Waiting? && s.allocation < desired then Waiting else NoTicket)
  {
  }

  /** A session opens with its window or with all that is free. */
  lemma OpenFills(first: nat, last: nat, available: nat, desired: Positive)
    requires available >= 1
    ensures var f := OpenSession(first, last, available, desired);
            && (f.ok <==> Min(desired, available) <= U32_MAX + 1)
            && (f.ok ==> f.session.allocation == Min(desired, available) && f.available == available - Min(desired, available))
  {
  }

  // ---- poll_objects -----------------------------------------------------------------------------

  /** Planning changes nothing that was received, emitted or finished. */
  ghost predicate OnlyPlans(s: Session, t: Session) {
    && t.(plans := s.plans, cursor := s.cursor, terminated := s.terminated, supplied := s.supplied) == s
    && s.supplied <= t.supplied
    && s.plans <= t.plans
    && forall i | |s.plans| <= i < |t.plans| ::
         var p := t.plans[i];
         p.ticket && !p.finished && p.buffer == [] && p.authorized == p.received == p.emitted == p.start
  }

  lemma {:induction false} OffsetGrows(supplied: seq<ObjectMeta>, meta: ObjectMeta, serial: nat)
    requires serial <= |supplied|
    ensures Offset(supplied + [meta], serial) == Offset(supplied, serial)
  {
    assert (supplied + [meta])[..|supplied|] == supplied;
    OffsetOfPrefix(supplied + [meta], |supplied|, serial);
  }

  /** Accepting keeps every plan attached to its object. */
  lemma AcceptKeepsSource(serve: Serve, s: Session, meta: ObjectMeta)
    requires Sourced(s.plans, s.supplied) && |AllFrames(serve, s.supplied)| == s.cursor
    ensures Sourced(Accept(s, meta).plans, Accept(s, meta).supplied)
  {
    AllFramesLength(serve, s.supplied);
    hide Offset, AllFrames;
    var t := Accept(s, meta);
    forall i | 0 <= i < |t.plans| ensures t.plans[i].base == Offset(t.supplied, t.plans[i].serial) {
      OffsetGrows(s.supplied, meta, t.plans[i].serial);
    }
  }

  /** A fresh plan that starts where the others end extends their tiling to its own end. */
  lemma AppendPlanTiles(serve: Serve, plans: seq<Plan>, p: Plan, from: nat, to: nat)
    requires PlansOk(serve, plans) && Chained(plans) && RightsInFront(plans) && Tiled(plans, from, to)
    requires PlanOk(serve, p) && p.authorized == p.emitted == p.start && p.base + p.start == to
    requires plans != [] ==> p.start == 0
    ensures var after := plans + [p];
            && PlansOk(serve, after) && Chained(after) && RightsInFront(after) && Tiled(after, from, p.base + p.end)
            && Committed(after) == Committed(plans)
            && Head(after, p.base + p.end) == Head(plans, to)
  {
    TotalAppend(CommittedOf, plans, [p]);
    assert Committed([p]) == 0;
    hide PlanOk, Total;
    var after := plans + [p];
    assert forall i | 0 <= i < |plans| :: after[i] == plans[i];
  }

  /** Accepting extends the tiling by the object's useful frames. */
  lemma AcceptKeepsTiling(serve: Serve, s: Session, meta: ObjectMeta)
    requires Inv(serve, s) && s.cursor < s.last && meta.frameCount > 0
    ensures var t := Accept(s, meta);
            && PlansOk(serve, t.plans) && Chained(t.plans) && RightsInFront(t.plans)
            && Tiled(t.plans, Position(t), PlannedEnd(t))
            && Committed(t.plans) == Committed(s.plans)
            && Head(t.plans, PlannedEnd(t)) == Head(s.plans, PlannedEnd(s))
            && OnlyPlans(s, t)
  {
    hide AllFrames, Offset, SentOk, Sourced, Total, PlansOk, Chained, RightsInFront;
    if s.plans != [] { RemainingTelescopes(serve, s.plans); }
    var t := Accept(s, meta);
    if t.plans != s.plans {
      AppendPlanTiles(serve, s.plans, t.plans[|s.plans|], Position(s), PlannedEnd(s));
    }
  }

  lemma AcceptKeeps(serve: Serve, s: Session, meta: ObjectMeta)
    requires Inv(serve, s) && s.cursor < s.last && meta.frameCount > 0
    ensures Inv(serve, Accept(s, meta)) && OnlyPlans(s, Accept(s, meta))
  {
    hide AllFrames, Offset, SentOk, Sourced, PlansOk, Chained, RightsInFront, Tiled, Head, Total, OnlyPlans, Accept;
    AcceptKeepsSource(serve, s, meta);
    AcceptKeepsTiling(serve, s, meta);
    AcceptRest(serve, s, meta);
  }

  /** What accepting does to the source, and what it leaves alone. */
  lemma AcceptRest(serve: Serve, s: Session, meta: ObjectMeta)
    requires SentOk(AllFrames(serve, s.supplied), s.first, s.sent) && |AllFrames(serve, s.supplied)| == s.cursor
    ensures var t := Accept(s, meta);
            && t.first == s.first && t.last == s.last && t.sent == s.sent
            && t.retired == s.retired && t.allocation == s.allocation
            && |AllFrames(serve, t.supplied)| == t.cursor
            && SentOk(AllFrames(serve, t.supplied), t.first, t.sent)
  {
    hide Offset;
    AllFramesGrow(serve, s.supplied, meta);
  }

  lemma TerminateKeeps(serve: Serve, s: Session)
    requires Inv(serve, s)
    ensures Inv(serve, s.(terminated := true))
  {
  }

  lemma {:induction false} PollObjectsKeeps(serve: Serve, s: Session, target: nat, answers: seq<SourceAnswer>)
    requires Inv(serve, s)
    ensures var p := PollObjects(s, target, answers);
            Inv(serve, p.session) && OnlyPlans(s, p.session)
    ensures var p := PollObjects(s, target, answers);
            p.ok && !p.parked ==> Remaining(p.session.plans) >= target || p.session.cursor >= s.last || p.session.terminated
    decreases |answers|
  {
    hide Inv, Accept, Total;
    TerminateKeeps(serve, s);
    if Remaining(s.plans) < target && s.cursor < s.last && !s.terminated && answers != [] && answers[0].SourceObject? {
      var meta := answers[0].meta;
      if meta.frameCount > 0 && s.cursor + meta.frameCount <= U64_MAX {
        AcceptKeeps(serve, s, meta);
        PollObjectsKeeps(serve, Accept(s, meta), target, answers[1..]);
      }
    }
  }

  // ---- authorize, poll_urls, poll_downloads: plan by plan ------------------------------------------

  /** The two plans stand for the same stretch of frames with the same part emitted. */
  ghost predicate SamePlace(p: Plan, q: Plan) {
    && p.serial == q.serial && p.base == q.base && p.meta == q.meta
    && p.start == q.start && p.end == q.end && p.emitted == q.emitted
  }

  ghost predicate SamePlaces(before: seq<Plan>, after: seq<Plan>) {
    |before| == |after| && forall i | 0 <= i < |before| :: SamePlace(before[i], after[i])
  }

  lemma SamePlacesKeep(before: seq<Plan>, after: seq<Plan>, supplied: seq<ObjectMeta>, from: nat, to: nat)
    requires SamePlaces(before, after)
    requires Chained(before) && Tiled(before, from, to) && Sourced(before, supplied)
    ensures Chained(after) && Tiled(after, from, to) && Sourced(after, supplied)
    ensures Head(before, to) == Head(after, to)
  {
    hide Offset;
    assert forall i | 0 <= i < |after| :: SamePlace(before[i], after[i]);
  }

  lemma ReplacePlansKeeps(serve: Serve, s: Session, plans: seq<Plan>)
    requires Inv(serve, s)
    requires SamePlaces(s.plans, plans)
    requires PlansOk(serve, plans) && RightsInFront(plans) && Committed(plans) <= s.allocation
    ensures Inv(serve, s.(plans := plans))
  {
    SamePlacesKeep(s.plans, plans, s.supplied, Position(s), PlannedEnd(s));
    hide AllFrames, Offset, SentOk, Sourced, PlansOk, Chained, RightsInFront, Tiled, Head, Total, SamePlaces;
  }

  ghost predicate WithinRights(plans: seq<Plan>) {
    forall i | 0 <= i < |plans| :: plans[i].start <= plans[i].authorized <= plans[i].end
  }

  /** Authorization only raises rights, up to each plan's end. */
  lemma {:induction false} AuthorizeRaises(plans: seq<Plan>, available: nat)
    requires WithinRights(plans)
    ensures var after := Authorize(plans, available);
            && |after| == |plans|
            && forall i | 0 <= i < |plans| ::
                 && after[i] == plans[i].(authorized := after[i].authorized)
                 && plans[i].authorized <= after[i].authorized <= plans[i].end
  {
    if plans != [] && available > 0 {
      AuthorizeRaises(plans[1..], available - Min(Max(plans[0].end - plans[0].authorized, 0), available));
    }
  }

  /** Everything available is handed out unless every plan ends up with all its rights. */
  lemma {:induction false} AuthorizeSpends(plans: seq<Plan>, available: nat)
    requires WithinRights(plans)
    ensures var after := Authorize(plans, available);
            && Committed(plans) <= Committed(after) <= Committed(plans) + available
            && (Committed(after) < Committed(plans) + available ==>
                  forall i | 0 <= i < |after| :: after[i].authorized == after[i].end)
  {
    if plans != [] && available > 0 {
      var added := Min(Max(plans[0].end - plans[0].authorized, 0), available);
      AuthorizeSpends(plans[1..], available - added);
      assert Authorize(plans, available)[1..] == Authorize(plans[1..], available - added);
    }
  }

  /** Rights stay in front: a plan gets some only once those before it have all of theirs. */
  lemma {:induction false} AuthorizeInFront(plans: seq<Plan>, available: nat)
    requires WithinRights(plans) && RightsInFront(plans)
    ensures RightsInFront(Authorize(plans, available))
  {
    if plans != [] && available > 0 {
      var added := Min(Max(plans[0].end - plans[0].authorized, 0), available);
      var rest := Authorize(plans[1..], available - added);
      AuthorizeInFront(plans[1..], available - added);
      AuthorizeRaises(plans, available);
      var after := Authorize(plans, available);
      assert available == added ==> rest == plans[1..];
      forall i, j | 0 <= i < j < |after| && after[j].authorized > after[j].start
        ensures after[i].authorized == after[i].end
      {
        assert after[j] == rest[j - 1];
        if i > 0 { assert after[i] == rest[i - 1]; }
      }
    }
  }

  lemma AuthorizeKeeps(serve: Serve, s: Session, capacity: nat)
    requires Inv(serve, s) && capacity <= s.allocation
    ensures Inv(serve, s.(plans := AuthorizeWindow(s.plans, capacity)))
  {
    hide AllFrames, Offset, SentOk, Sourced, Chained, Tiled, Head, RightsInFront, Total;
    var available := Max(capacity - Committed(s.plans), 0);
    AuthorizeRaises(s.plans, available);
    AuthorizeSpends(s.plans, available);
    AuthorizeInFront(s.plans, available);
    ReplacePlansKeeps(serve, s, Authorize(s.plans, available));
  }

  lemma UrlStepKeeps(serve: Serve, p: Plan, env: Env)
    requires PlanOk(serve, p)
    ensures var q := OpenDownload(CollectUrl(p, env));
            PlanOk(serve, q) && q == p.(ticket := q.ticket, url := q.url, download := q.download)
  {
  }

  lemma ReceiveKeeps(serve: Serve, p: Plan, env: Env)
    requires PlanOk(serve, p) && Honest(serve, env) && !DownloadFails(p, env)
    ensures var q := Receive(p, env);
            PlanOk(serve, q) && SamePlace(p, q) && q.authorized == p.authorized
  {
  }

  /** Plan-by-plan steps that leave the rights alone. */
  lemma SameRightsKeep(serve: Serve, s: Session, after: seq<Plan>)
    requires Inv(serve, s) && SamePlaces(s.plans, after) && PlansOk(serve, after)
    requires forall i | 0 <= i < |after| :: after[i].authorized == s.plans[i].authorized
    ensures Inv(serve, s.(plans := after))
  {
    hide AllFrames, Offset, SentOk, Sourced, Chained, Tiled, Head, Total, PlanOk;
    TotalMonotone(CommittedOf, after, CommittedOf, s.plans);
    ReplacePlansKeeps(serve, s, after);
  }

  /** The two plans agree on every frame counter and on the frames buffered. */
  ghost predicate SameCounters(p: Plan, q: Plan) {
    SamePlace(p, q) && p.authorized == q.authorized && p.received == q.received && p.buffer == q.buffer
  }

  /** Collecting URLs moves no frame counter of any plan. */
  lemma AfterUrlsKeeps(serve: Serve, s: Session, env: Env)
    requires Inv(serve, s)
    ensures Inv(serve, s.(plans := AfterUrls(s.plans, env)))
    ensures |AfterUrls(s.plans, env)| == |s.plans|
    ensures forall i | 0 <= i < |s.plans| :: SameCounters(s.plans[i], AfterUrls(s.plans, env)[i])
  {
    hide AllFrames, Offset, SentOk, Sourced, Chained, Tiled, Head, Total, PlanOk, RightsInFront;
    var after := AfterUrls(s.plans, env);
    forall i | 0 <= i < |after|
      ensures PlanOk(serve, after[i]) && SamePlace(s.plans[i], after[i]) && after[i].authorized == s.plans[i].authorized
    {
      UrlStepKeeps(serve, s.plans[i], env);
    }
    SameRightsKeep(serve, s, after);
  }

  lemma AfterDownloadsKeeps(serve: Serve, s: Session, env: Env)
    requires Inv(serve, s) && Honest(serve, env)
    requires forall i | 0 <= i < |s.plans| :: !DownloadFails(s.plans[i], env)
    ensures Inv(serve, s.(plans := AfterDownloads(s.plans, env)))
  {
    hide AllFrames, Offset, SentOk, Sourced, Chained, Tiled, Head, Total, PlanOk, RightsInFront, Receive, DownloadFails, Honest;
    var after := AfterDownloads(s.plans, env);
    forall i | 0 <= i < |after|
      ensures PlanOk(serve, after[i]) && SamePlace(s.plans[i], after[i]) && after[i].authorized == s.plans[i].authorized
    {
      ReceiveKeeps(serve, s.plans[i], env);
    }
    SameRightsKeep(serve, s, after);
  }

  // ---- discard_finished and pop_ready ----------------------------------------------------------------

  /** Dropping an exhausted front plan moves nothing but the bookkeeping. */
  lemma DropFrontKeeps(serve: Serve, s: Session)
    requires Inv(serve, s) && s.plans != [] && s.plans[0].Exhausted()
    ensures Inv(serve, DropFront(s))
  {
    hide AllFrames, Offset, SentOk;
    var t := DropFront(s);
    assert forall i | 0 <= i < |t.plans| :: t.plans[i] == s.plans[i + 1];
    assert PlanOk(serve, s.plans[0]);
  }

  lemma {:induction false} DiscardKeeps(serve: Serve, s: Session)
    requires Inv(serve, s)
    ensures var t := Discard(s);
            && Inv(serve, t)
            && t == s.(plans := t.plans, retired := t.retired)
            && (s.plans == t.plans || exists i | 0 <= i < |s.plans| :: s.plans[i].Exhausted())
            && (forall p | p in t.plans :: p in s.plans)
            && (t.plans != [] ==> !t.plans[0].Exhausted())
    decreases |s.plans|
  {
    hide Inv;
    if s.plans != [] && s.plans[0].Exhausted() {
      DropFrontKeeps(serve, s);
      DiscardKeeps(serve, DropFront(s));
    }
  }

  function HandOver(s: Session): Session
    requires s.plans != [] && s.plans[0].buffer != []
  {
    PopFront(s).(sent := s.sent + [s.plans[0].buffer[0]])
  }

  /** The frame handed over is the next one of the request. */
  lemma HandOverSends(serve: Serve, s: Session)
    requires Inv(serve, s) && s.plans != [] && s.plans[0].buffer != []
    ensures SentOk(AllFrames(serve, s.supplied), s.first, HandOver(s).sent)
  {
    hide Chained, RightsInFront, Total, Head;
    var plan := s.plans[0];
    assert PlanOk(serve, plan);
    FrameAt(serve, s.supplied, plan.serial, plan.emitted);
  }

  /** A front plan may change what it emitted and buffers without disturbing the others. */
  lemma ReplaceFrontKeeps(serve: Serve, plans: seq<Plan>, front: Plan, supplied: seq<ObjectMeta>)
    requires plans != [] && PlansOk(serve, plans) && Chained(plans) && RightsInFront(plans) && Sourced(plans, supplied)
    requires PlanOk(serve, front)
    requires front == plans[0].(emitted := front.emitted, buffer := front.buffer)
    ensures var after := plans[0 := front];
            PlansOk(serve, after) && Chained(after) && RightsInFront(after) && Sourced(after, supplied)
  {
    hide PlanOk, Offset;
    var after := plans[0 := front];
    assert forall i | 0 < i < |after| :: after[i] == plans[i];
  }

  /** Emitting the front frame moves the start of the tiling by one. */
  lemma PopFrontTiles(serve: Serve, s: Session, from: nat, to: nat)
    requires s.plans != [] && s.plans[0].buffer != []
    requires PlansOk(serve, s.plans) && Chained(s.plans) && RightsInFront(s.plans)
    requires Tiled(s.plans, from, to) && Sourced(s.plans, s.supplied)
    ensures var after := PopFront(s).plans;
            && PlansOk(serve, after) && Chained(after) && RightsInFront(after)
            && Tiled(after, from + 1, to) && Sourced(after, s.supplied)
            && Head(after, to) == Head(s.plans, to)
            && Committed(after) == Committed(s.plans) - 1
  {
    var front := PopFront(s).plans[0];
    assert PlanOk(serve, s.plans[0]) && PlanOk(serve, front);
    TotalUpdateFront(CommittedOf, s.plans, front);
    ReplaceFrontKeeps(serve, s.plans, front, s.supplied);
    hide PlanOk, Offset, Total, PlansOk, Chained, RightsInFront, Sourced;
  }

  lemma HandOverKeeps(serve: Serve, s: Session)
    requires Inv(serve, s) && s.plans != [] && s.plans[0].buffer != []
    ensures Inv(serve, HandOver(s))
  {
    HandOverSends(serve, s);
    PopFrontTiles(serve, s, Position(s), PlannedEnd(s));
    hide AllFrames, Offset, SentOk, Sourced, PlansOk, Chained, RightsInFront, Tiled, Head, Total;
  }

  lemma ShrinkKeeps(serve: Serve, s: Session, allocation: nat)
    requires Inv(serve, s) && allocation >= Max(1, Committed(s.plans))
    ensures Inv(serve, s.(allocation := allocation))
  {
    hide AllFrames, Offset, SentOk, Sourced, PlansOk, Chained, RightsInFront, Tiled, Head, Total;
  }

  /** The session `PopReady` leaves, before its allocation shrinks. */
  function Popped(s: Session): Session
    requires s.plans != [] && s.plans[0].buffer != []
  {
    var popped := PopFront(s);
    if popped.plans[0].Exhausted() then DropFront(popped) else popped
  }

  lemma PopFunds(s: Session, available: nat, desired: Positive)
    requires s.plans != [] && s.plans[0].buffer != []
    requires s.allocation >= Max(1, Committed(Popped(s).plans))
    ensures var popped := PopReady(s, available, desired);
            && popped.session == Popped(s).(allocation := popped.session.allocation)
            && popped.session.allocation >= Max(1, Committed(Popped(s).plans))
            && popped.available + Held(popped.session) == available + Held(s)
  {
    hide Total;
  }

  lemma PoppedKeeps(serve: Serve, s: Session)
    requires Inv(serve, s) && s.plans != [] && s.plans[0].buffer != []
    ensures Inv(serve, Popped(s).(sent := s.sent + [s.plans[0].buffer[0]]))
  {
    hide Inv, HandOver, DropFront, Popped, PopFront;
    PoppedAfterHandOver(s);
    HandOverKeeps(serve, s);
    if HandOver(s).plans[0].Exhausted() { DropFrontKeeps(serve, HandOver(s)); }
  }

  lemma PoppedAfterHandOver(s: Session)
    requires s.plans != [] && s.plans[0].buffer != []
    ensures HandOver(s).plans != []
    ensures Popped(s).(sent := s.sent + [s.plans[0].buffer[0]])
         == if HandOver(s).plans[0].Exhausted() then DropFront(HandOver(s)) else HandOver(s)
  {
  }

  /** Popping the front frame and handing it to the sink keeps everything. */
  lemma PopKeeps(serve: Serve, s: Session, available: nat, desired: Positive)
    requires Inv(serve, s) && s.plans != [] && s.plans[0].buffer != []
    ensures var popped := PopReady(s, available, desired);
            && Inv(serve, popped.session.(sent := s.sent + [s.plans[0].buffer[0]]))
            && popped.available + Held(popped.session) == available + Held(s)
  {
    PoppedKeeps(serve, s);
    var advanced := Popped(s).(sent := s.sent + [s.plans[0].buffer[0]]);
    assert advanced.allocation == s.allocation >= Max(1, Committed(advanced.plans));
    hide Inv, PopReady, Total;
    PopFunds(s, available, desired);
    ShrinkKeeps(serve, advanced, PopReady(s, available, desired).session.allocation);
  }
}
