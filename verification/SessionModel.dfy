/**
 The frame scheduler as a transition function on values: one call of `Poll` is one poll
 of `StreamDriver`, given everything its environment answers during that poll.
 */
module SessionModel {
  import opened Basics

  type Frame = seq<bv8>

  type Positive = n: nat | n >= 1 witness 1

  /** The part of an object's metadata the scheduler reads. */
  datatype ObjectMeta = ObjectMeta(id: nat, frameCount: nat)

  /**
   Runtime state of one object. `serial` is its position in the source and `base` the
   global index of its frame 0; the session derives both from its cursor.
   */
  datatype Plan = Plan(
    serial: nat,
    base: nat,
    meta: ObjectMeta,
    start: nat,
    end: nat,
    ticket: bool,
    url: bool,
    download: bool,
    authorized: nat,
    received: nat,
    emitted: nat,
    finished: bool,
    buffer: seq<Frame>
  ) {
    predicate Exhausted() { finished && emitted == end }
  }

  /** A request for one more permit: none, queued, or granted and not yet collected. */
  datatype Ticket = NoTicket | Waiting | Granted

  /**
   A session. The request is the frame range `[first, last)`. The last three fields are
   history: objects pulled, frames handed to the sink, plans discarded.
   */
  datatype Session = Session(
    first: nat,
    last: nat,
    plans: seq<Plan>,
    allocation: nat,
    ticket: Ticket,
    cursor: nat,
    terminated: bool,
    supplied: seq<ObjectMeta>,
    sent: seq<Frame>,
    retired: nat
  )

  datatype Answer = Pending | Ready | Failed

  datatype SourceAnswer = SourcePending | SourceEnd | SourceError | SourceObject(meta: ObjectMeta)

  datatype DownloadAnswer = FramePending | FrameItem(frame: Frame) | FrameEnd | FrameError

  /**
   Everything the environment answers during one poll. URL tickets and downloads are
   named by the serial of their object; a download also by the number of the frame it
   is asked for. `desired` and `prefetch` come from the transfer model, `None` standing
   for its error. The source answers in turn and is pending once `source` runs out.
   */
  datatype Env = Env(
    desired: Option<Positive>,
    prefetch: Option<nat>,
    source: seq<SourceAnswer>,
    url: nat -> Answer,
    download: (nat, nat) -> DownloadAnswer,
    sinkReady: Answer,
    sinkAccepts: bool,
    sinkFlush: Answer,
    sinkClose: Answer
  )

  /** What can wake a parked driver: whatever answered "pending" to it. */
  datatype Waker = WakeSource | WakeUrl(serial: nat) | WakeDownload(serial: nat) | WakeSink

  /** How a poll ended: still in progress, in the close phase, or with an error. */
  datatype Phase = InProgress | Closing | Aborted

  datatype Outcome = Outcome(session: Session, available: nat, phase: Phase, woke: bool, parked: set<Waker>)

  // ---- Sums over the plans -------------------------------------------------------

  function Total(measure: Plan -> int, plans: seq<Plan>): int {
    if plans == [] then 0 else measure(plans[0]) + Total(measure, plans[1..])
  }

  function CommittedOf(p: Plan): int { p.authorized - p.emitted }

  function RemainingOf(p: Plan): int { p.end - p.emitted }

  function Committed(plans: seq<Plan>): int { Total(CommittedOf, plans) }

  function Remaining(plans: seq<Plan>): int { Total(RemainingOf, plans) }

  // ---- refresh_allocation ----------------------------------------------------------

  /** A session with the budget's free permits, and whether the step succeeded. */
  datatype Funded = Funded(session: Session, available: nat, ok: bool)

  /** Permits a session keeps out of the budget. */
  function Held(s: Session): nat { s.allocation + if s.ticket.Granted? then 1 else 0 }

  /** Only the allocation and the ticket move, and no permit is lost or made. */
  ghost predicate Funds(s: Session, available: nat, f: Funded) {
    && f.session == s.(allocation := f.session.allocation, ticket := f.session.ticket)
    && f.available + Held(f.session) == available + Held(s)
  }

  /** Dropping a granted ticket puts its permit back. */
  function DropTicket(s: Session, available: nat): (f: Funded)
    ensures Funds(s, available, f)
  {
    Funded(s.(ticket := NoTicket), if s.ticket.Granted? then available + 1 else available, true)
  }

  function GrowAvailable(s: Session, available: nat, desired: nat): (f: Funded)
    ensures Funds(s, available, f) && f.session.allocation >= s.allocation
  {
    var missing := Min(Max(desired - s.allocation, 0), available);
    if missing == 0 then Funded(s, available, true)
    else if missing > U32_MAX then Funded(s, available, false)
    else Funded(s.(allocation := s.allocation + missing), available - missing, true)
  }

  /** The outstanding ticket: dropped when no longer needed, else polled. */
  function PollTicket(s: Session, available: nat, desired: nat): (f: Funded)
    ensures Funds(s, available, f) && f.session.allocation >= s.allocation
  {
    if desired <= s.allocation then DropTicket(s, available)
    else if s.ticket.Granted? then Funded(s.(allocation := s.allocation + 1, ticket := NoTicket), available, true)
    else Funded(s, available, true)
  }

  /** A fresh ticket for one permit, polled once. */
  function RequestTicket(s: Session, available: nat, desired: nat): (f: Funded)
    ensures Funds(s, available, f) && f.session.allocation >= s.allocation
  {
    if desired > s.allocation && s.ticket.NoTicket? then
      if available >= 1 then Funded(s.(allocation := s.allocation + 1), available - 1, true)
      else Funded(s.(ticket := Waiting), available, true)
    else Funded(s, available, true)
  }

  function ShrinkTo(s: Session, available: nat, frames: nat): (f: Funded)
    ensures Funds(s, available, f) && f.session.allocation == Min(s.allocation, frames)
  {
    var released := Max(s.allocation - frames, 0);
    Funded(s.(allocation := s.allocation - released), available + released, true)
  }

  function Capacity(s: Session, desired: nat): nat {
    Min(desired, s.allocation)
  }

  function Refresh(s: Session, available: nat, env: Env): (f: Funded)
    ensures Funds(s, available, f)
    ensures f.ok ==> env.desired.Some? && env.prefetch.Some?
  {
    if env.desired.None? then Funded(s, available, false)
    else
      var desired := env.desired.value;
      var polled := PollTicket(s, available, desired);
      var grown := GrowAvailable(polled.session, polled.available, desired);
      if !grown.ok then grown
      else
        var asked := RequestTicket(grown.session, grown.available, desired);
        var kept := Max(Capacity(asked.session, desired), Committed(asked.session.plans));
        ShrinkTo(asked.session, asked.available, kept).(ok := env.prefetch.Some?)
  }

  /** A new session starts from one permit and takes what it can of its window. */
  function OpenSession(first: nat, last: nat, available: nat, desired: Positive): Funded
    requires available >= 1
  {
    GrowAvailable(Session(first, last, [], 1, NoTicket, 0, false, [], [], 0), available - 1, desired)
  }

  // ---- poll_objects ------------------------------------------------------------------

  datatype Pulled = Pulled(session: Session, ok: bool, parked: bool)

  /** Advances the cursor over one object and plans its useful frames, if any. */
  function Accept(s: Session, meta: ObjectMeta): Session {
    var objectEnd := s.cursor + meta.frameCount;
    var usefulStart := Max(s.cursor, s.first);
    var usefulEnd := Min(objectEnd, s.last);
    var advanced := s.(cursor := objectEnd, supplied := s.supplied + [meta]);
    if usefulStart >= usefulEnd then advanced
    else
      var start := usefulStart - s.cursor;
      advanced.(plans := s.plans + [Plan(|s.supplied|, s.cursor, meta, start, usefulEnd - s.cursor,
                                         true, false, false, start, start, start, false, [])])
  }

  function PollObjects(s: Session, target: nat, answers: seq<SourceAnswer>): Pulled
    decreases |answers|
  {
    if Remaining(s.plans) >= target || s.cursor >= s.last || s.terminated then Pulled(s, true, false)
    else if answers == [] || answers[0].SourcePending? then Pulled(s, true, true)
    else
      match answers[0]
      case SourceEnd => Pulled(s.(terminated := true), true, false)
      case SourceError => Pulled(s, false, false)
      case SourceObject(meta) =>
        if meta.frameCount == 0 || s.cursor + meta.frameCount > U64_MAX then Pulled(s, false, false)
        else PollObjects(Accept(s, meta), target, answers[1..])
  }

  // ---- authorize -----------------------------------------------------------------------

  /** Hands out `available` download rights, earlier plans first. */
  function Authorize(plans: seq<Plan>, available: nat): seq<Plan> {
    if plans == [] || available == 0 then plans
    else
      var added := Min(Max(plans[0].end - plans[0].authorized, 0), available);
      [plans[0].(authorized := plans[0].authorized + added)] + Authorize(plans[1..], available - added)
  }

  function AuthorizeWindow(plans: seq<Plan>, capacity: nat): seq<Plan> {
    Authorize(plans, Max(capacity - Committed(plans), 0))
  }

  // ---- poll_urls -------------------------------------------------------------------------

  predicate UrlFails(p: Plan, env: Env) {
    p.ticket && env.url(p.serial).Failed?
  }

  function CollectUrl(p: Plan, env: Env): Plan {
    if p.ticket && env.url(p.serial).Ready? then p.(url := true, ticket := false) else p
  }

  function OpenDownload(p: Plan): Plan {
    if p.authorized != p.emitted && !p.download && p.url then p.(url := false, download := true) else p
  }

  function AfterUrls(plans: seq<Plan>, env: Env): (r: seq<Plan>)
    ensures |r| == |plans|
  {
    seq(|plans|, i requires 0 <= i < |plans| => OpenDownload(CollectUrl(plans[i], env)))
  }

  // ---- poll_downloads ----------------------------------------------------------------------

  predicate Polls(p: Plan) {
    p.download && !p.finished && !(p.received == p.authorized && p.received < p.end)
  }

  predicate DownloadFails(p: Plan, env: Env) {
    Polls(p) &&
    match env.download(p.serial, p.received)
    case FrameItem(_) => p.received == p.end
    case FrameEnd => p.received != p.end
    case FrameError => true
    case FramePending => false
  }

  predicate Progresses(p: Plan, env: Env) {
    Polls(p) && (env.download(p.serial, p.received).FrameItem? || env.download(p.serial, p.received).FrameEnd?)
  }

  function Receive(p: Plan, env: Env): Plan {
    if !Polls(p) then p
    else
      match env.download(p.serial, p.received)
      case FrameItem(frame) => p.(buffer := p.buffer + [frame], received := p.received + 1)
      case FrameEnd => p.(finished := true)
      case _ => p
  }

  function AfterDownloads(plans: seq<Plan>, env: Env): (r: seq<Plan>)
    ensures |r| == |plans|
  {
    seq(|plans|, i requires 0 <= i < |plans| => Receive(plans[i], env))
  }

  // ---- discard_finished and pop_ready --------------------------------------------------------

  function DropFront(s: Session): Session
    requires s.plans != []
  {
    s.(plans := s.plans[1..], retired := s.retired + 1)
  }

  function Discard(s: Session): Session
    decreases |s.plans|
  {
    if s.plans != [] && s.plans[0].Exhausted() then Discard(DropFront(s)) else s
  }

  /** The front plan with its first buffered frame taken. */
  function PopFront(s: Session): Session
    requires s.plans != [] && s.plans[0].buffer != []
  {
    var plan := s.plans[0];
    s.(plans := s.plans[0 := plan.(buffer := plan.buffer[1..], emitted := plan.emitted + 1)])
  }

  /** Takes the front frame, drops the front plan when it is exhausted, frees its permit. */
  function PopReady(s: Session, available: nat, desired: nat): Funded
    requires s.plans != [] && s.plans[0].buffer != []
  {
    var popped := PopFront(s);
    var rest := if popped.plans[0].Exhausted() then DropFront(popped) else popped;
    ShrinkTo(rest, available, Max(Capacity(rest, desired), Committed(rest.plans)))
  }

  // ---- poll_fill and the driver's poll --------------------------------------------------------

  datatype Filled = Filled(session: Session, available: nat, phase: Phase, woke: bool, parked: set<Waker>)

  predicate AwaitsUrl(p: Plan, env: Env) {
    p.ticket && env.url(p.serial).Pending?
  }

  predicate AwaitsFrame(p: Plan, env: Env) {
    Polls(p) && env.download(p.serial, p.received).FramePending?
  }

  function UrlWakers(plans: seq<Plan>, env: Env): set<Waker> {
    set i | 0 <= i < |plans| && AwaitsUrl(plans[i], env) :: WakeUrl(plans[i].serial)
  }

  function DownloadWakers(plans: seq<Plan>, env: Env): set<Waker> {
    set i | 0 <= i < |plans| && AwaitsFrame(plans[i], env) :: WakeDownload(plans[i].serial)
  }

  function AbortFill(s: Session, available: nat): Filled {
    Filled(s, available, Aborted, false, {})
  }

  /** Polls the downloads and discards what they finished. */
  function FillDownloads(s: Session, available: nat, parked: set<Waker>, env: Env): Filled {
    if exists i | 0 <= i < |s.plans| :: DownloadFails(s.plans[i], env) then AbortFill(s, available)
    else
      var progressed := exists i | 0 <= i < |s.plans| :: Progresses(s.plans[i], env);
      var kept := Discard(s.(plans := AfterDownloads(s.plans, env)));
      var waiting := parked + DownloadWakers(s.plans, env);
      if kept.plans == [] && (kept.terminated || kept.cursor >= kept.last) then
        Filled(kept, available, Closing, false, waiting)
      else Filled(kept, available, InProgress, progressed, waiting)
  }

  /** Everything after the source: authorize, resolve, download, discard. */
  function FillPlans(s: Session, available: nat, capacity: nat, sourceParked: bool, env: Env): Filled {
    var authorized := s.(plans := AuthorizeWindow(s.plans, capacity));
    if exists i | 0 <= i < |authorized.plans| :: UrlFails(authorized.plans[i], env) then AbortFill(authorized, available)
    else
      var parked := (if sourceParked then {WakeSource} else {}) + UrlWakers(authorized.plans, env);
      FillDownloads(authorized.(plans := AfterUrls(authorized.plans, env)), available, parked, env)
  }

  /** The rest of a fill once the allocation is refreshed. */
  function FillFunded(s: Session, available: nat, env: Env): Filled
    requires env.desired.Some? && env.prefetch.Some?
  {
    var capacity := Capacity(s, env.desired.value);
    var pulled := PollObjects(s, capacity + env.prefetch.value, env.source);
    if !pulled.ok then AbortFill(pulled.session, available)
    else FillPlans(pulled.session, available, capacity, pulled.parked, env)
  }

  function Fill(s: Session, available: nat, env: Env): (f: Filled)
    ensures !f.phase.Aborted? ==> env.desired.Some?
  {
    var funded := Refresh(s, available, env);
    if !funded.ok then AbortFill(funded.session, funded.available)
    else FillFunded(funded.session, funded.available, env)
  }

  function Flushed(env: Env): Phase {
    if env.sinkFlush.Failed? then Aborted else InProgress
  }

  /** Hands the front frame to a ready sink, which may still refuse it. */
  function EmitFront(s: Session, available: nat, parked: set<Waker>, env: Env): Outcome
    requires env.desired.Some? && s.plans != [] && s.plans[0].buffer != []
  {
    var popped := PopReady(s, available, env.desired.value);
    if !env.sinkAccepts then Outcome(popped.session, popped.available, Aborted, true, parked)
    else Outcome(popped.session.(sent := s.sent + [s.plans[0].buffer[0]]), popped.available, Flushed(env), true, parked)
  }

  /** The sink half of a poll, for a driver that is neither done nor failed. */
  function Emit(f: Filled, env: Env): Outcome
    requires f.phase.InProgress? && env.desired.Some?
  {
    if f.session.plans == [] then Outcome(f.session, f.available, Flushed(env), f.woke, f.parked)
    else
      match env.sinkReady
      case Failed => Outcome(f.session, f.available, Aborted, f.woke, f.parked)
      case Pending => Outcome(f.session, f.available, Flushed(env), f.woke, f.parked + {WakeSink})
      case Ready =>
        if f.session.plans[0].buffer == [] then Outcome(f.session, f.available, Flushed(env), f.woke, f.parked)
        else EmitFront(f.session, f.available, f.parked, env)
  }

  /** The close phase of a driver that is done; a close that is pending parks on the sink. */
  function Close(f: Filled, env: Env): Outcome {
    match env.sinkClose
    case Failed => Outcome(f.session, f.available, Aborted, f.woke, f.parked)
    case Pending => Outcome(f.session, f.available, Closing, f.woke, f.parked + {WakeSink})
    case Ready => Outcome(f.session, f.available, Closing, f.woke, f.parked)
  }

  function Poll(s: Session, available: nat, env: Env): Outcome {
    var filled := Fill(s, available, env);
    match filled.phase
    case Aborted => Outcome(filled.session, filled.available, Aborted, filled.woke, filled.parked)
    case Closing => Close(filled, env)
    case InProgress => Emit(filled, env)
  }
}
