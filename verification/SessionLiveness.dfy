/**
 Liveness: if nothing answers "pending", every poll gets somewhere, so that a driver reaches its
 close phase, or a failure, within a number of polls bounded by the size of the request.
 */
module SessionLiveness {
  import opened Basics
  import opened SessionModel
  import opened SessionInvariant
  import opened SessionRuns
  import opened SessionProgress
  import opened SessionWakeups

  /** The source has an answer to all that one poll can ask, up to its end or that of the request. */
  predicate SourceAnswers(s: Session, answers: seq<SourceAnswer>) {
    && SourcePending !in answers
    && (SourceEnd in answers || s.cursor + |answers| >= s.last)
  }

  /** No source, URL ticket, download or sink answers "pending". */
  ghost predicate Responsive(s: Session, env: Env) {
    && SourceAnswers(s, env.source)
    && (forall serial :: !env.url(serial).Pending?)
    && (forall serial, k :: !env.download(serial, k).FramePending?)
    && !env.sinkReady.Pending? && !env.sinkClose.Pending?
  }

  lemma {:induction false} SourceIsNotAwaited(s: Session, target: nat, answers: seq<SourceAnswer>)
    requires SourceAnswers(s, answers)
    ensures !PollObjects(s, target, answers).parked
    decreases |answers|
  {
    if Remaining(s.plans) < target && s.cursor < s.last && !s.terminated {
      assert answers[0] in answers;
      if answers[0].SourceObject? && answers[0].meta.frameCount > 0 && s.cursor + answers[0].meta.frameCount <= U64_MAX {
        assert SourceEnd in answers ==> SourceEnd in answers[1..];
        SourceIsNotAwaited(Accept(s, answers[0].meta), target, answers[1..]);
      }
    }
  }

  lemma PlansAwaitNobody(s: Session, available: nat, capacity: nat, env: Env)
    requires forall serial :: !env.url(serial).Pending?
    requires forall serial, k :: !env.download(serial, k).FramePending?
    ensures FillPlans(s, available, capacity, false, env).parked == {}
  {
    hide AuthorizeWindow, AfterUrls, Discard, AfterDownloads;
  }

  lemma NobodyAwaited(s: Session, available: nat, env: Env)
    requires Responsive(s, env)
    ensures Fill(s, available, env).parked == {}
  {
    hide PollObjects, FillPlans;
    var funded := Refresh(s, available, env);
    if funded.ok {
      var capacity := Capacity(funded.session, env.desired.value);
      var target := capacity + env.prefetch.value;
      SourceIsNotAwaited(funded.session, target, env.source);
      PlansAwaitNobody(PollObjects(funded.session, target, env.source).session, funded.available, capacity, env);
    }
  }

  /** A poll that nothing answers "pending" parks on nothing. */
  lemma ParksOnNothing(s: Session, available: nat, env: Env)
    requires Responsive(s, env)
    ensures Poll(s, available, env).parked == {}
  {
    NobodyAwaited(s, available, env);
    hide Fill, PopReady;
  }

  /** Such a poll wakes the driver again, unless it ends. */
  lemma GetsSomewhere(serve: Serve, s: Session, available: nat, env: Env)
    requires Settled(serve, s) && Responsive(s, env)
    ensures var o := Poll(s, available, env); o.phase.InProgress? ==> o.woke
  {
    ParksOnNothing(s, available, env);
    NoLostWakeup(serve, s, available, env);
    hide Settled, Poll;
  }

  /** Once there is nothing left to do, every further poll is in the close phase or fails. */
  lemma StaysDrained(s: Session, available: nat, env: Env)
    requires Drained(s)
    ensures !Poll(s, available, env).phase.InProgress?
  {
    hide Refresh;
    var funded := Refresh(s, available, env);
    if funded.ok {
      var t := funded.session;
      assert PollObjects(t, Capacity(t, env.desired.value) + env.prefetch.value, env.source).session == t;
    }
  }

  function PollCount(events: seq<Event>): nat {
    if events == [] then 0 else PollCount(events[..|events| - 1]) + if events[|events| - 1].Polled? then 1 else 0
  }

  /** Nothing answered "pending" to any poll. */
  ghost predicate ResponsiveRun(s: Session, events: seq<Event>) {
    forall i | 0 <= i < |events| && events[i].Polled? :: Responsive(Drive(s, events[..i]).session, events[i].env)
  }

  /** A driver still in progress has woken itself in each of its polls. */
  lemma {:induction false} WokeEveryTime(serve: Serve, s: Session, events: seq<Event>)
    requires Fresh(s) && HonestRun(serve, events) && ResponsiveRun(s, events)
    ensures Drive(s, events).phase.InProgress? ==> Drive(s, events).selfWakes == PollCount(events)
  {
    if events != [] {
      var n := |events| - 1;
      var before := Drive(s, events[..n]);
      forall i | 0 <= i < n && events[..n][i].Polled?
        ensures Responsive(Drive(s, events[..n][..i]).session, events[..n][i].env)
      {
        assert events[..n][..i] == events[..i];
      }
      WokeEveryTime(serve, s, events[..n]);
      DriveKeeps(serve, s, events[..n]);
      hide Settled, Ordered, Responsive, Poll, Drained;
      if events[n].Polled? && !before.phase.Aborted? {
        if before.phase.Closing? {
          ClosingIsDrained(serve, s, before);
          StaysDrained(before.session, events[n].available, events[n].env);
        } else {
          GetsSomewhere(serve, before.session, events[n].available, events[n].env);
        }
      }
    }
  }

  lemma ClosingIsDrained(serve: Serve, s: Session, d: Driven)
    requires DriveKept(serve, s, d) && d.phase.Closing?
    ensures Drained(d.session)
  {
  }

  /**
   Liveness. Of a driver to which nothing ever answers "pending", any run of more polls than three
   for each requested frame ends in the close phase, with all sent that the source supplied, or in
   a failure, whatever the window, the objects and the grants of permits.
   */
  lemma ReachesClose(serve: Serve, s: Session, events: seq<Event>)
    requires Fresh(s) && HonestRun(serve, events) && ResponsiveRun(s, events)
    requires PollCount(events) > 3 * (s.last - s.first)
    ensures var d := Drive(s, events);
            && (d.phase.Closing? || d.phase.Aborted?)
            && (d.phase.Closing? ==> d.session.sent == Slice(AllFrames(serve, d.session.supplied), s.first, s.last))
  {
    WokeEveryTime(serve, s, events);
    SelfWakesBounded(serve, s, events);
    DriveKeeps(serve, s, events);
    OrderAndCompleteness(serve, s, events);
    var d := Drive(s, events);
    if d.phase.InProgress? { ProgressBounded(serve, d.session); }
    hide Drive, Inv, Progress, HonestRun, ResponsiveRun;
  }
}
