/**
 Burst, then pace, with commits: the schedule of an idle engine does not depend on which of its
 reservations have been committed meanwhile.
 */
module CadenceBursts {
  import opened Basics
  import opened Cadence
  import opened CadenceChoice
  import opened CadencePace
  import opened CadenceRuns
  import opened CadenceCommits
  import opened CadenceBlind

  /** Reservations of one demand and commits, all made at `start`, each reservation committed at most once. */
  predicate Burst(h: Handle, demand: seq<Pin>, start: Instant, ops: seq<Op>) {
    ops == []
    || (var n := |ops| - 1;
        && Burst(h, demand, start, ops[..n])
        && ((ops[n].Reserve? && ops[n].demand == demand && ops[n].now == start)
            || (ops[n].TryCommit? && ops[n].now == start
                && (Commits(Run(h, ops[..n]), ops[n]) ==> !Run(h, ops[..n]).reservations[ops[n].reservation].done))))
  }

  /** Nothing is handed out earlier than it is asked for. */
  lemma HandedLater(w: Handle, op: Op)
    ensures forall at | at in Handed(w, op) :: op.Reserve? && op.now <= at
  {
    hide ResolveAll, PicksSlack, MaxSlack;
  }

  lemma OnlyStarts(w: Handle, op: Op, start: Instant)
    requires op.Reserve? ==> op.now == start
    ensures forall at | at in Handed(w, op) :: start <= at
  {
    HandedLater(w, op);
    hide Handed;
  }

  /** As many instants are handed out as there are reservations. */
  lemma {:induction false} CountsHanded(h: Handle, demand: seq<Pin>, start: Instant, ops: seq<Op>)
    requires h.reservations == [] && Burst(h, demand, start, ops)
    ensures |Run(h, ops).reservations| == |HandedOut(h, ops)|
    ensures forall at | at in HandedOut(h, ops) :: start <= at
    ensures Clock(h, ops).Some? ==> Clock(h, ops).value == start
  {
    hide Admissible, MayCommit, Admit, DoCommit;
    if ops != [] {
      var n := |ops| - 1;
      CountsHanded(h, demand, start, ops[..n]);
      OnlyStarts(Run(h, ops[..n]), ops[n], start);
    }
  }

  lemma {:induction false} BurstIsInTime(h: Handle, demand: seq<Pin>, start: Instant, ops: seq<Op>)
    requires h.reservations == [] && Burst(h, demand, start, ops)
    ensures InTimeRun(h, ops)
  {
    hide Apply, Handed, MayCommit;
    if ops != [] {
      var n := |ops| - 1;
      BurstIsInTime(h, demand, start, ops[..n]);
      CountsHanded(h, demand, start, ops[..n]);
      var handed := HandedOut(h, ops[..n]);
      assert forall i | 0 <= i < |handed| :: handed[i] in handed;
    }
  }

  lemma {:induction false} SilentBurst(h: Handle, demand: seq<Pin>, start: Instant, ops: seq<Op>)
    requires Burst(h, demand, start, ops)
    ensures forall i | 0 <= i < |Silent(ops)| :: IsClaim(Silent(ops)[i], demand, start)
  {
    hide Apply, Commits;
    if ops != [] { SilentBurst(h, demand, start, ops[..|ops| - 1]); }
  }

  predicate IsClaim(op: Op, demand: seq<Pin>, start: Instant) {
    op.Reserve? && op.demand == demand && op.now == start
  }

  /** The engine after `n` claims in a row. */
  function After(e: Engine, demand: seq<Pin>, start: Instant, n: nat): Engine
    requires |demand| == |e.pools|
  {
    if n == 0 then e
    else
      var r := ClaimTimes(e, demand, start, n);
      if r.None? then e else r.value.engine
  }

  lemma NextClaim(e: Engine, demand: seq<Pin>, start: Instant, n: nat)
    requires Solo(e, demand) && IdleAt(e, start)
    ensures var w := After(e, demand, start, n);
            && Solo(w, demand) && Claim(w, demand, start).Some?
            && ClaimTimes(e, demand, start, n + 1) == Claim(w, demand, start)
            && After(e, demand, start, n + 1) == Claim(w, demand, start).value.engine
  {
    hide IdleAt, Claim, AllTrack, Touched, Pace;
    ClaimsTrack(e, demand, start, n + 1);
    if n > 0 { ClaimsTrack(e, demand, start, n); }
  }

  /** The instants handed out are those of as many claims in a row, and so is the engine left. */
  ghost predicate ClaimsInRow(e: Engine, demand: seq<Pin>, start: Instant, handed: seq<Instant>, w: Engine)
    requires |demand| == |e.pools|
  {
    && w == After(e, demand, start, |handed|)
    && forall k | 0 <= k < |handed| :: HandedAt(e, demand, start, k, handed[k])
  }

  ghost predicate HandedAt(e: Engine, demand: seq<Pin>, start: Instant, k: nat, at: Instant)
    requires |demand| == |e.pools|
  {
    var r := ClaimTimes(e, demand, start, k + 1);
    r.Some? && at == r.value.at
  }

  /** Reservations alone, refused ones apart, are claims in a row. */
  lemma {:induction false} ReservesAreClaims(h: Handle, demand: seq<Pin>, start: Instant, ops: seq<Op>)
    requires Solo(h.engine, demand) && IdleAt(h.engine, start)
    requires forall i | 0 <= i < |ops| :: IsClaim(ops[i], demand, start)
    ensures ClaimsInRow(h.engine, demand, start, HandedOut(h, ops), Run(h, ops).engine)
  {
    hide Claim, Apply, Handed, IdleAt, After, ClaimTimes;
    if ops == [] {
      NoClaims(h.engine, demand, start);
    } else {
      var m := |ops| - 1;
      var before, w := HandedOut(h, ops[..m]), Run(h, ops[..m]);
      ReservesAreClaims(h, demand, start, ops[..m]);
      assert IsClaim(ops[m], demand, start);
      NextClaim(h.engine, demand, start, |before|);
      ReserveIsClaim(w, demand, ops[m].deadline, start);
      assert ops[m] == Reserve(demand, ops[m].deadline, start);
      if Handed(w, ops[m]) == [] {
        assert HandedOut(h, ops) == before;
      } else {
        assert HandedAt(h.engine, demand, start, |before|, Handed(w, ops[m])[0]);
      }
    }
  }

  lemma NoClaims(e: Engine, demand: seq<Pin>, start: Instant)
    requires |demand| == |e.pools|
    ensures After(e, demand, start, 0) == e
  {
  }

  /** A reservation that is admitted is a claim; one that is not changes nothing. */
  lemma ReserveIsClaim(w: Handle, demand: seq<Pin>, deadline: Instant, start: Instant)
    requires Solo(w.engine, demand)
    ensures var op, claim := Reserve(demand, deadline, start), Claim(w.engine, demand, start);
            if Handed(w, op) == [] then Apply(w, op).engine == w.engine
            else claim.Some? && Handed(w, op) == [claim.value.at] && Apply(w, op).engine == claim.value.engine
  {
    hide Admit, PeekReserve;
  }

  /**
   Burst, then pace, whatever is committed meanwhile. Of the reservations an idle engine with one
   resource per pool admits at one instant, the `n`-th is handed that instant plus the longest of
   the touched buckets' own waits for `n` claims, commits at that instant in between or not.
   */
  lemma BurstWithCommits(h: Handle, demand: seq<Pin>, start: Instant, ops: seq<Op>, n: nat)
    requires HandleOk(h) && h.reservations == [] && AllOrdered(h.engine)
    requires Solo(h.engine, demand) && IdleAt(h.engine, start) && Burst(h, demand, start, ops)
    requires 1 <= n <= |HandedOut(h, ops)|
    ensures var first := Touched(h.engine, Zeros(|h.engine.pools|));
            AllWellFormed(first) && HandedOut(h, ops)[n - 1] == start + Pace(first, n)
  {
    hide Apply, HandleOk, AllOrdered, IdleAt, Pace, AllTrack, Touched, ClaimTimes, BlindEngine;
    BurstIsInTime(h, demand, start, ops);
    CommitsAreInvisible(h, ops);
    SilentBurst(h, demand, start, ops);
    ReservesAreClaims(h, demand, start, Silent(ops));
    assert HandedAt(h.engine, demand, start, n - 1, HandedOut(h, ops)[n - 1]);
    ClaimsTrack(h.engine, demand, start, n);
  }
}
