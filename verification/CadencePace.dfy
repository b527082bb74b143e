/**
 Burst, then pace: the schedule an idle engine hands out when every pool holds a single
 resource, in closed form and for any number of buckets.
 */
module CadencePace {
  import opened Basics
  import opened Cadence
  import opened CadenceChoice
  import opened TokenBuckets

  /** An engine after a claim, and the instant it handed out. */
  datatype Claimed = Claimed(engine: Engine, at: Instant)

  function Claim(e: Engine, demand: seq<Pin>, now: Instant): Option<Claimed>
    requires |demand| == |e.pools|
  {
    var peek := PeekReserve(e, demand, now);
    if peek.None? then None
    else Some(Claimed(Admit(e, peek.value.picks, peek.value.at), peek.value.at))
  }

  // ---- The closed form -------------------------------------------------------------------

  /** What bucket `b` alone makes the `n`-th claim wait. */
  function WaitFor(b: Bucket, n: nat): int
    requires b.interval > 0
  {
    (n - CapacityOf(b)) * b.interval
  }

  ghost predicate AllWellFormed(buckets: seq<Bucket>) {
    forall b | b in buckets :: WellFormed(b)
  }

  /** The longest such wait, never negative. */
  ghost function Pace(buckets: seq<Bucket>, n: nat): int
    requires AllWellFormed(buckets)
  {
    assert buckets != [] ==> buckets[0] in buckets && forall b | b in buckets[1..] :: b in buckets;
    if buckets == [] then 0 else Max(WaitFor(buckets[0], n), Pace(buckets[1..], n))
  }

  lemma {:induction false} PaceIsMax(buckets: seq<Bucket>, n: nat)
    requires AllWellFormed(buckets)
    ensures Pace(buckets, n) >= 0
    ensures forall b | b in buckets :: WaitFor(b, n) <= Pace(buckets, n)
    ensures Pace(buckets, n) == 0 || exists b | b in buckets :: WaitFor(b, n) == Pace(buckets, n)
  {
    if buckets != [] {
      PaceIsMax(buckets[1..], n);
      assert buckets[0] in buckets && forall b | b in buckets :: b == buckets[0] || b in buckets[1..];
    }
  }

  /**
   A bucket pushed ahead by claim `j` and then by its own interval for `q` more claims does
   not run ahead of the closed form for claim `j + q`.
   */
  lemma PaceAbsorbs(buckets: seq<Bucket>, b: Bucket, j: nat, q: nat)
    requires AllWellFormed(buckets) && b in buckets && j >= 1 && q >= 1
    ensures Pace(buckets, j) + (q + 1 - CapacityOf(b)) * b.interval <= Pace(buckets, j + q)
  {
    PaceIsMax(buckets, j);
    PaceIsMax(buckets, j + q);
    var c, t := CapacityOf(b), b.interval;
    var p := Pace(buckets, j);
    if p == 0 {
      MulLe(q + 1 - c, j + q - c, t);
    } else {
      var d :| d in buckets && WaitFor(d, j) == p;
      SlowerAbsorbs(c, t, CapacityOf(d), d.interval, j, q);
      assert WaitFor(d, j + q) <= Pace(buckets, j + q) && WaitFor(b, j + q) <= Pace(buckets, j + q);
    }
  }

  lemma SlowerAbsorbs(c: nat, t: nat, d: nat, u: nat, j: nat, q: nat)
    requires c >= 1 && d >= 1 && j >= 1 && q >= 1
    ensures (j - d) * u + (q + 1 - c) * t <= Max((j + q - d) * u, (j + q - c) * t)
            || (j - d) * u < 0
  {
    if j >= d {
      if t <= u {
        MulLe(q + 1 - c, q, t);
        MulLe(t, u, q);
        assert (j - d) * u + q * u == (j + q - d) * u;
      } else {
        MulLe(j - d, j - 1, u);
        MulLe(u, t, j - 1);
        assert (j - 1) * t + (q + 1 - c) * t == (j + q - c) * t;
      }
    } else {
      MulLe(j - d, -1, u);
    }
  }

  // ---- The touched buckets as a list ---------------------------------------------------------------

  lemma {:induction false} PickedAfterChange(pools: seq<Pool>, after: seq<Pool>, picks: seq<nat>, change: Bucket -> Bucket)
    requires Picks(pools, picks) && |after| == |pools|
    requires forall p | 0 <= p < |pools| :: after[p] == ChangePool(pools[p], picks[p], change)
    ensures Picks(after, picks)
    ensures PickedBuckets(after, picks) == MapBuckets(PickedBuckets(pools, picks), change)
  {
    if pools != [] {
      assert after[0] == ChangePool(pools[0], picks[0], change);
      PickedAfterChange(pools[1..], after[1..], picks[1..], change);
    }
  }

  lemma TouchedAfterChange(e: Engine, picks: seq<nat>, change: Bucket -> Bucket)
    requires Picks(e.pools, picks)
    ensures var after := ChangeTouched(e, picks, change);
            Picks(after.pools, picks) && Touched(after, picks) == MapBuckets(Touched(e, picks), change)
  {
    PickedAfterChange(e.pools, ChangeTouched(e, picks, change).pools, picks, change);
  }

  /** Bucket `b` as it was first, and `now` after `k` claims made at `start`. */
  ghost predicate Tracks(first: seq<Bucket>, b: Bucket, now: Bucket, start: Instant, k: nat)
    requires AllWellFormed(first)
  {
    && now.interval == b.interval && now.tolerance == b.tolerance
    && now.rtat >= start + k * b.interval
    && forall m: nat :: NotAhead(first, now, start, k, m)
  }

  /** Even `m` intervals later the bucket would not ask for more than the closed form. */
  ghost predicate NotAhead(first: seq<Bucket>, now: Bucket, start: Instant, k: nat, m: nat)
    requires AllWellFormed(first)
  {
    now.rtat - start + m * now.interval - now.tolerance <= Pace(first, k + 1 + m)
  }

  ghost predicate AllTrack(first: seq<Bucket>, now: seq<Bucket>, start: Instant, k: nat) {
    && AllWellFormed(first) && |now| == |first|
    && forall i | 0 <= i < |first| :: Tracks(first, first[i], now[i], start, k)
  }

  lemma WaitForTolerance(b: Bucket, n: nat)
    requires WellFormed(b)
    ensures WaitFor(b, n) == n * b.interval - b.interval - b.tolerance
  {
    ToleranceIsCapacity(b);
    var c: int := CapacityOf(b);
    assert (n - c) * b.interval == n * b.interval - c * b.interval;
  }

  /** The first claim on idle buckets sets every one of them off at `start`. */
  lemma FirstTrack(first: seq<Bucket>, start: Instant)
    requires AllWellFormed(first) && forall b | b in first :: b.rtat <= start
    ensures AllTrack(first, MapBuckets(first, b => AdvanceReserve(b, start)), start, 1)
  {
    forall i | 0 <= i < |first| ensures Tracks(first, first[i], AdvanceReserve(first[i], start), start, 1) {
      var b := first[i];
      assert b in first;
      forall m: nat ensures NotAhead(first, AdvanceReserve(b, start), start, 1, m) {
        PaceIsMax(first, 2 + m);
        WaitForTolerance(b, 2 + m);
        assert (2 + m) * b.interval == b.interval + b.interval + m * b.interval;
      }
    }
  }

  /** The instant is the least one that no bucket of the list refuses. */
  ghost predicate LeastAdmissible(buckets: seq<Bucket>, now: Instant, at: Instant) {
    && now <= at
    && (forall b | b in buckets :: Slack(b, Allocating, at) <= 0)
    && (now < at ==> exists b | b in buckets :: Slack(b, Allocating, at) == 0)
  }

  /** No bucket asks for more than the closed form. */
  lemma TrackedUpper(first: seq<Bucket>, now: seq<Bucket>, start: Instant, k: nat, at: Instant, i: nat)
    requires AllTrack(first, now, start, k) && i < |now| && Slack(now[i], Allocating, at) == 0
    ensures at <= start + Pace(first, k + 1)
  {
    hide Pace;
    assert Tracks(first, first[i], now[i], start, k) && NotAhead(first, now[i], start, k, 0);
  }

  /** Every bucket asks for at least its own wait. */
  lemma TrackedLower(first: seq<Bucket>, now: seq<Bucket>, start: Instant, k: nat, at: Instant, i: nat)
    requires AllTrack(first, now, start, k) && i < |now| && Slack(now[i], Allocating, at) <= 0
    ensures WellFormed(first[i]) && start + WaitFor(first[i], k + 1) <= at
  {
    hide Pace, NotAhead;
    assert Tracks(first, first[i], now[i], start, k);
    assert first[i] in first;
    WaitForTolerance(first[i], k + 1);
    assert (k + 1) * first[i].interval == k * first[i].interval + first[i].interval;
  }

  /** Idle buckets hand out the very instant they are asked at. */
  lemma FirstClaim(first: seq<Bucket>, start: Instant, at: Instant)
    requires AllWellFormed(first) && forall b | b in first :: b.rtat <= start
    requires LeastAdmissible(first, start, at)
    ensures at == start == start + Pace(first, 1)
  {
    PaceIsMax(first, 1);
    forall b | b in first ensures WaitFor(b, 1) <= 0 { WaitForTolerance(b, 1); }
  }

  /** Tracked buckets hand out the closed form next. */
  lemma TrackedClaim(first: seq<Bucket>, now: seq<Bucket>, start: Instant, k: nat, at: Instant)
    requires AllTrack(first, now, start, k) && LeastAdmissible(now, start, at)
    ensures at == start + Pace(first, k + 1)
  {
    hide Pace, Tracks, WaitFor;
    PaceIsMax(first, k + 1);
    if Pace(first, k + 1) > 0 {
      var b :| b in first && WaitFor(b, k + 1) == Pace(first, k + 1);
      var i :| 0 <= i < |first| && first[i] == b;
      assert now[i] in now;
      TrackedLower(first, now, start, k, at, i);
    }
    if start < at {
      var b :| b in now && Slack(b, Allocating, at) == 0;
      var i :| 0 <= i < |now| && now[i] == b;
      TrackedUpper(first, now, start, k, at, i);
    }
  }

  lemma AdvanceTracks(first: seq<Bucket>, b: Bucket, now: Bucket, start: Instant, k: nat)
    requires AllWellFormed(first) && b in first && Tracks(first, b, now, start, k)
    ensures Tracks(first, b, AdvanceReserve(now, start + Pace(first, k + 1)), start, k + 1)
  {
    var at := start + Pace(first, k + 1);
    var after := AdvanceReserve(now, at);
    var next := k + 1;
    assert next * b.interval == k * b.interval + b.interval;
    forall m: nat ensures NotAhead(first, after, start, next, m) {
      assert NotAhead(first, now, start, k, m + 1);
      PaceAbsorbs(first, b, k + 1, m + 1);
      WaitForTolerance(b, m + 2);
      assert (m + 1) * b.interval == m * b.interval + b.interval;
      assert (m + 2) * b.interval == m * b.interval + b.interval + b.interval;
      assert k + 1 + (m + 1) == k + 1 + 1 + m;
    }
  }

  lemma AdvanceAllTrack(first: seq<Bucket>, now: seq<Bucket>, start: Instant, k: nat, at: Instant)
    requires AllTrack(first, now, start, k) && at == start + Pace(first, k + 1)
    ensures AllTrack(first, MapBuckets(now, b => AdvanceReserve(b, at)), start, k + 1)
  {
    forall i | 0 <= i < |first| ensures Tracks(first, first[i], AdvanceReserve(now[i], at), start, k + 1) {
      AdvanceTracks(first, first[i], now[i], start, k);
    }
  }

  // ---- The engine's own claims ------------------------------------------------------------------------

  /** Every pool offers one live resource, and the demand asks for it. */
  predicate Solo(e: Engine, demand: seq<Pin>) {
    && |demand| == |e.pools|
    && forall p | 0 <= p < |e.pools| ::
         |e.pools[p]| == 1 && e.pools[p][0].alive && (demand[p].Free? || demand[p].key == e.pools[p][0].key)
  }

  function Zeros(n: nat): seq<nat> { seq(n, _ => 0) }

  /** The `n`-th of `n` claims in a row, all made at `now`. */
  function ClaimTimes(e: Engine, demand: seq<Pin>, now: Instant, n: nat): (r: Option<Claimed>)
    requires |demand| == |e.pools| && n >= 1
    ensures r.Some? ==> |r.value.engine.pools| == |e.pools|
  {
    if n == 1 then Claim(e, demand, now)
    else
      var before := ClaimTimes(e, demand, now, n - 1);
      if before.None? then None else Claim(before.value.engine, demand, now)
  }

  lemma SoloClaim(e: Engine, demand: seq<Pin>, now: Instant)
    requires Solo(e, demand)
    ensures var picks, r := Zeros(|e.pools|), Claim(e, demand, now);
            && Picks(e.pools, picks) && r.Some?
            && LeastAdmissible(Touched(e, picks), now, r.value.at)
            && Solo(r.value.engine, demand) && Picks(r.value.engine.pools, picks)
            && Touched(r.value.engine, picks) == MapBuckets(Touched(e, picks), b => AdvanceReserve(b, r.value.at))
  {
    hide Touched, Earliest;
    forall p | 0 <= p < |e.pools| ensures Resolve(e.pools[p], demand[p], now) == Some(0) {
      assert e.pools[p][0].alive;
    }
    var picks := Zeros(|e.pools|);
    var peek := PeekReserve(e, demand, now);
    assert peek.Some? && peek.value.picks == picks;
    EarliestIsLeast(e, picks, Allocating, now);
    TouchedAfterChange(e, picks, b => AdvanceReserve(b, peek.value.at));
  }

  /** An idle engine: no bucket the demand touches is reserved beyond `start`. */
  ghost predicate IdleAt(e: Engine, start: Instant) {
    && Picks(e.pools, Zeros(|e.pools|))
    && forall b | b in Touched(e, Zeros(|e.pools|)) :: WellFormed(b) && b.rtat <= start
  }

  lemma {:induction false} ClaimsTrack(e: Engine, demand: seq<Pin>, start: Instant, n: nat)
    requires Solo(e, demand) && IdleAt(e, start) && n >= 1
    ensures var picks, r := Zeros(|e.pools|), ClaimTimes(e, demand, start, n);
            && AllWellFormed(Touched(e, picks))
            && r.Some? && Solo(r.value.engine, demand) && Picks(r.value.engine.pools, picks)
            && AllTrack(Touched(e, picks), Touched(r.value.engine, picks), start, n)
            && r.value.at == start + Pace(Touched(e, picks), n)
  {
    hide Pace, Tracks, Claim, LeastAdmissible, Touched;
    var picks := Zeros(|e.pools|);
    var first := Touched(e, picks);
    if n == 1 {
      SoloClaim(e, demand, start);
      FirstClaim(first, start, Claim(e, demand, start).value.at);
      FirstTrack(first, start);
    } else {
      ClaimsTrack(e, demand, start, n - 1);
      var before := ClaimTimes(e, demand, start, n - 1).value.engine;
      SoloClaim(before, demand, start);
      var at := Claim(before, demand, start).value.at;
      TrackedClaim(first, Touched(before, picks), start, n - 1, at);
      AdvanceAllTrack(first, Touched(before, picks), start, n - 1, at);
    }
  }

  /**
   Burst, then pace. On an idle engine with one resource per pool, whenever it was created, the
   `n`-th claim made at the same instant is handed that instant plus the longest of the touched
   buckets' own waits `(n - capacity) * interval`, for any number of buckets of any shape.
   */
  lemma BurstThenPace(e: Engine, demand: seq<Pin>, start: Instant, n: nat)
    requires Solo(e, demand) && IdleAt(e, start) && n >= 1
    ensures var picks, r := Zeros(|e.pools|), ClaimTimes(e, demand, start, n);
            && r.Some? && start <= r.value.at
            && (forall b | b in Touched(e, picks) :: WellFormed(b) && start + WaitFor(b, n) <= r.value.at)
            && (start < r.value.at ==> exists b | b in Touched(e, picks) :: WellFormed(b) && start + WaitFor(b, n) == r.value.at)
  {
    hide Pace, Touched, ClaimTimes, AllTrack, Solo;
    ClaimsTrack(e, demand, start, n);
    PaceIsMax(Touched(e, Zeros(|e.pools|)), n);
  }
}
