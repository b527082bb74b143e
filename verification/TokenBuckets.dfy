/**
 A GCRA bucket is a token bucket in disguise: measured in nanoseconds of refill, its level
 follows the textbook rules under every sequence of operations.
 */
module TokenBuckets {
  import opened Basics
  import opened Cadence

  datatype BucketOp = Wait(duration: nat) | Take | Header(remaining: nat, capacity: nat)

  /** A bucket with its clock and the verdicts on the commits it was asked for. */
  datatype Gated = Gated(bucket: Bucket, now: Instant, verdicts: seq<bool>)

  function GcraStep(g: Gated, op: BucketOp): Gated {
    match op
    case Wait(duration) => g.(now := g.now + duration)
    case Take =>
      if Slack(g.bucket, Committing, g.now) <= 0
      then Gated(AdvanceCommit(g.bucket, g.now), g.now, g.verdicts + [true])
      else g.(verdicts := g.verdicts + [false])
    case Header(remaining, capacity) => g.(bucket := Reconcile(g.bucket, remaining, capacity, g.now))
  }

  function GcraRun(g: Gated, ops: seq<BucketOp>): Gated {
    if ops == [] then g else GcraStep(GcraRun(g, ops[..|ops| - 1]), ops[|ops| - 1])
  }

  /** The reference: it holds at most `capacity` tokens worth `interval` each. */
  datatype Tokens = Tokens(capacity: nat, interval: nat, level: int, verdicts: seq<bool>)

  /** Tokens in use according to a header, which counts a bucket of none as one of one. */
  function ReportedUsed(remaining: nat, capacity: nat): nat {
    var all := if capacity == 0 then 1 else capacity;
    if remaining < all then all - remaining else 0
  }

  function TokenStep(t: Tokens, op: BucketOp): Tokens {
    match op
    case Wait(duration) => t.(level := Min(t.level + duration, t.capacity * t.interval))
    case Take =>
      if t.level >= t.interval then t.(level := t.level - t.interval, verdicts := t.verdicts + [true])
      else t.(verdicts := t.verdicts + [false])
    case Header(remaining, capacity) =>
      t.(level := Min(t.level, (t.capacity - ReportedUsed(remaining, capacity)) * t.interval))
  }

  function TokenRun(t: Tokens, ops: seq<BucketOp>): Tokens {
    if ops == [] then t else TokenStep(TokenRun(t, ops[..|ops| - 1]), ops[|ops| - 1])
  }

  /** The token bucket a GCRA bucket stands for. */
  function Meaning(g: Gated): Tokens
    requires g.bucket.interval > 0
  {
    var c := CapacityOf(g.bucket);
    Tokens(c, g.bucket.interval, c * g.bucket.interval - Max(g.bucket.tat - g.now, 0), g.verdicts)
  }

  lemma ToleranceIsCapacity(b: Bucket)
    requires WellFormed(b)
    ensures CapacityOf(b) * b.interval == b.tolerance + b.interval
  {
  }

  /** Every operation does to the level what it does to the horizon, with the same verdict. */
  lemma StepRefines(g: Gated, op: BucketOp)
    requires WellFormed(g.bucket)
    ensures WellFormed(GcraStep(g, op).bucket)
    ensures Meaning(GcraStep(g, op)) == TokenStep(Meaning(g), op)
  {
    ToleranceIsCapacity(g.bucket);
    if op.Header? {
      var c: int, t: int, debt: int := CapacityOf(g.bucket), g.bucket.interval, Debt(op.remaining, op.capacity);
      assert (c - debt) * t == c * t - debt * t;
    }
  }

  /** Over any run the limiter and the token bucket agree on the level and on every verdict. */
  lemma {:induction false} GcraRefinesTokenBucket(g: Gated, ops: seq<BucketOp>)
    requires WellFormed(g.bucket)
    ensures WellFormed(GcraRun(g, ops).bucket)
    ensures Meaning(GcraRun(g, ops)) == TokenRun(Meaning(g), ops)
  {
    if ops != [] {
      GcraRefinesTokenBucket(g, ops[..|ops| - 1]);
      StepRefines(GcraRun(g, ops[..|ops| - 1]), ops[|ops| - 1]);
    }
  }

  /** A new bucket is a full one of its effective capacity. */
  lemma NewBucketIsFull(name: string, capacity: nat, interval: nat, safety: nat, now: Instant)
    requires interval > 0
    ensures var b := NewBucket(name, capacity, interval, safety, now);
            && WellFormed(b) && CapacityOf(b) == (if capacity > safety then capacity - safety else 1)
            && Meaning(Gated(b, now, [])).level == CapacityOf(b) * interval
  {
    var b, c := NewBucket(name, capacity, interval, safety, now), EffectiveCapacity(capacity, safety);
    assert b.tolerance == (c - 1) * interval;
    assert (c - 1) * interval / interval == c - 1 && (c - 1) * interval % interval == 0 by { Multiples(c - 1, interval); }
  }

  /**
   A header is believed when it is worse than what the limiter thought: of a bucket reported by
   its own capacity, at most the reported number of tokens is left, and no token is ever added.
   */
  lemma HeaderCapsLevel(g: Gated, remaining: nat)
    requires WellFormed(g.bucket)
    ensures WellFormed(GcraStep(g, Header(remaining, CapacityOf(g.bucket))).bucket)
    ensures Meaning(GcraStep(g, Header(remaining, CapacityOf(g.bucket)))).level
         == Min(Meaning(g).level, Min(remaining, CapacityOf(g.bucket)) * g.bucket.interval)
  {
    StepRefines(g, Header(remaining, CapacityOf(g.bucket)));
  }
}
