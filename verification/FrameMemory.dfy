/** The frame budget, a counting semaphore, and the permits taken from it. */
module FrameMemory {
  import opened Basics

  /** The semaphore's own limit, `usize::MAX >> 3` on a 64-bit target. */
  const MAX_PERMITS := U64_MAX / 8

  datatype BudgetError =
    | ZeroCapacity
    | ZeroReservation
    | TooManyFrames(frames: nat)
    | ReservationExceedsCapacity(requested: nat, capacity: nat)
    | Unavailable

  /** What is wrong with asking a budget of this capacity for `frames` permits, if anything. */
  function ReservationError(frames: nat, capacity: nat): Option<BudgetError> {
    if frames == 0 then Some(ZeroReservation)
    else if frames > capacity then Some(ReservationExceedsCapacity(frames, capacity))
    else if frames > U32_MAX then Some(TooManyFrames(frames))
    else None
  }

  class FrameBudget {
    const capacity: nat
    var available: nat

    constructor (capacity: nat)
      ensures this.capacity == available == capacity
    {
      this.capacity := capacity;
      available := capacity;
    }

    static method Create(capacity: nat) returns (r: Result<FrameBudget, BudgetError>)
      ensures capacity == 0 ==> r == Err(ZeroCapacity)
      ensures capacity > MAX_PERMITS ==> r == Err(TooManyFrames(capacity))
      ensures 0 < capacity <= MAX_PERMITS ==>
                r.Ok? && fresh(r.value) && r.value.capacity == r.value.available == capacity
    {
      if capacity == 0 { return Err(ZeroCapacity); }
      if capacity > MAX_PERMITS { return Err(TooManyFrames(capacity)); }
      var budget := new FrameBudget(capacity);
      return Ok(budget);
    }

    /** Takes `frames` permits at once or none at all. */
    method TryReserve(frames: nat) returns (r: Result<FramePermit, BudgetError>)
      modifies this
      ensures var invalid := ReservationError(frames, capacity);
              invalid.Some? ==> r == Err(invalid.value) && available == old(available)
      ensures ReservationError(frames, capacity).None? && old(available) < frames ==>
                r == Err(Unavailable) && available == old(available)
      ensures ReservationError(frames, capacity).None? && old(available) >= frames ==>
                r.Ok? && fresh(r.value) && r.value.frames == frames && r.value.budget == this
                && available == old(available) - frames
    {
      var invalid := ReservationError(frames, capacity);
      if invalid.Some? { return Err(invalid.value); }
      if available < frames { return Err(Unavailable); }
      available := available - frames;
      var permit := new FramePermit(this, frames);
      return Ok(permit);
    }
  }

  class FramePermit {
    const budget: FrameBudget
    var frames: nat

    constructor (budget: FrameBudget, frames: nat)
      ensures this.budget == budget && this.frames == frames
    {
      this.budget := budget;
      this.frames := frames;
    }

    /** Moves the other permit's frames into this one. */
    method Merge(other: FramePermit)
      requires other != this && other.budget == budget
      modifies this, other
      ensures frames == old(frames) + old(other.frames) && other.frames == 0
    {
      frames := frames + other.frames;
      other.frames := 0;
    }

    /** Gives back everything above `target`; never grows. */
    method ShrinkTo(target: nat)
      modifies this, budget
      ensures frames == Min(old(frames), target)
      ensures budget.available + frames == old(budget.available) + old(frames)
    {
      var released := Max(frames - target, 0);
      if released == 0 { return; }
      budget.available := budget.available + released;
      frames := frames - released;
    }
  }
}
