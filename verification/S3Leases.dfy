/**
 Handlers and the garbage collector on one S3 catalog. A handler that has stored a segment, or
 read it while it was linked, holds it for an hour; the collector condemns what has been an
 orphan for longer, deletes its remote blob at leisure and forgets it afterwards.
 */
module S3Leases {
  import opened Basics
  import opened Segments
  import opened S3Model
  import opened S3Safety

  const LEASE := 3600

  /** A segment some handler knows of, and when it stored or read it. */
  type Lease = (nat, int)

  datatype Sys = Sys(t: Tables, now: int, holds: set<Lease>, condemned: set<nat>, deleted: set<nat>)

  datatype Step =
    | Store(segment: Segment, now: int)
    | Read(owner: nat, now: int)
    | ReadPart(upload: string, number: nat, now: int)
    | Link(key: Key, size: nat, ids: seq<nat>, now: int)
    | LinkPart(upload: string, number: nat, size: nat, etag: string, ids: seq<nat>, now: int)
    | Delete(key: Key, now: int)
    | Begin(upload: string, key: Key)
    | Complete(upload: string, key: Key, size: nat, ids: seq<nat>, now: int)
    | Abort(upload: string, now: int)
    | List(now: int)
    | Erase(id: nat)
    | Forget(id: nat)

  // ---- Steps ---------------------------------------------------------------------------------------

  function Settle(s: Sys, after: Option<Tables>, now: int): Sys {
    s.(t := if after.Some? then after.value else s.t, now := now)
  }

  /** A handler that reads these segments while they are linked holds them. */
  function Hold(s: Sys, ids: seq<nat>, now: int): Sys {
    s.(now := now, holds := s.holds + set id | id in ids :: (id, now))
  }

  function Take(s: Sys, step: Step): Sys {
    match step
    case Store(segment, now) =>
      var stored := StoreSegment(s.t, segment, now);
      Settle(s, stored, now).(holds := if stored.Some? then s.holds + {(s.t.nextSegment, now)} else s.holds)
    case Read(owner, now) => Hold(s, SegmentsOf(s.t, owner), now)
    case ReadPart(upload, number, now) => Hold(s, PartSegments(s.t, (upload, number)), now)
    case Link(key, size, ids, now) => Settle(s, ReplaceObject(s.t, key, size, ids, now), now)
    case LinkPart(upload, number, size, etag, ids, now) =>
      Settle(s, ReplacePart(s.t, upload, number, size, etag, ids, now), now)
    case Delete(key, now) => Settle(s, Some(DeleteObject(s.t, key, now)), now)
    case Begin(upload, key) => Settle(s, CreateUpload(s.t, upload, key), s.now)
    case Complete(upload, key, size, ids, now) => Settle(s, CompleteMultipart(s.t, upload, key, size, ids, now), now)
    case Abort(upload, now) => Settle(s, Some(AbortMultipart(s.t, upload, now)), now)
    case List(now) => s.(now := now, condemned := s.condemned + Orphaned(s.t, now - LEASE))
    case Erase(id) => if id in s.condemned then s.(deleted := s.deleted + {id}) else s
    case Forget(id) => if id in s.deleted then Settle(s, ForgetSegment(s.t, id), s.now) else s
  }

  predicate Held(s: Sys, id: nat, now: int) {
    exists h | h in s.holds :: h.0 == id && now <= h.1 + LEASE
  }

  predicate Timely(s: Sys, step: Step) {
    match step
    case Begin(_, _) => true
    case Erase(_) => true
    case Forget(_) => true
    case _ => s.now <= step.now
  }

  /**
   The clock never falls back, handlers link within the hour what they hold, and nothing that a
   completed upload links is an orphan by then.
   */
  predicate Prompt(s: Sys, step: Step) {
    && Timely(s, step)
    && (step.Link? || step.LinkPart? ==> forall id | id in step.ids :: Held(s, id, step.now))
    && (step.Complete? ==> Unmarked(s.t, step.ids))
  }

  function RunSteps(s: Sys, steps: seq<Step>): Sys {
    if steps == [] then s else Take(RunSteps(s, steps[..|steps| - 1]), steps[|steps| - 1])
  }

  predicate PromptRun(s: Sys, steps: seq<Step>) {
    steps == [] || (PromptRun(s, steps[..|steps| - 1]) && Prompt(RunSteps(s, steps[..|steps| - 1]), steps[|steps| - 1]))
  }

  // ---- The invariant -----------------------------------------------------------------------------------

  /** A segment did not become an orphan before it was last stored or read linked. */
  ghost predicate HoldOk(s: Sys, h: Lease) {
    && h.0 < s.t.nextSegment && h.1 <= s.now
    && (h.0 in s.t.segments && s.t.segments[h.0].orphanedAt.Some? ==> s.t.segments[h.0].orphanedAt.value >= h.1)
    && (h.0 !in s.t.segments ==> h.0 in s.condemned)
  }

  /** A condemned segment is unlinked and nobody's lease on it is running. */
  ghost predicate CondemnedOk(s: Sys, id: nat) {
    id < s.t.nextSegment && !Linked(s.t, id) && forall h | h in s.holds && h.0 == id :: h.1 + LEASE < s.now
  }

  ghost predicate LeaseInv(s: Sys) {
    && Sound(s.t)
    && (forall h | h in s.holds :: HoldOk(s, h))
    && (forall id | id in s.condemned :: CondemnedOk(s, id))
    && s.deleted <= s.condemned
  }

  /** A transaction that keeps the segments, marking orphans no earlier than now. */
  ghost predicate Onward(t: Tables, after: Tables, now: int) {
    && after.nextSegment == t.nextSegment && after.segments.Keys == t.segments.Keys
    && forall id | id in t.segments && after.segments[id].orphanedAt.Some? ::
         after.segments[id].orphanedAt == t.segments[id].orphanedAt || after.segments[id].orphanedAt == Some(now)
  }

  lemma OnwardKeeps(s: Sys, after: Tables, now: int, ids: seq<nat>)
    requires LeaseInv(s) && Sound(after) && s.now <= now && Onward(s.t, after, now) && LinksWithin(s.t, after, ids)
    requires forall id | id in ids :: id !in s.condemned
    ensures LeaseInv(s.(t := after, now := now))
  {
    hide Sound, Linked;
    var next := s.(t := after, now := now);
    forall h | h in next.holds ensures HoldOk(next, h) { assert HoldOk(s, h); }
    forall id | id in next.condemned ensures CondemnedOk(next, id) { assert CondemnedOk(s, id); }
  }

  /** A segment under a running lease exists and is not condemned. */
  lemma HeldIsSafe(s: Sys, ids: seq<nat>, now: int)
    requires LeaseInv(s) && s.now <= now && forall id | id in ids :: Held(s, id, now)
    ensures Exist(s.t, ids) && forall id | id in ids :: id !in s.condemned
  {
    hide Sound, Linked;
    forall id | id in ids ensures id in s.t.segments && id !in s.condemned {
      var h :| h in s.holds && h.0 == id && now <= h.1 + LEASE;
      assert HoldOk(s, h) && (id in s.condemned ==> CondemnedOk(s, id));
    }
  }

  lemma MarkOnward(t: Tables, x: Tables, ids: seq<nat>, now: int)
    requires x.nextSegment == t.nextSegment && (x.segments == t.segments || x.segments == Clear(t.segments, ids))
    requires LinksWithin(t, x, ids)
    ensures Onward(t, Mark(x, now), now) && LinksWithin(t, Mark(x, now), ids)
  {
    SameLinks(t, x, Mark(x, now), ids);
    hide Linked;
  }

  /** Linking existing segments of which none is condemned. */
  lemma LinkUncondemned(s: Sys, key: Key, size: nat, ids: seq<nat>, now: int)
    requires LeaseInv(s) && s.now <= now && Exist(s.t, ids) && forall id | id in ids :: id !in s.condemned
    ensures LeaseInv(Take(s, Link(key, size, ids, now)))
  {
    ReplaceObjectKeeps(s.t, key, size, ids, now);
    PutRowLinks(s.t, key, size, ids);
    hide Linked, Sound, LeaseInv, Mark, Clear;
    var put := PutRow(s.t, key, size, ids);
    var cleared := put.(segments := Clear(s.t.segments, ids));
    SameLinks(s.t, put, cleared, ids);
    MarkOnward(s.t, cleared, ids, now);
    OnwardKeeps(s, Mark(cleared, now), now, ids);
  }

  lemma ReplacedLinks(t: Tables, key: Key, size: nat, ids: seq<nat>, now: int)
    requires Exist(t, ids)
    ensures forall id | id in ids :: Linked(ReplaceObject(t, key, size, ids, now).value, id)
  {
    var after := ReplaceObject(t, key, size, ids, now).value;
    forall id | id in ids ensures Linked(after, id) {
      assert t.nextObject in after.links && id in after.links[t.nextObject];
    }
  }

  /**
   A handler that links existing segments, however long it took, keeps the leases in order exactly
   if the collector has condemned none of them by then.
   */
  lemma LinkKeepsIff(s: Sys, key: Key, size: nat, ids: seq<nat>, now: int)
    requires LeaseInv(s) && s.now <= now && Exist(s.t, ids)
    ensures LeaseInv(Take(s, Link(key, size, ids, now))) <==> forall id | id in ids :: id !in s.condemned
  {
    hide Linked, Sound, HoldOk, ReplaceObject;
    ReplacedLinks(s.t, key, size, ids, now);
    TakesLink(s, key, size, ids, now);
    if forall id | id in ids :: id !in s.condemned {
      LinkUncondemned(s, key, size, ids, now);
    } else {
      var id :| id in ids && id in s.condemned;
      assert !CondemnedOk(Take(s, Link(key, size, ids, now)), id);
    }
  }

  lemma TakesLink(s: Sys, key: Key, size: nat, ids: seq<nat>, now: int)
    requires Exist(s.t, ids)
    ensures ReplaceObject(s.t, key, size, ids, now).Some?
    ensures Take(s, Link(key, size, ids, now)) == s.(t := ReplaceObject(s.t, key, size, ids, now).value, now := now)
  {
  }

  lemma LinkKeeps(s: Sys, key: Key, size: nat, ids: seq<nat>, now: int)
    requires LeaseInv(s) && Prompt(s, Link(key, size, ids, now))
    ensures LeaseInv(Take(s, Link(key, size, ids, now)))
  {
    HeldIsSafe(s, ids, now);
    LinkUncondemned(s, key, size, ids, now);
  }

  lemma LinkPartKeeps(s: Sys, upload: string, number: nat, size: nat, etag: string, ids: seq<nat>, now: int)
    requires LeaseInv(s) && Prompt(s, LinkPart(upload, number, size, etag, ids, now))
    ensures LeaseInv(Take(s, LinkPart(upload, number, size, etag, ids, now)))
  {
    HeldIsSafe(s, ids, now);
    hide Linked, Sound, Mark, Clear, Held;
    if ReplacePart(s.t, upload, number, size, etag, ids, now).Some? {
      ReplacePartKeeps(s.t, upload, number, size, etag, ids, now);
      var put := s.t.(parts := s.t.parts[(upload, number) := PartRow(size, etag, ids)]);
      var cleared := put.(segments := Clear(s.t.segments, ids));
      PutPartLinks(s.t, (upload, number), PartRow(size, etag, ids));
      SameLinks(s.t, put, cleared, ids);
      MarkOnward(s.t, cleared, ids, now);
      OnwardKeeps(s, Mark(cleared, now), now, ids);
    } else {
      TimePasses(s, now);
    }
  }

  lemma TimePasses(s: Sys, now: int)
    requires LeaseInv(s) && s.now <= now
    ensures LeaseInv(s.(now := now))
  {
    hide Sound, Linked;
    var next := s.(now := now);
    forall h | h in next.holds ensures HoldOk(next, h) { assert HoldOk(s, h); }
    forall id | id in next.condemned ensures CondemnedOk(next, id) { assert CondemnedOk(s, id); }
  }

  lemma UnlinkKeeps(s: Sys, dropped: Tables, now: int)
    requires LeaseInv(s) && s.now <= now && Sound(Mark(dropped, now)) && LinksWithin(s.t, dropped, [])
    requires dropped.segments == s.t.segments && dropped.nextSegment == s.t.nextSegment
    ensures LeaseInv(s.(t := Mark(dropped, now), now := now))
  {
    hide Linked, Sound, LeaseInv, Mark;
    MarkOnward(s.t, dropped, [], now);
    OnwardKeeps(s, Mark(dropped, now), now, []);
  }

  lemma CompleteKeeps(s: Sys, upload: string, key: Key, size: nat, ids: seq<nat>, now: int)
    requires LeaseInv(s) && s.now <= now && Unmarked(s.t, ids)
    ensures LeaseInv(Take(s, Complete(upload, key, size, ids, now)))
  {
    hide Linked, Sound, Mark, Clear, Held, HoldOk;
    if Exist(s.t, ids) {
      CompleteSoundIff(s.t, upload, key, size, ids, now);
      CompletedLinks(s.t, upload, key, size, ids);
      var linked := DropUpload(PutRow(s.t, key, size, ids), upload);
      MarkOnward(s.t, linked, ids, now);
      CondemnedIsMarked(s, ids);
      OnwardKeeps(s, Mark(linked, now), now, ids);
    } else {
      TimePasses(s, now);
    }
  }

  lemma CondemnedIsMarked(s: Sys, ids: seq<nat>)
    requires LeaseInv(s) && Exist(s.t, ids) && Unmarked(s.t, ids)
    ensures forall id | id in ids :: id !in s.condemned
  {
    hide Linked, HoldOk;
    assert forall id | id in s.condemned :: CondemnedOk(s, id);
  }

  /**
   Completing an upload, whenever its parts were read, keeps the leases in order exactly if none of
   the segments it links is an orphan by then.
   */
  lemma CompleteKeepsLeasesIff(s: Sys, upload: string, key: Key, size: nat, ids: seq<nat>, now: int)
    requires LeaseInv(s) && s.now <= now && Exist(s.t, ids)
    ensures LeaseInv(Take(s, Complete(upload, key, size, ids, now))) <==> Unmarked(s.t, ids)
  {
    hide Linked, Sound, Mark, HoldOk, CondemnedOk;
    if Unmarked(s.t, ids) { CompleteKeeps(s, upload, key, size, ids, now); }
    CompleteSoundIff(s.t, upload, key, size, ids, now);
  }

  lemma StoreHolds(s: Sys, segment: Segment, now: int)
    requires LeaseInv(s) && s.now <= now
    ensures LeaseInv(Take(s, Store(segment, now)))
  {
    var next := Take(s, Store(segment, now));
    if StoreSegment(s.t, segment, now).Some? { StoreKeeps(s.t, segment, now); }
    forall id: nat ensures Linked(s.t, id) <==> Linked(next.t, id) { LinkedNeedsRows(s.t, next.t, id); }
    hide Sound, Linked;
    forall h | h in next.holds ensures HoldOk(next, h) {
      if h in s.holds { assert HoldOk(s, h); }
    }
    forall id | id in next.condemned ensures CondemnedOk(next, id) { assert CondemnedOk(s, id); }
  }

  lemma ReadHolds(s: Sys, ids: seq<nat>, now: int)
    requires LeaseInv(s) && s.now <= now && forall id | id in ids :: Linked(s.t, id)
    ensures LeaseInv(Hold(s, ids, now))
  {
    var next := Hold(s, ids, now);
    forall h | h in next.holds ensures HoldOk(next, h) {
      if h in s.holds { assert HoldOk(s, h); } else { assert Linked(s.t, h.0) && h.0 in s.t.segments; }
    }
    forall id | id in next.condemned ensures CondemnedOk(next, id) { assert CondemnedOk(s, id); }
  }

  lemma ListCondemns(s: Sys, now: int)
    requires LeaseInv(s) && s.now <= now
    ensures LeaseInv(Take(s, List(now)))
  {
    var next := Take(s, List(now));
    forall h | h in next.holds ensures HoldOk(next, h) { assert HoldOk(s, h); }
    forall id | id in next.condemned ensures CondemnedOk(next, id) {
      if id in s.condemned { assert CondemnedOk(s, id); }
      forall h | h in s.holds && h.0 == id ensures h.1 + LEASE < now { assert HoldOk(s, h); }
    }
  }

  lemma ForgetsSafely(s: Sys, id: nat)
    requires LeaseInv(s)
    ensures LeaseInv(Take(s, Forget(id)))
  {
    var next := Take(s, Forget(id));
    ForgetKeeps(s.t, id);
    forall other: nat ensures Linked(s.t, other) <==> Linked(next.t, other) { LinkedNeedsRows(s.t, next.t, other); }
    hide Sound, Linked;
    forall h | h in next.holds ensures HoldOk(next, h) { assert HoldOk(s, h); }
    forall other | other in next.condemned ensures CondemnedOk(next, other) { assert CondemnedOk(s, other); }
  }

  lemma BeginKeeps(s: Sys, upload: string, key: Key)
    requires LeaseInv(s)
    ensures LeaseInv(Take(s, Begin(upload, key)))
  {
    if CreateUpload(s.t, upload, key).Some? { CreateUploadKeeps(s.t, upload, key); }
    var next := Take(s, Begin(upload, key));
    forall id: nat ensures Linked(s.t, id) <==> Linked(next.t, id) { LinkedNeedsRows(s.t, next.t, id); }
    hide Sound, Linked;
    forall h | h in next.holds ensures HoldOk(next, h) { assert HoldOk(s, h); }
    forall id | id in next.condemned ensures CondemnedOk(next, id) { assert CondemnedOk(s, id); }
  }

  lemma StepKeeps(s: Sys, step: Step)
    requires LeaseInv(s) && Prompt(s, step)
    ensures LeaseInv(Take(s, step))
  {
    hide Sound, HoldOk, CondemnedOk, Linked, Mark, Held;
    match step
    case Store(segment, now) => StoreHolds(s, segment, now);
    case Read(owner, now) =>
      LinkedOwner(s.t, owner);
      ReadHolds(s, SegmentsOf(s.t, owner), now);
    case ReadPart(upload, number, now) =>
      if (upload, number) in s.t.parts { LinkedPart(s.t, (upload, number)); }
      ReadHolds(s, PartSegments(s.t, (upload, number)), now);
    case Link(key, size, ids, now) => LinkKeeps(s, key, size, ids, now);
    case LinkPart(upload, number, size, etag, ids, now) => LinkPartKeeps(s, upload, number, size, etag, ids, now);
    case Delete(key, now) =>
      DeleteObjectKeeps(s.t, key, now);
      DropRowLinks(s.t, key);
      UnlinkKeeps(s, DropRow(s.t, key), now);
    case Begin(upload, key) => BeginKeeps(s, upload, key);
    case Complete(upload, key, size, ids, now) => CompleteKeeps(s, upload, key, size, ids, now);
    case Abort(upload, now) =>
      AbortKeeps(s.t, upload, now);
      DropUploadLinks(s.t, upload);
      UnlinkKeeps(s, DropUpload(s.t, upload), now);
    case List(now) => ListCondemns(s, now);
    case Erase(id) =>
      var next := Take(s, step);
      forall h | h in next.holds ensures HoldOk(next, h) { SameTablesHold(s, next, h); }
      forall other | other in next.condemned ensures CondemnedOk(next, other) { SameTablesCondemn(s, next, other); }
    case Forget(id) => ForgetsSafely(s, id);
  }

  lemma SameTablesHold(s: Sys, next: Sys, h: Lease)
    requires HoldOk(s, h) && next.t == s.t && next.now == s.now && next.condemned == s.condemned
    ensures HoldOk(next, h)
  {
  }

  lemma SameTablesCondemn(s: Sys, next: Sys, id: nat)
    requires CondemnedOk(s, id) && next.t == s.t && next.now == s.now && next.holds == s.holds
    ensures CondemnedOk(next, id)
  {
  }

  lemma {:induction false} RunKeeps(s: Sys, steps: seq<Step>)
    requires LeaseInv(s) && PromptRun(s, steps)
    ensures LeaseInv(RunSteps(s, steps))
  {
    hide LeaseInv, Take, Prompt;
    if steps != [] {
      RunKeeps(s, steps[..|steps| - 1]);
      StepKeeps(RunSteps(s, steps[..|steps| - 1]), steps[|steps| - 1]);
    }
  }

  lemma {:induction false} DeletedGrows(s: Sys, steps: seq<Step>, n: nat)
    requires n <= |steps|
    ensures RunSteps(s, steps[..n]).deleted <= RunSteps(s, steps).deleted
    decreases |steps|
  {
    if n == |steps| {
      assert steps[..n] == steps;
    } else {
      assert steps[..|steps| - 1][..n] == steps[..n];
      DeletedGrows(s, steps[..|steps| - 1], n);
      StepErases(RunSteps(s, steps[..|steps| - 1]), steps[|steps| - 1]);
    }
  }

  lemma StepErases(s: Sys, step: Step)
    ensures s.deleted <= Take(s, step).deleted
  {
  }

  /**
   Lease safety. However handlers and collectors interleave and however long a collector
   takes: a segment is marked exactly while nothing links it, every link leads to a segment,
   and no segment whose remote blob was ever deleted is linked then or later.
   */
  lemma LeaseSafety(start: int, steps: seq<Step>, n: nat)
    requires n <= |steps| && PromptRun(Sys(EMPTY, start, {}, {}, {}), steps)
    ensures var s := RunSteps(Sys(EMPTY, start, {}, {}, {}), steps);
            var earlier := RunSteps(Sys(EMPTY, start, {}, {}, {}), steps[..n]);
            && (forall id | id in s.t.segments :: s.t.segments[id].orphanedAt.None? <==> Linked(s.t, id))
            && (forall id: nat | Linked(s.t, id) :: id in s.t.segments && id !in earlier.deleted)
  {
    var empty := Sys(EMPTY, start, {}, {}, {});
    NothingYet(start);
    RunKeeps(empty, steps);
    DeletedGrows(empty, steps, n);
    hide RunSteps, Linked;
    assert forall id | id in RunSteps(empty, steps).deleted :: CondemnedOk(RunSteps(empty, steps), id);
  }

  lemma NothingYet(start: int)
    ensures LeaseInv(Sys(EMPTY, start, {}, {}, {})) && SizesOk(EMPTY)
  {
    assert forall id: nat :: !Linked(EMPTY, id);
  }
}
