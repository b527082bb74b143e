/**
 What no step of a handler breaks, however late it comes, and reads that take more than one query,
 with other handlers in between: when they are still consistent, and what goes wrong when not.
 */
module S3Reads {
  import opened Basics
  import opened Segments
  import opened S3Model
  import opened S3Safety
  import opened S3Leases

  /** Later tables: no id is reused, no list of links and no segment is rewritten. */
  ghost predicate Later(t: Tables, u: Tables) {
    && t.nextObject <= u.nextObject && t.nextSegment <= u.nextSegment
    && (forall owner | owner in u.links && owner < t.nextObject :: owner in t.links && u.links[owner] == t.links[owner])
    && (forall id | id in u.segments && id < t.nextSegment ::
          id in t.segments && u.segments[id].segment == t.segments[id].segment)
  }

  lemma StepIsLater(s: Sys, step: Step)
    ensures Later(s.t, Take(s, step).t)
  {
    hide Linked, Total, PartIds, PartsSize, HasParts;
  }

  lemma {:induction false} RunIsLater(s: Sys, steps: seq<Step>)
    ensures Later(s.t, RunSteps(s, steps).t)
  {
    hide Take;
    if steps != [] {
      RunIsLater(s, steps[..|steps| - 1]);
      StepIsLater(RunSteps(s, steps[..|steps| - 1]), steps[|steps| - 1]);
    }
  }

  // ---- Links stay sound whatever is late ----------------------------------------------------------

  /** Links lead to segments, and every object has its own id and its links. */
  ghost predicate WellLinked(t: Tables) {
    LinksExist(t) && RowsOk(t)
  }

  lemma MarkKeepsRows(t: Tables, now: int)
    requires RowsOk(t)
    ensures RowsOk(Mark(t, now)) && Mark(t, now).segments.Keys == t.segments.Keys
  {
    hide Linked;
  }

  /** Links to what was linked and to existing segments, none of which went. */
  lemma LinksStay(t: Tables, u: Tables, ids: seq<nat>)
    requires LinksExist(t) && LinksWithin(t, u, ids) && Exist(t, ids) && t.segments.Keys <= u.segments.Keys
    ensures LinksExist(u)
  {
    hide Linked;
  }

  /** Marking after a change of rows. */
  lemma MarkedStays(t: Tables, x: Tables, ids: seq<nat>, now: int)
    requires WellLinked(t) && RowsOk(x) && LinksWithin(t, x, ids) && Exist(t, ids)
    requires x.nextSegment == t.nextSegment && (x.segments == t.segments || x.segments == Clear(t.segments, ids))
    ensures WellLinked(Mark(x, now))
  {
    hide Linked, RowsOk, Clear, Mark;
    MarkOnward(t, x, ids, now);
    MarkKeepsRows(x, now);
    LinksStay(t, Mark(x, now), ids);
  }

  lemma LinkStays(t: Tables, key: Key, size: nat, ids: seq<nat>, now: int)
    requires WellLinked(t) && Exist(t, ids)
    ensures WellLinked(ReplaceObject(t, key, size, ids, now).value)
  {
    hide Linked, RowsOk, Clear, Mark;
    var put := PutRow(t, key, size, ids);
    PutRowLinks(t, key, size, ids);
    PutRowKeeps(t, key, size, ids);
    ClearKeeps(put, ids);
    SameLinks(t, put, put.(segments := Clear(t.segments, ids)), ids);
    MarkedStays(t, put.(segments := Clear(t.segments, ids)), ids, now);
  }

  lemma LinkPartStays(t: Tables, upload: string, number: nat, size: nat, etag: string, ids: seq<nat>, now: int)
    requires WellLinked(t) && ReplacePart(t, upload, number, size, etag, ids, now).Some?
    ensures WellLinked(ReplacePart(t, upload, number, size, etag, ids, now).value)
  {
    hide Linked, RowsOk, Clear, Mark;
    var put := t.(parts := t.parts[(upload, number) := PartRow(size, etag, ids)]);
    PutPartKeeps(t, (upload, number), PartRow(size, etag, ids));
    PutPartLinks(t, (upload, number), PartRow(size, etag, ids));
    ClearKeeps(put, ids);
    SameLinks(t, put, put.(segments := Clear(t.segments, ids)), ids);
    MarkedStays(t, put.(segments := Clear(t.segments, ids)), ids, now);
  }

  lemma CompleteStays(t: Tables, upload: string, key: Key, size: nat, ids: seq<nat>, now: int)
    requires WellLinked(t) && Exist(t, ids)
    ensures WellLinked(CompleteMultipart(t, upload, key, size, ids, now).value)
  {
    hide Linked, RowsOk, Mark;
    CompletedLinks(t, upload, key, size, ids);
    PutRowKeeps(t, key, size, ids);
    DropUploadKeeps(PutRow(t, key, size, ids), upload);
    MarkedStays(t, DropUpload(PutRow(t, key, size, ids), upload), ids, now);
  }

  lemma DropsStay(t: Tables, key: Key, upload: string, now: int)
    requires WellLinked(t)
    ensures WellLinked(DeleteObject(t, key, now)) && WellLinked(AbortMultipart(t, upload, now))
  {
    hide Linked, RowsOk, Mark;
    DropRowLinks(t, key);
    DropRowKeeps(t, key);
    MarkedStays(t, DropRow(t, key), [], now);
    DropUploadLinks(t, upload);
    DropUploadKeeps(t, upload);
    MarkedStays(t, DropUpload(t, upload), [], now);
  }

  lemma StoreStays(t: Tables, segment: Segment, now: int)
    requires WellLinked(t) && StoreSegment(t, segment, now).Some?
    ensures WellLinked(StoreSegment(t, segment, now).value)
  {
    SameLinked(t, StoreSegment(t, segment, now).value);
    hide Linked;
  }

  lemma CreateStays(t: Tables, upload: string, key: Key)
    requires WellLinked(t) && CreateUpload(t, upload, key).Some?
    ensures WellLinked(CreateUpload(t, upload, key).value)
  {
    SameLinked(t, CreateUpload(t, upload, key).value);
    hide Linked;
  }

  lemma ForgetStays(t: Tables, id: nat)
    requires WellLinked(t) && ForgetSegment(t, id).Some?
    ensures WellLinked(ForgetSegment(t, id).value)
  {
    SameLinked(t, ForgetSegment(t, id).value);
    hide Linked;
  }

  lemma SameLinked(t: Tables, u: Tables)
    requires t.links == u.links && t.parts == u.parts
    ensures forall id: nat :: Linked(t, id) <==> Linked(u, id)
  {
    forall id: nat ensures Linked(t, id) <==> Linked(u, id) { LinkedNeedsRows(t, u, id); }
  }

  /** No step, however late or torn, leaves a link to a segment that is gone. */
  lemma StepStays(s: Sys, step: Step)
    requires WellLinked(s.t)
    ensures WellLinked(Take(s, step).t)
  {
    hide WellLinked, Linked, Mark, ReplacePart, StoreSegment, CreateUpload, ForgetSegment, DeleteObject, AbortMultipart;
    match step
    case Store(segment, now) => if StoreSegment(s.t, segment, now).Some? { StoreStays(s.t, segment, now); }
    case Read(_, _) =>
    case ReadPart(_, _, _) =>
    case Link(key, size, ids, now) => if Exist(s.t, ids) { LinkStays(s.t, key, size, ids, now); }
    case LinkPart(upload, number, size, etag, ids, now) =>
      if ReplacePart(s.t, upload, number, size, etag, ids, now).Some? { LinkPartStays(s.t, upload, number, size, etag, ids, now); }
    case Delete(key, now) => DropsStay(s.t, key, "", now);
    case Begin(upload, key) => if CreateUpload(s.t, upload, key).Some? { CreateStays(s.t, upload, key); }
    case Complete(upload, key, size, ids, now) => if Exist(s.t, ids) { CompleteStays(s.t, upload, key, size, ids, now); }
    case Abort(upload, now) => DropsStay(s.t, ("", ""), upload, now);
    case List(_) =>
    case Erase(_) =>
    case Forget(id) => if ForgetSegment(s.t, id).Some? { ForgetStays(s.t, id); }
  }

  lemma {:induction false} RunStays(s: Sys, steps: seq<Step>)
    requires WellLinked(s.t)
    ensures WellLinked(RunSteps(s, steps).t)
  {
    hide Take, WellLinked;
    if steps != [] {
      RunStays(s, steps[..|steps| - 1]);
      StepStays(RunSteps(s, steps[..|steps| - 1]), steps[|steps| - 1]);
    }
  }

  // ---- Reads in two queries ------------------------------------------------------------------------

  /**
   `get_object` reads the object's row and, some steps later, the segments of that row's id.
   If the row is still there it gets the row's own segments. If the size was right, size and
   segments belong together exactly if the row is still there or the object is empty.
   */
  lemma SplitReadExact(s: Sys, steps: seq<Step>, key: Key)
    requires WellLinked(s.t) && FindObject(s.t, key).Some?
    requires s.t.objects[key].size == Total(s.t.links[s.t.objects[key].id], s.t.segments)
    ensures var row, later := FindObject(s.t, key).value, RunSteps(s, steps).t;
            && (row.id in later.links ==> SegmentsOf(later, row.id) == SegmentsOf(s.t, row.id))
            && (Total(SegmentsOf(later, row.id), later.segments) == row.size <==> row.id in later.links || row.size == 0)
  {
    RunIsLater(s, steps);
    RunStays(s, steps);
    var row, later := s.t.objects[key], RunSteps(s, steps).t;
    hide RunSteps;
    if row.id in later.links {
      var ids := later.links[row.id];
      forall id | id in ids ensures id in later.segments && id in s.t.segments {
        assert Linked(later, id) && Linked(s.t, id);
      }
      SameTotal(ids, s.t.segments, later.segments);
    }
  }

  // ---- Concrete failures --------------------------------------------------------------------------

  const BYTE := Segment("blob", 1, 1, [7])
  const K: Key := ("bucket", "key")

  /** One object with one segment, since second 5. */
  function OneObject(): Tables {
    Tables(map[0 := Stored(BYTE, None)], map[K := ObjectRow(0, 1)], map[0 := [0]], map[], map[], 1, 1)
  }

  /** A sound catalog to start from. */
  lemma OneObjectIsSound()
    ensures Sound(OneObject()) && SizesOk(OneObject())
  {
    var t := OneObject();
    assert t.links[0] == [0] && [0][1..] == [] && Total([0], t.segments) == 1;
    assert Linked(t, 0);
  }

  /** A copy whose source is deleted between its two queries records a size without the bytes. */
  lemma TornCopy()
    ensures var row := FindObject(OneObject(), K).value;
            var deleted := DeleteObject(OneObject(), K, 6);
            var copied := ReplaceObject(deleted, ("bucket", "copy"), row.size, SegmentsOf(deleted, row.id), 6);
            && Sound(OneObject()) && SizesOk(OneObject()) && Sound(deleted) && SizesOk(deleted)
            && copied.Some? && !SizesOk(copied.value)
  {
    OneObjectIsSound();
    DeleteObjectKeeps(OneObject(), K, 6);
    var t := OneObject();
    var row := FindObject(t, K).value;
    var deleted := DeleteObject(t, K, 6);
    assert SegmentsOf(deleted, row.id) == [];
    var copied := ReplaceObject(deleted, ("bucket", "copy"), 1, [], 6).value;
    assert copied.objects[("bucket", "copy")] == ObjectRow(1, 1) && copied.links[1] == [];
    assert Total([], copied.segments) == 0;
  }

  /** The byte of `BYTE` twice over. */
  const BYTES := Segment("blobs", 1, 2, [7, 7])

  /** The upload of `ReplacedPart` before: its part 1 is segment 0, and segment 1 is stored. */
  function FirstPart(): Tables {
    Tables(map[0 := Stored(BYTE, None), 1 := Stored(BYTES, Some(9))], map[], map[], map["u" := K],
           map[("u", 1) := PartRow(1, "etag", [0])], 0, 2)
  }

  lemma FirstPartIsSound()
    ensures Sound(FirstPart()) && SizesOk(FirstPart())
  {
    var t := FirstPart();
    assert t.parts[("u", 1)].segments == [0] && [0][1..] == [] && Total([0], t.segments) == 1;
    assert Linked(t, 0);
  }

  /**
   `parts` reads the rows first and their segments afterwards. If part 1 is uploaded again in
   between, the upload is completed with the size of the old part and the segment of the new one:
   nothing it links is marked, and its size is wrong.
   */
  lemma TornParts()
    ensures var size := FirstPart().parts[("u", 1)].size;
            var replaced := ReplacePart(FirstPart(), "u", 1, 2, "other", [1], 10);
            && Sound(FirstPart()) && SizesOk(FirstPart())
            && replaced.Some? && Sound(replaced.value) && SizesOk(replaced.value)
            && (var ids := PartSegments(replaced.value, ("u", 1));
                var completed := CompleteMultipart(replaced.value, "u", K, size, ids, 20);
                Unmarked(replaced.value, ids) && completed.Some? && Sound(completed.value) && !SizesOk(completed.value))
  {
    hide Sound, SizesOk, Mark, Linked;
    FirstPartIsSound();
    var t := FirstPart();
    OneSegment(1, t.segments);
    ReplacePartKeeps(t, "u", 1, 2, "other", [1], 10);
    var u := ReplacePart(t, "u", 1, 2, "other", [1], 10).value;
    PartIsUnmarked(u);
    OneSegment(1, u.segments);
    CompleteSoundIff(u, "u", K, 1, [1], 20);
    CompleteKeepsIff(u, "u", K, 1, [1], 20);
  }

  lemma OneSegment(id: nat, segments: map<nat, Stored>)
    requires id in segments
    ensures Total([id], segments) == segments[id].segment.size
  {
    assert [id][1..] == [];
  }

  lemma PartIsUnmarked(u: Tables)
    requires Some(u) == ReplacePart(FirstPart(), "u", 1, 2, "other", [1], 10)
    ensures PartSegments(u, ("u", 1)) == [1] && 1 in u.segments && u.segments[1] == Stored(BYTES, None)
  {
    assert u.parts[("u", 1)] == PartRow(2, "other", [1]);
    var put := FirstPart().(parts := u.parts, segments := Clear(FirstPart().segments, [1]));
    assert u == Mark(put, 10) && put.segments[1].orphanedAt.None?;
    assert 1 in put.parts[("u", 1)].segments && Linked(put, 1);
  }

  /** An upload whose part 1 was segment 0 until second 10 and is segment 1 since. */
  function ReplacedPart(): Tables {
    Tables(map[0 := Stored(BYTE, Some(10)), 1 := Stored(BYTE, None)], map[], map[], map["u" := K],
           map[("u", 1) := PartRow(1, "etag", [1])], 0, 2)
  }

  lemma ReplacedPartIsSound()
    ensures Sound(ReplacedPart()) && SizesOk(ReplacedPart())
  {
    var t := ReplacedPart();
    assert t.parts[("u", 1)].segments == [1] && [1][1..] == [] && Total([1], t.segments) == 1;
    assert Linked(t, 1);
  }

  /**
   `parts` and `complete_multipart` apart: parts read before second 10 link segment 0 at second
   20, still marked, and an hour later the collector deletes the blob of a linked segment.
   */
  lemma LateCompleteLosesData()
    ensures var completed := CompleteMultipart(ReplacedPart(), "u", K, 1, [0], 20);
            && Sound(ReplacedPart()) && SizesOk(ReplacedPart())
            && completed.Some? && Linked(completed.value, 0)
            && 0 in Orphaned(completed.value, 4000 - LEASE)
            && ForgetSegment(completed.value, 0).None?
  {
    ReplacedPartIsSound();
    var t := ReplacedPart();
    var completed := CompleteMultipart(t, "u", K, 1, [0], 20).value;
    assert completed.links[0] == [0] && InObjects(completed, 0);
    assert completed.segments[0] == t.segments[0];
  }

  /** An upload that takes longer than an hour stored its first segment at the start; since it was listed and deleted. */
  function Overdue(): Sys {
    Take(Take(Take(Sys(EMPTY, 0, {}, {}, {}), Store(BYTE, 0)), List(LEASE + 1)), Erase(0))
  }

  lemma OverdueIs()
    ensures Overdue() == Sys(Tables(map[0 := Stored(BYTE, Some(0))], map[], map[], map[], map[], 0, 1), LEASE + 1, {(0, 0)}, {0}, {0})
  {
    var stored := Take(Sys(EMPTY, 0, {}, {}, {}), Store(BYTE, 0));
    assert stored.t.segments == map[0 := Stored(BYTE, Some(0))] && Orphaned(stored.t, 1) == {0};
    assert stored.holds == {(0, 0)};
  }

  /** A handler that links later than an hour after it stored links a segment whose blob is gone. */
  lemma LateLinkLosesData()
    ensures var late := Take(Overdue(), Link(K, 1, [0], LEASE + 2));
            Linked(late.t, 0) && 0 in late.deleted && !Held(Overdue(), 0, LEASE + 2)
  {
    hide Overdue, Mark, Clear;
    OverdueIs();
    var late := Take(Overdue(), Link(K, 1, [0], LEASE + 2));
    ReplacedLinks(Overdue().t, K, 1, [0], LEASE + 2);
  }
}
