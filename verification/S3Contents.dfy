/** The bytes that lists of segments stand for, in objects and in parts. */
module S3Contents {
  import opened Basics
  import opened Frames
  import opened Segments
  import opened S3Model
  import opened S3Safety

  /** The segments with these ids, in order. */
  function SegmentList(ids: seq<nat>, segments: map<nat, Stored>): seq<Segment> {
    if ids == [] then []
    else (if ids[0] in segments then [segments[ids[0]].segment] else []) + SegmentList(ids[1..], segments)
  }

  /** The bytes of these segments. */
  function ContentOf(ids: seq<nat>, segments: map<nat, Stored>): Bytes {
    Content(SegmentList(ids, segments))
  }

  /** The bytes of the object under this key. */
  function ObjectContent(t: Tables, key: Key): Bytes
    requires key in t.objects
  {
    ContentOf(SegmentsOf(t, t.objects[key].id), t.segments)
  }

  lemma {:induction false} ContentAppend(a: seq<Segment>, b: seq<Segment>)
    ensures Content(a + b) == Content(a) + Content(b)
  {
    if a == [] {
      assert a + b == b;
    } else {
      assert (a + b)[1..] == a[1..] + b;
      ContentAppend(a[1..], b);
    }
  }

  lemma {:induction false} ContentOfAppend(a: seq<nat>, b: seq<nat>, segments: map<nat, Stored>)
    ensures ContentOf(a + b, segments) == ContentOf(a, segments) + ContentOf(b, segments)
  {
    ListAppend(a, b, segments);
    ContentAppend(SegmentList(a, segments), SegmentList(b, segments));
  }

  lemma {:induction false} ListAppend(a: seq<nat>, b: seq<nat>, segments: map<nat, Stored>)
    ensures SegmentList(a + b, segments) == SegmentList(a, segments) + SegmentList(b, segments)
  {
    if a == [] {
      assert a + b == b;
    } else {
      assert (a + b)[1..] == a[1..] + b;
      ListAppend(a[1..], b, segments);
    }
  }

  lemma {:induction false} SameList(ids: seq<nat>, a: map<nat, Stored>, b: map<nat, Stored>)
    requires SameSegments(a, b)
    ensures SegmentList(ids, a) == SegmentList(ids, b)
  {
    if ids != [] { SameList(ids[1..], a, b); }
  }

  // ---- What an object holds -----------------------------------------------------------------------

  /** The new row under a key lists the segments it was given, unchanged but for their marks. */
  lemma PutLists(t: Tables, key: Key, size: nat, ids: seq<nat>, now: int)
    requires Exist(t, ids)
    ensures ReplaceObject(t, key, size, ids, now).Some?
    ensures var u := ReplaceObject(t, key, size, ids, now).value;
            && key in u.objects && u.objects[key].size == size && SegmentsOf(u, u.objects[key].id) == ids
            && SameSegments(t.segments, u.segments)
  {
    hide Linked;
  }

  /** A put object, or a copy, holds the segments' bytes. */
  lemma PutContent(t: Tables, key: Key, size: nat, ids: seq<nat>, now: int)
    requires Exist(t, ids)
    ensures var u := ReplaceObject(t, key, size, ids, now).value;
            key in u.objects && u.objects[key].size == size && ObjectContent(u, key) == ContentOf(ids, t.segments)
  {
    hide ReplaceObject;
    PutLists(t, key, size, ids, now);
    SameList(ids, t.segments, ReplaceObject(t, key, size, ids, now).value.segments);
  }

  /** The body of an upload is what its segments hold together. */
  lemma {:induction false} CutContent(ids: seq<nat>, segments: map<nat, Stored>, bodies: seq<Bytes>)
    requires |ids| == |bodies| && forall i | 0 <= i < |ids| :: ids[i] in segments && segments[ids[i]].segment.body == bodies[i]
    ensures ContentOf(ids, segments) == Flatten(bodies)
  {
    if ids != [] { CutContent(ids[1..], segments, bodies[1..]); }
  }

  // ---- Uploads completed at once --------------------------------------------------------------------

  lemma {:induction false} TotalAppend(a: seq<nat>, b: seq<nat>, segments: map<nat, Stored>)
    ensures Total(a + b, segments) == Total(a, segments) + Total(b, segments)
  {
    if a == [] {
      assert a + b == b;
    } else {
      assert (a + b)[1..] == a[1..] + b;
      TotalAppend(a[1..], b, segments);
    }
  }

  /** The selected parts link what is linked. */
  lemma {:induction false} PartsAreLinked(t: Tables, upload: string, numbers: seq<nat>)
    requires HasParts(t, upload, numbers)
    ensures forall id | id in PartIds(t, upload, numbers) :: Linked(t, id)
  {
    if numbers != [] {
      assert numbers[0] in numbers && forall n | n in numbers[1..] :: n in numbers;
      PartsAreLinked(t, upload, numbers[1..]);
      LinkedPart(t, (upload, numbers[0]));
    }
  }

  /** The parts' sizes add up to that of their segments. */
  lemma {:induction false} PartsAddUp(t: Tables, upload: string, numbers: seq<nat>)
    requires HasParts(t, upload, numbers) && SizesOk(t)
    ensures PartsSize(t, upload, numbers) == Total(PartIds(t, upload, numbers), t.segments)
  {
    if numbers != [] {
      assert numbers[0] in numbers && forall n | n in numbers[1..] :: n in numbers;
      PartsAddUp(t, upload, numbers[1..]);
      TotalAppend(t.parts[(upload, numbers[0])].segments, PartIds(t, upload, numbers[1..]), t.segments);
    }
  }

  /** Parts read in the same step link existing, unmarked segments. */
  lemma SafeParts(t: Tables, upload: string, numbers: seq<nat>)
    requires Sound(t) && HasParts(t, upload, numbers)
    ensures var ids := PartIds(t, upload, numbers);
            Exist(t, ids) && Unmarked(t, ids) && forall id | id in ids :: Linked(t, id)
  {
    PartsAreLinked(t, upload, numbers);
    hide PartIds, PartsSize, Linked;
  }

  /** `parts` and `complete_multipart` with nothing in between. */
  function FinishUpload(t: Tables, upload: string, numbers: seq<nat>, now: int): Option<Tables> {
    if upload !in t.uploads || !HasParts(t, upload, numbers) then None
    else CompleteMultipart(t, upload, t.uploads[upload], PartsSize(t, upload, numbers), PartIds(t, upload, numbers), now)
  }

  /** The contents of the chosen parts, in the order chosen. */
  function PartContents(t: Tables, upload: string, numbers: seq<nat>): seq<Bytes>
    requires HasParts(t, upload, numbers)
  {
    seq(|numbers|, i requires 0 <= i < |numbers| =>
      assert numbers[i] in numbers;
      ContentOf(t.parts[(upload, numbers[i])].segments, t.segments))
  }

  lemma {:induction false} PartsContent(t: Tables, upload: string, numbers: seq<nat>)
    requires HasParts(t, upload, numbers)
    ensures ContentOf(PartIds(t, upload, numbers), t.segments) == Flatten(PartContents(t, upload, numbers))
  {
    if numbers != [] {
      hide ContentOf;
      assert numbers[0] in numbers && forall n | n in numbers[1..] :: n in numbers;
      PartsContent(t, upload, numbers[1..]);
      ContentOfAppend(t.parts[(upload, numbers[0])].segments, PartIds(t, upload, numbers[1..]), t.segments);
      assert PartContents(t, upload, numbers)[1..] == PartContents(t, upload, numbers[1..]);
    } else {
      assert PartIds(t, upload, numbers) == [];
    }
  }

  lemma CompleteLists(t: Tables, upload: string, key: Key, size: nat, ids: seq<nat>, now: int)
    requires Exist(t, ids)
    ensures var u := CompleteMultipart(t, upload, key, size, ids, now).value;
            && key in u.objects && u.objects[key].size == size && SegmentsOf(u, u.objects[key].id) == ids
            && SameSegments(t.segments, u.segments)
  {
    hide Linked;
  }

  /**
   With nothing in between, completing an upload succeeds, leaves a sound catalog with right sizes,
   and the object holds its chosen parts one after the other.
   */
  lemma MultipartRoundTrip(t: Tables, upload: string, numbers: seq<nat>, now: int)
    requires Sound(t) && SizesOk(t) && upload in t.uploads && HasParts(t, upload, numbers)
    ensures FinishUpload(t, upload, numbers, now).Some?
    ensures var u, key := FinishUpload(t, upload, numbers, now).value, t.uploads[upload];
            && Sound(u) && SizesOk(u)
            && key in u.objects && u.objects[key].size == PartsSize(t, upload, numbers)
            && ObjectContent(u, key) == Flatten(PartContents(t, upload, numbers))
  {
    hide CompleteMultipart, SizesOk, Total, Sound, PartIds, PartsSize, PartContents;
    SafeParts(t, upload, numbers);
    var key, size, ids := t.uploads[upload], PartsSize(t, upload, numbers), PartIds(t, upload, numbers);
    CompleteLists(t, upload, key, size, ids, now);
    CompleteExists(t, upload, key, size, ids, now);
    PartsAddUp(t, upload, numbers);
    CompleteKeepsIff(t, upload, key, size, ids, now);
    SameList(ids, t.segments, CompleteMultipart(t, upload, key, size, ids, now).value.segments);
    PartsContent(t, upload, numbers);
  }

  lemma CompleteExists(t: Tables, upload: string, key: Key, size: nat, ids: seq<nat>, now: int)
    ensures CompleteMultipart(t, upload, key, size, ids, now).Some? <==> Exist(t, ids)
  {
  }

  // ---- Segments as uploads leave them ------------------------------------------------------------------

  ghost predicate AllGenuine(segments: map<nat, Stored>, payload: nat)
    requires payload > 0
  {
    forall id | id in segments :: Genuine(segments[id].segment, payload)
  }

  lemma {:induction false} ListOfGenuine(ids: seq<nat>, segments: map<nat, Stored>, payload: nat)
    requires payload > 0 && AllGenuine(segments, payload)
    ensures forall i | 0 <= i < |SegmentList(ids, segments)| :: Genuine(SegmentList(ids, segments)[i], payload)
    ensures |ContentOf(ids, segments)| == Total(ids, segments)
  {
    if ids != [] {
      ListOfGenuine(ids[1..], segments, payload);
      var rest := SegmentList(ids[1..], segments);
      if ids[0] in segments {
        assert ([segments[ids[0]].segment] + rest)[1..] == rest;
      } else {
        assert [] + rest == rest;
      }
    }
  }
}
