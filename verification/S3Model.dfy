/**
 The S3 catalog as tables on values. Segments are shared between objects and parts; one that
 nothing links carries the instant it lost its last link. Each function is one transaction,
 `None` standing for a violated constraint, which rolls it back.
 */
module S3Model {
  import opened Basics
  import opened Segments

  /** Bucket and object key. */
  type Key = (string, string)

  /** Upload and part number. */
  type PartKey = (string, nat)

  datatype Stored = Stored(segment: Segment, orphanedAt: Option<int>)

  datatype ObjectRow = ObjectRow(id: nat, size: nat)

  datatype PartRow = PartRow(size: nat, etag: string, segments: seq<nat>)

  /**
   `links` lists the segments of each object by the object's id. Object and segment ids are
   never reused, so they are drawn from counters.
   */
  datatype Tables = Tables(
    segments: map<nat, Stored>,
    objects: map<Key, ObjectRow>,
    links: map<nat, seq<nat>>,
    uploads: map<string, Key>,
    parts: map<PartKey, PartRow>,
    nextObject: nat,
    nextSegment: nat
  )

  const EMPTY := Tables(map[], map[], map[], map[], map[], 0, 0)

  // ---- Links ---------------------------------------------------------------------------------

  predicate InObjects(t: Tables, id: nat) {
    exists owner | owner in t.links :: id in t.links[owner]
  }

  predicate InParts(t: Tables, id: nat) {
    exists key | key in t.parts :: id in t.parts[key].segments
  }

  predicate Linked(t: Tables, id: nat) {
    InObjects(t, id) || InParts(t, id)
  }

  predicate Exist(t: Tables, ids: seq<nat>) {
    forall id | id in ids :: id in t.segments
  }

  /** `mark_unreferenced`: whatever nothing links is an orphan, from now on if it was none before. */
  function Mark(t: Tables, now: int): Tables {
    t.(segments := map id | id in t.segments ::
         if Linked(t, id) || t.segments[id].orphanedAt.Some? then t.segments[id]
         else t.segments[id].(orphanedAt := Some(now)))
  }

  /** Linking takes a segment off the orphans. */
  function Clear(segments: map<nat, Stored>, ids: seq<nat>): map<nat, Stored> {
    map id | id in segments :: if id in ids then segments[id].(orphanedAt := None) else segments[id]
  }

  // ---- Transactions -----------------------------------------------------------------------------

  function StoreSegment(t: Tables, segment: Segment, now: int): Option<Tables> {
    if segment.frameCount == 0 || segment.size == 0 then None
    else Some(t.(segments := t.segments[t.nextSegment := Stored(segment, Some(now))], nextSegment := t.nextSegment + 1))
  }

  /** An object goes with its links. */
  function DropRow(t: Tables, key: Key): Tables {
    if key in t.objects then t.(objects := t.objects - {key}, links := t.links - {t.objects[key].id}) else t
  }

  /** The old object under this key gives way to a new one. */
  function PutRow(t: Tables, key: Key, size: nat, ids: seq<nat>): Tables {
    AddRow(DropRow(t, key), key, size, ids)
  }

  function AddRow(t: Tables, key: Key, size: nat, ids: seq<nat>): Tables {
    t.(objects := t.objects[key := ObjectRow(t.nextObject, size)],
       links := t.links[t.nextObject := ids],
       nextObject := t.nextObject + 1)
  }

  /** `replace_object`; a copy is the same with the segments of its source. */
  function ReplaceObject(t: Tables, key: Key, size: nat, ids: seq<nat>, now: int): Option<Tables> {
    if !Exist(t, ids) then None
    else Some(Mark(PutRow(t, key, size, ids).(segments := Clear(t.segments, ids)), now))
  }

  function DeleteObject(t: Tables, key: Key, now: int): Tables {
    Mark(DropRow(t, key), now)
  }

  function CreateUpload(t: Tables, upload: string, key: Key): Option<Tables> {
    if upload in t.uploads then None else Some(t.(uploads := t.uploads[upload := key]))
  }

  function ReplacePart(t: Tables, upload: string, number: nat, size: nat, etag: string, ids: seq<nat>, now: int): Option<Tables> {
    if upload !in t.uploads || number < 1 || number > 10000 || size == 0 || !Exist(t, ids) then None
    else
      Some(Mark(t.(parts := t.parts[(upload, number) := PartRow(size, etag, ids)], segments := Clear(t.segments, ids)), now))
  }

  /** An upload goes with its parts and their links. */
  function DropUpload(t: Tables, upload: string): Tables {
    t.(uploads := t.uploads - {upload}, parts := map key | key in t.parts && key.0 != upload :: t.parts[key])
  }

  /** `complete_multipart`: unlike the other links, this one clears no orphan. */
  function CompleteMultipart(t: Tables, upload: string, key: Key, size: nat, ids: seq<nat>, now: int): Option<Tables> {
    if !Exist(t, ids) then None else Some(Mark(DropUpload(PutRow(t, key, size, ids), upload), now))
  }

  function AbortMultipart(t: Tables, upload: string, now: int): Tables {
    Mark(DropUpload(t, upload), now)
  }

  /** What the collector lists. */
  function Orphaned(t: Tables, before: int): set<nat> {
    set id | id in t.segments && t.segments[id].orphanedAt.Some? && t.segments[id].orphanedAt.value < before
  }

  /** A link to the segment would make the deletion fail. */
  function ForgetSegment(t: Tables, id: nat): Option<Tables> {
    if id !in t.segments || t.segments[id].orphanedAt.None? then Some(t)
    else if Linked(t, id) then None
    else Some(t.(segments := t.segments - {id}))
  }

  /** The plaintext size of segments, those that are gone counting nothing. */
  function Total(ids: seq<nat>, segments: map<nat, Stored>): nat {
    if ids == [] then 0
    else (if ids[0] in segments then segments[ids[0]].segment.size else 0) + Total(ids[1..], segments)
  }

  // ---- Multipart selections -------------------------------------------------------------------

  predicate HasParts(t: Tables, upload: string, numbers: seq<nat>) {
    forall n | n in numbers :: (upload, n) in t.parts
  }

  function PartIds(t: Tables, upload: string, numbers: seq<nat>): seq<nat>
    requires HasParts(t, upload, numbers)
  {
    if numbers == [] then [] else t.parts[(upload, numbers[0])].segments + PartIds(t, upload, numbers[1..])
  }

  function PartsSize(t: Tables, upload: string, numbers: seq<nat>): nat
    requires HasParts(t, upload, numbers)
  {
    if numbers == [] then 0 else t.parts[(upload, numbers[0])].size + PartsSize(t, upload, numbers[1..])
  }

  // ---- Reading objects ---------------------------------------------------------------------------

  /** The two queries of `get_object`: the object's row, then the segments of that row's id. */
  function FindObject(t: Tables, key: Key): Option<ObjectRow> {
    if key in t.objects then Some(t.objects[key]) else None
  }

  function SegmentsOf(t: Tables, id: nat): seq<nat> {
    if id in t.links then t.links[id] else []
  }

  /** The second query of `parts`, one for each part. */
  function PartSegments(t: Tables, key: PartKey): seq<nat> {
    if key in t.parts then t.parts[key].segments else []
  }
}
