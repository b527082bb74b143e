/**
 What every transaction of the S3 catalog keeps. A catalog is sound if every link leads to a
 segment and a segment is an orphan exactly when nothing links it; that does not depend on the
 sizes recorded, which are right if they are those of the linked segments.
 */
module S3Safety {
  import opened Basics
  import opened Segments
  import opened S3Model

  ghost predicate LinksExist(t: Tables) {
    forall id: nat | Linked(t, id) :: id in t.segments
  }

  /** No segment counts as an orphan while something links it. */
  ghost predicate LinkedUnmarked(t: Tables) {
    forall id | id in t.segments && Linked(t, id) :: t.segments[id].orphanedAt.None?
  }

  ghost predicate UnlinkedMarked(t: Tables) {
    forall id | id in t.segments && !Linked(t, id) :: t.segments[id].orphanedAt.Some?
  }

  /** Every object has its own id and its links. */
  ghost predicate RowsOk(t: Tables) {
    && (forall key | key in t.objects :: t.objects[key].id in t.links && t.objects[key].id < t.nextObject)
    && (forall key, other | key in t.objects && other in t.objects && key != other ::
          t.objects[key].id != t.objects[other].id)
    && (forall key | key in t.parts :: key.0 in t.uploads && t.parts[key].size > 0)
    && (forall id | id in t.segments :: id < t.nextSegment && t.segments[id].segment.size > 0)
  }

  ghost predicate SizesOk(t: Tables) {
    && (forall key | key in t.objects ::
          t.objects[key].id in t.links && t.objects[key].size == Total(t.links[t.objects[key].id], t.segments))
    && (forall key | key in t.parts :: t.parts[key].size == Total(t.parts[key].segments, t.segments))
  }

  ghost predicate Sound(t: Tables) {
    LinksExist(t) && LinkedUnmarked(t) && UnlinkedMarked(t) && RowsOk(t)
  }

  // ---- Marking ------------------------------------------------------------------------------------

  lemma LinkedNeedsRows(t: Tables, u: Tables, id: nat)
    requires t.links == u.links && t.parts == u.parts
    ensures Linked(t, id) <==> Linked(u, id)
  {
  }

  /** Segments as rows, whatever their orphan marks. */
  ghost predicate SameSegments(a: map<nat, Stored>, b: map<nat, Stored>) {
    a.Keys == b.Keys && forall id | id in a :: a[id].segment == b[id].segment
  }

  lemma {:induction false} SameTotal(ids: seq<nat>, a: map<nat, Stored>, b: map<nat, Stored>)
    requires forall id | id in ids && id in a :: id in b && a[id].segment == b[id].segment
    requires forall id | id in ids && id in b :: id in a
    ensures Total(ids, a) == Total(ids, b)
  {
    if ids != [] {
      assert ids[0] in ids && forall id | id in ids[1..] :: id in ids;
      SameTotal(ids[1..], a, b);
    }
  }

  /** Sizes depend on the segments' rows alone, not on their marks. */
  lemma SameSizes(t: Tables, u: Tables)
    requires t.objects == u.objects && t.links == u.links && t.parts == u.parts && SameSegments(t.segments, u.segments)
    ensures SizesOk(t) <==> SizesOk(u)
  {
    forall key | key in t.objects && t.objects[key].id in t.links
      ensures Total(t.links[t.objects[key].id], t.segments) == Total(t.links[t.objects[key].id], u.segments)
    {
      SameTotal(t.links[t.objects[key].id], t.segments, u.segments);
    }
    forall key | key in t.parts ensures Total(t.parts[key].segments, t.segments) == Total(t.parts[key].segments, u.segments) {
      SameTotal(t.parts[key].segments, t.segments, u.segments);
    }
  }

  /** Marking makes orphans of exactly the unlinked segments. */
  lemma MarkRestores(t: Tables, now: int)
    requires LinksExist(t) && LinkedUnmarked(t) && RowsOk(t)
    ensures Sound(Mark(t, now)) && SameSegments(t.segments, Mark(t, now).segments)
    ensures SizesOk(Mark(t, now)) <==> SizesOk(t)
  {
    var after := Mark(t, now);
    forall id: nat ensures Linked(t, id) <==> Linked(after, id) { LinkedNeedsRows(t, after, id); }
    SameSizes(t, after);
    hide Linked, SizesOk, Total;
  }

  // ---- Each transaction ---------------------------------------------------------------------------------

  /** Links of the later tables are old ones or lead to these segments. */
  ghost predicate LinksWithin(t: Tables, after: Tables, ids: seq<nat>) {
    forall id: nat | Linked(after, id) :: Linked(t, id) || id in ids
  }

  lemma PutRowLinks(t: Tables, key: Key, size: nat, ids: seq<nat>)
    ensures LinksWithin(t, PutRow(t, key, size, ids), ids)
  {
    var after := PutRow(t, key, size, ids);
    forall id: nat | Linked(after, id) ensures Linked(t, id) || id in ids {
      if InObjects(after, id) {
        var owner :| owner in after.links && id in after.links[owner];
        if owner != t.nextObject { assert id in t.links[owner]; }
      } else {
        assert InParts(t, id);
      }
    }
  }

  lemma DropRowLinks(t: Tables, key: Key)
    ensures LinksWithin(t, DropRow(t, key), [])
  {
    var after := DropRow(t, key);
    forall id: nat | Linked(after, id) ensures Linked(t, id) {
      if InObjects(after, id) {
        var owner :| owner in after.links && id in after.links[owner];
        assert id in t.links[owner];
      } else {
        assert InParts(t, id);
      }
    }
  }

  lemma DropUploadLinks(t: Tables, upload: string)
    ensures LinksWithin(t, DropUpload(t, upload), [])
  {
    var after := DropUpload(t, upload);
    forall id: nat | Linked(after, id) ensures Linked(t, id) {
      if InParts(after, id) {
        var key :| key in after.parts && id in after.parts[key].segments;
        assert id in t.parts[key].segments;
      } else {
        assert InObjects(t, id);
      }
    }
  }

  lemma PutPartLinks(t: Tables, key: PartKey, part: PartRow)
    ensures LinksWithin(t, t.(parts := t.parts[key := part]), part.segments)
  {
    var after := t.(parts := t.parts[key := part]);
    forall id: nat | Linked(after, id) ensures Linked(t, id) || id in part.segments {
      if InParts(after, id) {
        var other :| other in after.parts && id in after.parts[other].segments;
        if other != key { assert id in t.parts[other].segments; }
      } else {
        assert InObjects(t, id);
      }
    }
  }

  lemma DropRowKeeps(t: Tables, key: Key)
    requires RowsOk(t)
    ensures RowsOk(DropRow(t, key))
    ensures SizesOk(t) ==> SizesOk(DropRow(t, key))
  {
    hide Total;
  }

  lemma AddRowKeeps(t: Tables, key: Key, size: nat, ids: seq<nat>)
    requires RowsOk(t) && key !in t.objects
    ensures RowsOk(AddRow(t, key, size, ids))
    ensures SizesOk(t) ==> (SizesOk(AddRow(t, key, size, ids)) <==> size == Total(ids, t.segments))
  {
    hide Total;
    var after := AddRow(t, key, size, ids);
    assert after.objects[key].size == size && after.links[after.objects[key].id] == ids;
  }

  lemma PutRowKeeps(t: Tables, key: Key, size: nat, ids: seq<nat>)
    requires RowsOk(t)
    ensures RowsOk(PutRow(t, key, size, ids))
    ensures SizesOk(t) ==> (SizesOk(PutRow(t, key, size, ids)) <==> size == Total(ids, t.segments))
  {
    hide Total, RowsOk, SizesOk;
    DropRowKeeps(t, key);
    AddRowKeeps(DropRow(t, key), key, size, ids);
  }

  lemma DropUploadKeeps(t: Tables, upload: string)
    requires RowsOk(t)
    ensures RowsOk(DropUpload(t, upload))
    ensures SizesOk(t) ==> SizesOk(DropUpload(t, upload))
  {
    hide Total;
  }

  /** The objects' sizes are right, whatever the parts'. */
  lemma DropUploadObjects(t: Tables, upload: string)
    requires SizesOk(DropUpload(t, upload))
    ensures forall key | key in t.objects ::
              t.objects[key].id in t.links && t.objects[key].size == Total(t.links[t.objects[key].id], t.segments)
  {
    hide Total;
  }

  /** Clearing the marks of some segments touches nothing else. */
  lemma ClearKeeps(t: Tables, ids: seq<nat>)
    requires RowsOk(t)
    ensures var after := t.(segments := Clear(t.segments, ids));
            RowsOk(after) && SameSegments(t.segments, after.segments) && (SizesOk(after) <==> SizesOk(t))
  {
    SameSizes(t, t.(segments := Clear(t.segments, ids)));
    hide Total;
  }

  /** Links within the old ones and segments that are cleared of their marks. */
  lemma RelinkedOk(t: Tables, after: Tables, ids: seq<nat>)
    requires LinksExist(t) && LinkedUnmarked(t) && LinksWithin(t, after, ids) && Exist(t, ids)
    requires after.segments == Clear(t.segments, ids)
    ensures LinksExist(after) && LinkedUnmarked(after)
  {
    hide Linked;
  }

  /** Putting or copying keeps a catalog sound; its sizes stay right exactly if the new one is. */
  lemma ReplaceObjectKeeps(t: Tables, key: Key, size: nat, ids: seq<nat>, now: int)
    requires Sound(t) && Exist(t, ids)
    ensures Sound(ReplaceObject(t, key, size, ids, now).value)
    ensures SizesOk(t) ==> (SizesOk(ReplaceObject(t, key, size, ids, now).value) <==> size == Total(ids, t.segments))
  {
    hide Total, Linked, Mark, SizesOk;
    var put := PutRow(t, key, size, ids);
    var cleared := put.(segments := Clear(t.segments, ids));
    PutRowLinks(t, key, size, ids);
    PutRowKeeps(t, key, size, ids);
    ClearKeeps(put, ids);
    SameLinks(t, put, cleared, ids);
    RelinkedOk(t, cleared, ids);
    MarkRestores(cleared, now);
  }

  lemma SameLinks(t: Tables, a: Tables, b: Tables, ids: seq<nat>)
    requires a.links == b.links && a.parts == b.parts && LinksWithin(t, a, ids)
    ensures LinksWithin(t, b, ids)
  {
    forall id: nat ensures Linked(a, id) <==> Linked(b, id) { LinkedNeedsRows(a, b, id); }
  }

  lemma PutPartKeeps(t: Tables, key: PartKey, part: PartRow)
    requires RowsOk(t) && key.0 in t.uploads && part.size > 0
    ensures RowsOk(t.(parts := t.parts[key := part]))
    ensures SizesOk(t) ==> (SizesOk(t.(parts := t.parts[key := part])) <==> part.size == Total(part.segments, t.segments))
  {
    hide Total;
    var after := t.(parts := t.parts[key := part]);
    assert after.parts[key] == part;
  }

  lemma ReplacePartKeeps(t: Tables, upload: string, number: nat, size: nat, etag: string, ids: seq<nat>, now: int)
    requires Sound(t) && ReplacePart(t, upload, number, size, etag, ids, now).Some?
    ensures Sound(ReplacePart(t, upload, number, size, etag, ids, now).value)
    ensures SizesOk(t) ==>
              (SizesOk(ReplacePart(t, upload, number, size, etag, ids, now).value) <==> size == Total(ids, t.segments))
  {
    hide Total, Linked, Mark, SizesOk;
    var put := t.(parts := t.parts[(upload, number) := PartRow(size, etag, ids)]);
    var cleared := put.(segments := Clear(t.segments, ids));
    PutPartKeeps(t, (upload, number), PartRow(size, etag, ids));
    PutPartLinks(t, (upload, number), PartRow(size, etag, ids));
    ClearKeeps(put, ids);
    SameLinks(t, put, cleared, ids);
    RelinkedOk(t, cleared, ids);
    MarkRestores(cleared, now);
  }

  /** Removing links leaves only unmarked links. */
  lemma UnlinkedOk(t: Tables, after: Tables)
    requires LinksExist(t) && LinkedUnmarked(t) && LinksWithin(t, after, []) && after.segments == t.segments
    ensures LinksExist(after) && LinkedUnmarked(after)
  {
    hide Linked;
  }

  /** Linked by something else than the object under this key. */
  ghost predicate LinkedBeyondObject(t: Tables, key: Key, id: nat) {
    || InParts(t, id)
    || exists owner | owner in t.links && !HasRow(t, key, owner) :: id in t.links[owner]
  }

  predicate HasRow(t: Tables, key: Key, id: nat) {
    key in t.objects && t.objects[key].id == id
  }

  ghost predicate LinkedBeyondUpload(t: Tables, upload: string, id: nat) {
    || InObjects(t, id)
    || exists key | key in t.parts && key.0 != upload :: id in t.parts[key].segments
  }

  lemma DropRowUnlinks(t: Tables, key: Key, id: nat)
    ensures Linked(DropRow(t, key), id) <==> LinkedBeyondObject(t, key, id)
  {
    var after := DropRow(t, key);
    if owner :| owner in after.links && id in after.links[owner] { assert id in t.links[owner] && !HasRow(t, key, owner); }
    if owner :| owner in t.links && !HasRow(t, key, owner) && id in t.links[owner] { assert id in after.links[owner]; }
    assert InParts(after, id) <==> InParts(t, id);
  }

  lemma DropUploadUnlinks(t: Tables, upload: string, id: nat)
    ensures Linked(DropUpload(t, upload), id) <==> LinkedBeyondUpload(t, upload, id)
  {
    var after := DropUpload(t, upload);
    if key :| key in after.parts && id in after.parts[key].segments { assert id in t.parts[key].segments; }
    if key :| key in t.parts && key.0 != upload && id in t.parts[key].segments { assert id in after.parts[key].segments; }
    assert InObjects(after, id) <==> InObjects(t, id);
  }

  /** Deleting an object unlinks its segments, except where something else links them. */
  lemma DeleteObjectKeeps(t: Tables, key: Key, now: int)
    requires Sound(t)
    ensures var after := DeleteObject(t, key, now);
            && Sound(after) && (SizesOk(t) ==> SizesOk(after))
            && after.objects == t.objects - {key} && after.parts == t.parts
            && forall id: nat :: Linked(after, id) <==> LinkedBeyondObject(t, key, id)
  {
    hide Total, Linked, Mark, SizesOk, LinkedBeyondObject;
    DropRowLinks(t, key);
    DropRowKeeps(t, key);
    UnlinkedOk(t, DropRow(t, key));
    MarkRestores(DropRow(t, key), now);
    MarkScope(DropRow(t, key), now);
    forall id: nat ensures Linked(DeleteObject(t, key, now), id) <==> LinkedBeyondObject(t, key, id) {
      DropRowUnlinks(t, key, id);
      LinkedNeedsRows(DropRow(t, key), DeleteObject(t, key, now), id);
    }
  }

  /** Aborting an upload removes it with its parts and their links, and no others. */
  lemma AbortKeeps(t: Tables, upload: string, now: int)
    requires Sound(t)
    ensures var after := AbortMultipart(t, upload, now);
            && Sound(after) && (SizesOk(t) ==> SizesOk(after))
            && after.objects == t.objects && upload !in after.uploads && (forall key | key in after.parts :: key.0 != upload)
            && forall id: nat :: Linked(after, id) <==> LinkedBeyondUpload(t, upload, id)
  {
    hide Total, Linked, Mark, SizesOk, LinkedBeyondUpload;
    DropUploadLinks(t, upload);
    DropUploadKeeps(t, upload);
    UnlinkedOk(t, DropUpload(t, upload));
    MarkRestores(DropUpload(t, upload), now);
    MarkScope(DropUpload(t, upload), now);
    forall id: nat ensures Linked(AbortMultipart(t, upload, now), id) <==> LinkedBeyondUpload(t, upload, id) {
      DropUploadUnlinks(t, upload, id);
      LinkedNeedsRows(DropUpload(t, upload), AbortMultipart(t, upload, now), id);
    }
  }

  lemma MarkScope(t: Tables, now: int)
    ensures Mark(t, now) == t.(segments := Mark(t, now).segments)
  {
  }

  predicate Unmarked(t: Tables, ids: seq<nat>) {
    forall id | id in ids && id in t.segments :: t.segments[id].orphanedAt.None?
  }

  lemma CompletedLinks(t: Tables, upload: string, key: Key, size: nat, ids: seq<nat>)
    ensures LinksWithin(t, DropUpload(PutRow(t, key, size, ids), upload), ids)
    ensures forall id | id in ids :: Linked(DropUpload(PutRow(t, key, size, ids), upload), id)
  {
    var put := PutRow(t, key, size, ids);
    PutRowLinks(t, key, size, ids);
    DropUploadLinks(put, upload);
    var after := DropUpload(put, upload);
    forall id | id in ids ensures Linked(after, id) {
      assert t.nextObject in after.links && id in after.links[t.nextObject];
    }
  }

  /** What completing records is right exactly if the size given is that of the segments given. */
  lemma CompletedSizes(t: Tables, upload: string, key: Key, size: nat, ids: seq<nat>)
    requires RowsOk(t) && SizesOk(t)
    ensures var after := DropUpload(PutRow(t, key, size, ids), upload);
            RowsOk(after) && (SizesOk(after) <==> size == Total(ids, t.segments))
  {
    hide Total, RowsOk;
    var put := PutRow(t, key, size, ids);
    PutRowKeeps(t, key, size, ids);
    DropUploadKeeps(put, upload);
    if SizesOk(DropUpload(put, upload)) {
      DropUploadObjects(put, upload);
      assert put.objects[key] == ObjectRow(t.nextObject, size) && put.links[t.nextObject] == ids;
    }
  }

  /**
   Completing a multipart upload does not clear orphan marks. It keeps the catalog sound exactly
   if none of the segments it links is marked when it does.
   */
  lemma CompleteSoundIff(t: Tables, upload: string, key: Key, size: nat, ids: seq<nat>, now: int)
    requires Sound(t) && Exist(t, ids)
    ensures Sound(CompleteMultipart(t, upload, key, size, ids, now).value) <==> Unmarked(t, ids)
  {
    hide Total, Linked;
    var put := PutRow(t, key, size, ids);
    var after := DropUpload(put, upload);
    CompletedLinks(t, upload, key, size, ids);
    PutRowKeeps(t, key, size, ids);
    DropUploadKeeps(put, upload);
    if Unmarked(t, ids) {
      assert LinksExist(after) && LinkedUnmarked(after);
      MarkRestores(after, now);
    } else {
      var id :| id in ids && id in t.segments && t.segments[id].orphanedAt.Some?;
      var marked := Mark(after, now);
      LinkedNeedsRows(after, marked, id);
      assert Linked(marked, id) && marked.segments[id].orphanedAt.Some?;
    }
  }

  /**
   What a completion was given may have been read some time before. It leaves a sound catalog with
   right sizes exactly if none of its segments is marked by now and the size given is theirs.
   */
  lemma CompleteKeepsIff(t: Tables, upload: string, key: Key, size: nat, ids: seq<nat>, now: int)
    requires Sound(t) && SizesOk(t) && Exist(t, ids)
    ensures var after := CompleteMultipart(t, upload, key, size, ids, now).value;
            Sound(after) && SizesOk(after) <==> Unmarked(t, ids) && size == Total(ids, t.segments)
  {
    CompleteSoundIff(t, upload, key, size, ids, now);
    CompletedSizes(t, upload, key, size, ids);
    var after := DropUpload(PutRow(t, key, size, ids), upload);
    SameMarked(after, now);
    hide Sound, SizesOk, Unmarked, Total;
  }

  lemma SameMarked(t: Tables, now: int)
    ensures SizesOk(Mark(t, now)) <==> SizesOk(t)
  {
    SameSizes(t, Mark(t, now));
  }

  lemma StoreKeeps(t: Tables, segment: Segment, now: int)
    requires Sound(t) && StoreSegment(t, segment, now).Some?
    ensures Sound(StoreSegment(t, segment, now).value)
    ensures SizesOk(t) ==> SizesOk(StoreSegment(t, segment, now).value)
  {
    var after := StoreSegment(t, segment, now).value;
    forall id: nat ensures Linked(t, id) <==> Linked(after, id) { LinkedNeedsRows(t, after, id); }
    assert !Linked(t, t.nextSegment);
    if SizesOk(t) { KeepsLinkedSizes(t, after); }
    hide Linked, Total, SizesOk;
  }

  lemma LinkedObject(t: Tables, key: Key)
    requires RowsOk(t) && key in t.objects
    ensures forall id | id in t.links[t.objects[key].id] :: Linked(t, id)
  {
  }

  lemma LinkedOwner(t: Tables, owner: nat)
    ensures forall id | id in SegmentsOf(t, owner) :: Linked(t, id)
  {
  }

  lemma LinkedPart(t: Tables, key: PartKey)
    requires key in t.parts
    ensures forall id | id in t.parts[key].segments :: Linked(t, id)
  {
  }

  /** Whatever happens to segments nothing links, the sizes stay right. */
  lemma KeepsLinkedSizes(t: Tables, u: Tables)
    requires RowsOk(t) && SizesOk(t) && t.objects == u.objects && t.links == u.links && t.parts == u.parts
    requires forall id: nat | Linked(t, id) ::
               id in t.segments && id in u.segments && t.segments[id].segment == u.segments[id].segment
    ensures SizesOk(u)
  {
    hide Linked;
    forall key | key in t.objects ensures t.objects[key].size == Total(t.links[t.objects[key].id], u.segments) {
      LinkedObject(t, key);
      SameTotal(t.links[t.objects[key].id], t.segments, u.segments);
    }
    forall key | key in t.parts ensures t.parts[key].size == Total(t.parts[key].segments, u.segments) {
      LinkedPart(t, key);
      SameTotal(t.parts[key].segments, t.segments, u.segments);
    }
  }

  lemma ForgetKeeps(t: Tables, id: nat)
    requires Sound(t)
    ensures ForgetSegment(t, id).Some?
    ensures Sound(ForgetSegment(t, id).value)
    ensures SizesOk(t) ==> SizesOk(ForgetSegment(t, id).value)
  {
    var after := ForgetSegment(t, id).value;
    forall other: nat ensures Linked(t, other) <==> Linked(after, other) { LinkedNeedsRows(t, after, other); }
    if after != t && SizesOk(t) {
      assert !Linked(t, id);
      KeepsLinkedSizes(t, after);
    }
    hide Linked, Total, SizesOk;
  }

  lemma CreateUploadKeeps(t: Tables, upload: string, key: Key)
    requires Sound(t) && CreateUpload(t, upload, key).Some?
    ensures Sound(CreateUpload(t, upload, key).value)
    ensures SizesOk(t) ==> SizesOk(CreateUpload(t, upload, key).value)
  {
    hide Total;
    var created := CreateUpload(t, upload, key);
    forall id: nat ensures Linked(t, id) <==> Linked(created.value, id) { LinkedNeedsRows(t, created.value, id); }
  }
}
