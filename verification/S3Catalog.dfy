/** The S3 catalog as an object over its tables, each transaction proved against its function. */
module S3Catalog {
  import opened Basics
  import opened Segments
  import opened S3Model
  import opened S3Safety

  class Catalog {
    var segments: map<nat, Stored>
    var objects: map<Key, ObjectRow>
    var links: map<nat, seq<nat>>
    var uploads: map<string, Key>
    var parts: map<PartKey, PartRow>
    var nextObject: nat
    var nextSegment: nat

    function State(): Tables
      reads this
    {
      Tables(segments, objects, links, uploads, parts, nextObject, nextSegment)
    }

    constructor ()
      ensures State() == EMPTY
    {
      segments, objects, links, uploads, parts := map[], map[], map[], map[], map[];
      nextObject, nextSegment := 0, 0;
    }

    method StoreSegment(segment: Segment, now: int) returns (id: Option<nat>)
      modifies this
      ensures var after := S3Model.StoreSegment(old(State()), segment, now);
              && (id.Some? <==> after.Some?) && State() == (if after.Some? then after.value else old(State()))
              && (id.Some? ==> id.value == old(nextSegment))
    {
      if segment.frameCount == 0 || segment.size == 0 { return None; }
      id := Some(nextSegment);
      segments := segments[nextSegment := Stored(segment, Some(now))];
      nextSegment := nextSegment + 1;
    }

    /** Links each segment in turn, taking it off the orphans; a missing one rolls back. */
    method LinkSegments(ids: seq<nat>) returns (cleared: Option<map<nat, Stored>>)
      ensures cleared == if Exist(State(), ids) then Some(Clear(segments, ids)) else None
    {
      var after := segments;
      for i := 0 to |ids|
        invariant Exist(State(), ids[..i]) && after == Clear(segments, ids[..i])
      {
        assert ids[..i + 1] == ids[..i] + [ids[i]];
        if ids[i] !in segments { return None; }
        after := after[ids[i] := after[ids[i]].(orphanedAt := None)];
      }
      assert ids[..|ids|] == ids;
      return Some(after);
    }

    method MarkUnreferenced(now: int)
      modifies this`segments
      ensures State() == Mark(old(State()), now)
    {
      hide InObjects, InParts;
      var t := State();
      segments := map id | id in segments ::
        if Linked(t, id) || segments[id].orphanedAt.Some? then segments[id] else segments[id].(orphanedAt := Some(now));
    }

    method RemoveObject(key: Key)
      modifies this
      ensures State() == DropRow(old(State()), key)
    {
      if key in objects {
        links := links - {objects[key].id};
        objects := objects - {key};
      }
    }

    method ReplaceObject(key: Key, size: nat, ids: seq<nat>, now: int) returns (ok: bool)
      modifies this
      ensures var after := S3Model.ReplaceObject(old(State()), key, size, ids, now);
              ok == after.Some? && State() == if ok then after.value else old(State())
    {
      hide Linked;
      var cleared := LinkSegments(ids);
      if cleared.None? { return false; }
      RemoveObject(key);
      objects := objects[key := ObjectRow(nextObject, size)];
      links := links[nextObject := ids];
      nextObject := nextObject + 1;
      segments := cleared.value;
      assert State() == PutRow(old(State()), key, size, ids).(segments := Clear(old(segments), ids));
      MarkUnreferenced(now);
      return true;
    }

    /** The two queries of `get_object` with nothing in between. */
    method GetObject(key: Key) returns (r: Option<(ObjectRow, seq<nat>)>)
      ensures r.None? <==> FindObject(State(), key).None?
      ensures r.Some? ==> r.value == (objects[key], SegmentsOf(State(), objects[key].id))
    {
      if key !in objects { return None; }
      return Some((objects[key], SegmentsOf(State(), objects[key].id)));
    }

    method DeleteObject(key: Key, now: int)
      modifies this
      ensures State() == S3Model.DeleteObject(old(State()), key, now)
    {
      hide Linked;
      RemoveObject(key);
      MarkUnreferenced(now);
    }

    method CopyObject(size: nat, ids: seq<nat>, key: Key, now: int) returns (ok: bool)
      modifies this
      ensures var after := S3Model.ReplaceObject(old(State()), key, size, ids, now);
              ok == after.Some? && State() == if ok then after.value else old(State())
    {
      ok := ReplaceObject(key, size, ids, now);
    }

    method CreateMultipart(upload: string, key: Key) returns (ok: bool)
      modifies this
      ensures var after := CreateUpload(old(State()), upload, key);
              ok == after.Some? && State() == if ok then after.value else old(State())
    {
      if upload in uploads { return false; }
      uploads := uploads[upload := key];
      return true;
    }

    method ReplacePart(upload: string, number: nat, size: nat, etag: string, ids: seq<nat>, now: int) returns (ok: bool)
      modifies this
      ensures var after := S3Model.ReplacePart(old(State()), upload, number, size, etag, ids, now);
              ok == after.Some? && State() == if ok then after.value else old(State())
    {
      hide Linked;
      if upload !in uploads || number < 1 || number > 10000 || size == 0 { return false; }
      var cleared := LinkSegments(ids);
      if cleared.None? { return false; }
      parts := parts[(upload, number) := PartRow(size, etag, ids)];
      segments := cleared.value;
      MarkUnreferenced(now);
      return true;
    }

    method RemoveUpload(upload: string)
      modifies this
      ensures State() == DropUpload(old(State()), upload)
    {
      uploads := uploads - {upload};
      parts := map key | key in parts && key.0 != upload :: parts[key];
    }

    method CompleteMultipart(upload: string, key: Key, size: nat, ids: seq<nat>, now: int) returns (ok: bool)
      modifies this
      ensures var after := S3Model.CompleteMultipart(old(State()), upload, key, size, ids, now);
              ok == after.Some? && State() == if ok then after.value else old(State())
    {
      hide Linked;
      for i := 0 to |ids|
        invariant Exist(State(), ids[..i]) && State() == old(State())
      {
        assert ids[..i + 1] == ids[..i] + [ids[i]];
        if ids[i] !in segments { return false; }
      }
      assert ids[..|ids|] == ids;
      RemoveObject(key);
      objects := objects[key := ObjectRow(nextObject, size)];
      links := links[nextObject := ids];
      nextObject := nextObject + 1;
      RemoveUpload(upload);
      MarkUnreferenced(now);
      return true;
    }

    method AbortMultipart(upload: string, now: int)
      modifies this
      ensures State() == S3Model.AbortMultipart(old(State()), upload, now)
    {
      hide Linked;
      RemoveUpload(upload);
      MarkUnreferenced(now);
    }

    method OrphanedSegments(before: int) returns (ids: set<nat>)
      ensures ids == Orphaned(State(), before)
    {
      ids := set id | id in segments && segments[id].orphanedAt.Some? && segments[id].orphanedAt.value < before;
    }

    method ForgetSegment(id: nat) returns (ok: bool)
      modifies this
      ensures var after := S3Model.ForgetSegment(old(State()), id);
              ok == after.Some? && State() == if ok then after.value else old(State())
    {
      if id !in segments || segments[id].orphanedAt.None? { return true; }
      if Linked(State(), id) { return false; }
      segments := segments - {id};
      return true;
    }
  }

  /** The catalog without these segments. */
  ghost function Without(t: Tables, ids: set<nat>): Tables {
    t.(segments := t.segments - ids)
  }

  lemma WithoutNone(t: Tables)
    ensures Without(t, {}) == t
  {
  }

  /**
   `collect_garbage` left to itself: of the segments orphaned for over an hour, exactly those
   whose remote blob could be deleted are gone, and no link is lost.
   */
  method CollectGarbage(catalog: Catalog, now: int, deletable: set<nat>) returns (deleted: nat, ok: bool)
    requires Sound(catalog.State())
    modifies catalog
    ensures ok && Sound(catalog.State())
    ensures var collected := Orphaned(old(catalog.State()), now - 3600) * deletable;
            && deleted == |collected|
            && catalog.State() == Without(old(catalog.State()), collected)
  {
    hide Linked, Sound, Orphaned, S3Model.ForgetSegment, Without;
    assert Without(catalog.State(), {}) == catalog.State() by { WithoutNone(catalog.State()); }
    var orphans := catalog.OrphanedSegments(now - 3600);
    ghost var before, listed := catalog.State(), orphans;
    deleted := 0;
    ghost var done: set<nat> := {};
    while orphans != {}
      invariant orphans <= listed && done == (listed - orphans) * deletable
      invariant Sound(catalog.State()) && catalog.State() == Without(before, done)
      invariant deleted == |done|
      decreases orphans
    {
      var id :| id in orphans;
      OneMore(listed, orphans, deletable, id);
      orphans := orphans - {id};
      if id in deletable {
        ForgetKeeps(catalog.State(), id);
        ForgetsListed(before, done, id, now - 3600);
        var forgotten := catalog.ForgetSegment(id);
        assert forgotten;
        done := done + {id};
        deleted := deleted + 1;
      }
    }
    assert done == listed * deletable;
    return deleted, true;
  }

  lemma OneMore(listed: set<nat>, orphans: set<nat>, deletable: set<nat>, id: nat)
    requires orphans <= listed && id in orphans
    ensures var done := (listed - orphans) * deletable;
            && id !in done
            && (listed - (orphans - {id})) * deletable == if id in deletable then done + {id} else done
  {
  }

  /** In a sound catalog a listed orphan is always forgotten. */
  lemma ForgetsListed(t: Tables, done: set<nat>, id: nat, before: int)
    requires Sound(Without(t, done)) && id in Orphaned(t, before) && id !in done
    ensures S3Model.ForgetSegment(Without(t, done), id) == Some(Without(t, done + {id}))
  {
    hide Linked;
    assert t.segments - done - {id} == t.segments - (done + {id});
  }
}
