/**
 What stays. An object stays, row and links, until its own key is put, copied to, completed or
 deleted, a part until it is uploaded again or its upload ends, and an upload until it ends, whatever
 is done to anything else.
 */
module S3Keeping {
  import opened Basics
  import opened Segments
  import opened S3Model
  import opened S3Safety
  import opened S3Contents
  import opened S3Leases
  import opened S3Reads
  import opened S3Handlers
  import opened S3Runs

  // ---- Objects, one step -------------------------------------------------------------------------

  /** The step puts a new object under this key: a link or completion, whose segments exist. */
  predicate Makes(t: Tables, step: Step, key: Key) {
    (step.Link? || step.Complete?) && step.key == key && Exist(t, step.ids)
  }

  predicate Drops(step: Step, key: Key) {
    step.Delete? && step.key == key
  }

  predicate Overwrites(t: Tables, step: Step, key: Key) {
    Makes(t, step, key) || Drops(step, key)
  }

  /** The row under a key is new, or gone, or what it was. */
  lemma StepRow(s: Sys, step: Step, key: Key)
    ensures var row := FindObject(Take(s, step).t, key);
            && (Makes(s.t, step, key) ==>
                  && row == Some(ObjectRow(s.t.nextObject, step.size))
                  && SegmentsOf(Take(s, step).t, s.t.nextObject) == step.ids)
            && (Drops(step, key) ==> row == None)
            && (!Overwrites(s.t, step, key) ==> row == FindObject(s.t, key))
  {
    hide Linked, Total;
  }

  /** Dropping a row takes its own links alone. */
  lemma DropLinks(t: Tables, dropped: Key, key: Key)
    requires RowsOk(t) && key in t.objects
    ensures var id, u := t.objects[key].id, DropRow(t, dropped);
            && (id in u.links <==> key != dropped)
            && (id in u.links ==> u.links[id] == t.links[id])
  {
  }

  lemma PutLinks(t: Tables, put: Key, size: nat, ids: seq<nat>, key: Key)
    requires RowsOk(t) && key in t.objects
    ensures var id, u := t.objects[key].id, PutRow(t, put, size, ids);
            && (id in u.links <==> key != put)
            && (id in u.links ==> u.links[id] == t.links[id])
  {
    DropLinks(t, put, key);
  }

  /** What a step does to the links, marks and segments aside. */
  lemma LinksAfter(s: Sys, step: Step)
    ensures Take(s, step).t.links
         == if (step.Link? || step.Complete?) && Exist(s.t, step.ids) then PutRow(s.t, step.key, step.size, step.ids).links
            else if step.Delete? then DropRow(s.t, step.key).links
            else s.t.links
  {
    hide Linked, Total;
  }

  /** An object keeps its links, as they are, exactly if the step does not overwrite it. */
  lemma StepLinks(s: Sys, step: Step, key: Key)
    requires RowsOk(s.t) && key in s.t.objects
    ensures var id, u := s.t.objects[key].id, Take(s, step).t;
            && (id in u.links <==> !Overwrites(s.t, step, key))
            && (id in u.links ==> u.links[id] == s.t.links[id])
  {
    LinksAfter(s, step);
    hide Take, PutRow, DropRow;
    if step.Link? || step.Complete? { PutLinks(s.t, step.key, step.size, step.ids, key); }
    if step.Delete? { DropLinks(s.t, step.key, key); }
  }

  // ---- Parts and uploads, one step -----------------------------------------------------------------

  function FindPart(t: Tables, part: PartKey): Option<PartRow> {
    if part in t.parts then Some(t.parts[part]) else None
  }

  function FindKeyOf(t: Tables, upload: string): Option<Key> {
    if upload in t.uploads then Some(t.uploads[upload]) else None
  }

  predicate Stores(t: Tables, step: Step, part: PartKey) {
    step.LinkPart? && (step.upload, step.number) == part && Replaces(t, step)
  }

  /** The upload is completed or aborted. */
  predicate Ends(t: Tables, step: Step, upload: string) {
    (step.Complete? && step.upload == upload && Exist(t, step.ids)) || (step.Abort? && step.upload == upload)
  }

  predicate Begins(t: Tables, step: Step, upload: string) {
    step.Begin? && step.upload == upload && upload !in t.uploads
  }

  /** A part is what was uploaded for it, with the tag it was given, or gone with its upload, or what it was. */
  lemma StepPart(s: Sys, step: Step, part: PartKey)
    ensures var row := FindPart(Take(s, step).t, part);
            && (Stores(s.t, step, part) ==> row == Some(PartRow(step.size, step.etag, step.ids)))
            && (Ends(s.t, step, part.0) ==> row == None)
            && (!Stores(s.t, step, part) && !Ends(s.t, step, part.0) ==> row == FindPart(s.t, part))
  {
    hide Linked, Total;
  }

  /** An upload is for the key it was begun for, until it ends. */
  lemma StepUpload(s: Sys, step: Step, upload: string)
    ensures var key := FindKeyOf(Take(s, step).t, upload);
            && (Begins(s.t, step, upload) ==> key == Some(step.key))
            && (Ends(s.t, step, upload) ==> key == None)
            && (!Begins(s.t, step, upload) && !Ends(s.t, step, upload) ==> key == FindKeyOf(s.t, upload))
  {
    hide Linked, Total;
  }

  // ---- Objects over runs ------------------------------------------------------------------------------

  /** The row an object key has after `n` events. */
  function RowAt(now: int, events: seq<Event>, n: nat, key: Key): Option<ObjectRow>
    requires n <= |events|
  {
    FindObject(At(now, events, n).s.t, key)
  }

  predicate Rewrites(w: World, e: Event, key: Key) {
    Access(w, e).Some? && Overwrites(w.s.t, Access(w, e).value, key)
  }

  /** None of the events from `q` on, before `n`, puts anything under the key or deletes what is there. */
  ghost predicate KeptUntil(now: int, events: seq<Event>, q: nat, n: nat, key: Key)
    requires q <= n <= |events|
  {
    forall j | q <= j < n :: !Rewrites(At(now, events, j), events[j], key)
  }

  /** The object is there with its links, or neither its row nor its links are. */
  ghost predicate There(t: Tables, key: Key, row: ObjectRow, ids: seq<nat>) {
    FindObject(t, key) == Some(row) && row.id in t.links && t.links[row.id] == ids
  }

  ghost predicate Gone(t: Tables, key: Key, row: ObjectRow) {
    row.id !in t.links && forall other | other in t.objects :: t.objects[other].id != row.id
  }

  lemma EventRow(w: World, e: Event, key: Key, row: ObjectRow, ids: seq<nat>)
    requires RowsOk(w.s.t) && RowsOk(Act(w, e).s.t) && There(w.s.t, key, row, ids)
    ensures if Rewrites(w, e, key) then Gone(Act(w, e).s.t, key, row) else There(Act(w, e).s.t, key, row, ids)
  {
    hide Take, Meant, HandlersAfter, StoredPart;
    if Access(w, e).Some? {
      StepRow(w.s, Access(w, e).value, key);
      StepLinks(w.s, Access(w, e).value, key);
    }
  }

  lemma StaysGone(t: Tables, u: Tables, key: Key, row: ObjectRow)
    requires RowsOk(u) && Later(t, u) && row.id < t.nextObject && Gone(t, key, row)
    ensures Gone(u, key, row)
  {
  }

  /** An object that is gone stays so: its id is never used again. */
  lemma GoneForGood(now: int, events: seq<Event>, payload: nat, q: nat, n: nat, key: Key)
    requires payload > 0 && q <= n < |events| && HonestRun(Start(now), events, payload) && RowAt(now, events, q, key).Some?
    requires Gone(At(now, events, n).s.t, key, RowAt(now, events, q, key).value)
    ensures Gone(At(now, events, n + 1).s.t, key, RowAt(now, events, q, key).value)
  {
    hide At, Act, Honest, HonestRun, Later, Gone, RowsOk, HoldsGiven, RowsGiven, PartsHold, AllGenuine, HandlerOk,
         LinksExist;
    ReachesInvariant(now, events, payload, q);
    ReachesInvariant(now, events, payload, n + 1);
    NextEvent(now, events, payload, n);
    HistoryGrows(now, events, payload, q, n);
    IdsGrow(At(now, events, q).s.t, At(now, events, n).s.t, key);
    EventIsLater(At(now, events, n), events[n]);
    StaysGone(At(now, events, n).s.t, At(now, events, n + 1).s.t, key, RowAt(now, events, q, key).value);
  }

  lemma {:induction false} ThereOrGone(now: int, events: seq<Event>, payload: nat, q: nat, n: nat, key: Key)
    requires payload > 0 && q <= n <= |events| && HonestRun(Start(now), events, payload) && RowAt(now, events, q, key).Some?
    ensures var t, u := At(now, events, q).s.t, At(now, events, n).s.t;
            var row := RowAt(now, events, q, key).value;
            if KeptUntil(now, events, q, n, key) then There(u, key, row, SegmentsOf(t, row.id)) else Gone(u, key, row)
    decreases n
  {
    hide At, Act, Honest, HonestRun, Rewrites, There, Gone, RowsOk, HoldsGiven, RowsGiven, PartsHold, AllGenuine,
         HandlerOk, LinksExist;
    ReachesInvariant(now, events, payload, n);
    var t, row := At(now, events, q).s.t, RowAt(now, events, q, key).value;
    if q == n {
      IsThere(t, key);
    } else {
      ThereOrGone(now, events, payload, q, n - 1, key);
      ReachesInvariant(now, events, payload, n - 1);
      NextEvent(now, events, payload, n - 1);
      if KeptUntil(now, events, q, n - 1, key) {
        EventRow(At(now, events, n - 1), events[n - 1], key, row, SegmentsOf(t, row.id));
      } else {
        GoneForGood(now, events, payload, q, n - 1, key);
      }
    }
  }

  lemma IsThere(t: Tables, key: Key)
    requires RowsOk(t) && key in t.objects
    ensures There(t, key, t.objects[key], SegmentsOf(t, t.objects[key].id))
  {
  }

  lemma IdsGrow(t: Tables, u: Tables, key: Key)
    requires RowsOk(t) && Later(t, u) && key in t.objects
    ensures t.objects[key].id < u.nextObject
  {
  }

  /**
   Objects stay. In every run, an object stays under its key exactly until something is put under
   that key, copied there or completed there, or it is deleted; so do its links, which never change.
   */
  lemma ObjectStaysIff(now: int, events: seq<Event>, payload: nat, q: nat, n: nat, key: Key)
    requires payload > 0 && q <= n <= |events| && HonestRun(Start(now), events, payload) && RowAt(now, events, q, key).Some?
    ensures var t, u := At(now, events, q).s.t, At(now, events, n).s.t;
            var row := RowAt(now, events, q, key).value;
            && (RowAt(now, events, n, key) == Some(row) <==> KeptUntil(now, events, q, n, key))
            && (!KeptUntil(now, events, q, n, key) ==> forall other | other in u.objects :: u.objects[other].id != row.id)
            && (row.id in u.links <==> KeptUntil(now, events, q, n, key))
            && (row.id in u.links ==> row.id in t.links && u.links[row.id] == t.links[row.id])
  {
    hide At, HonestRun, KeptUntil, HoldsGiven, RowsGiven, PartsHold, AllGenuine, HandlerOk, LinksExist;
    ReachesInvariant(now, events, payload, q);
    ThereOrGone(now, events, payload, q, n, key);
  }

  // ---- Parts and uploads over runs ---------------------------------------------------------------------

  /** None of the events from `q` on, before `n`, completes or aborts the upload. */
  ghost predicate OpenUntil(now: int, events: seq<Event>, q: nat, n: nat, upload: string)
    requires q <= n <= |events|
  {
    forall j | q <= j < n :: !EndsUpload(At(now, events, j), events[j], upload)
  }

  predicate EndsUpload(w: World, e: Event, upload: string) {
    Access(w, e).Some? && Ends(w.s.t, Access(w, e).value, upload)
  }

  /** None of them stores the part. */
  ghost predicate Untouched(now: int, events: seq<Event>, q: nat, n: nat, part: PartKey)
    requires q <= n <= |events|
  {
    forall j | q <= j < n :: StoredPart(At(now, events, j), events[j]) != Some(part)
  }

  lemma EventPart(w: World, e: Event, part: PartKey)
    requires StoredPart(w, e) != Some(part)
    ensures FindPart(Act(w, e).s.t, part) == if EndsUpload(w, e, part.0) then None else FindPart(w.s.t, part)
  {
    hide Take, Meant, HandlersAfter, Replaces;
    if Access(w, e).Some? { StepPart(w.s, Access(w, e).value, part); }
  }

  /** Parts stay, with their size, tag and segments, exactly until they are uploaded again or their upload ends. */
  lemma {:induction false} PartStaysIff(now: int, events: seq<Event>, q: nat, n: nat, part: PartKey)
    requires q <= n <= |events| && Untouched(now, events, q, n, part)
    ensures FindPart(At(now, events, n).s.t, part)
         == if OpenUntil(now, events, q, n, part.0) then FindPart(At(now, events, q).s.t, part) else None
    decreases n
  {
    hide At, Act, StoredPart, EndsUpload, FindPart;
    if q < n {
      PartStaysIff(now, events, q, n - 1, part);
      StepsOn(now, events, n - 1);
      EventPart(At(now, events, n - 1), events[n - 1], part);
    }
  }

  lemma EventUpload(w: World, e: Event, upload: string)
    requires upload in w.s.t.uploads && !EndsUpload(w, e, upload)
    ensures FindKeyOf(Act(w, e).s.t, upload) == FindKeyOf(w.s.t, upload)
  {
    hide Take, Meant, HandlersAfter, StoredPart;
    if Access(w, e).Some? { StepUpload(w.s, Access(w, e).value, upload); }
  }

  /** An upload that is open stays so, for the key it was begun for, until it is completed or aborted. */
  lemma {:induction false} UploadStays(now: int, events: seq<Event>, q: nat, n: nat, upload: string)
    requires q <= n <= |events| && OpenUntil(now, events, q, n, upload) && upload in At(now, events, q).s.t.uploads
    ensures FindKeyOf(At(now, events, n).s.t, upload) == FindKeyOf(At(now, events, q).s.t, upload)
    decreases n
  {
    hide At, Act, EndsUpload;
    if q < n {
      UploadStays(now, events, q, n - 1, upload);
      StepsOn(now, events, n - 1);
      EventUpload(At(now, events, n - 1), events[n - 1], upload);
    }
  }

  // ---- Orphans -------------------------------------------------------------------------------------------

  /** A put, copy or part upload links the segment again. */
  predicate Revives(t: Tables, step: Step, id: nat) {
    ((step.Link? && Exist(t, step.ids)) || (step.LinkPart? && Replaces(t, step))) && id in step.ids
  }

  /** The transaction ends by marking what nothing links. */
  predicate Marks(t: Tables, step: Step) {
    || ((step.Link? || step.Complete?) && Exist(t, step.ids)) || (step.LinkPart? && Replaces(t, step))
    || step.Delete? || step.Abort?
  }

  predicate Forgets(s: Sys, step: Step, id: nat) {
    && step.Forget? && step.id == id && id in s.deleted
    && id in s.t.segments && s.t.segments[id].orphanedAt.Some? && !Linked(s.t, id)
  }

  /** The instant a segment counts as an orphan from. */
  function OrphanedAt(t: Tables, id: nat): Option<int> {
    if id in t.segments then t.segments[id].orphanedAt else None
  }

  lemma MarkedAfter(t: Tables, now: int, id: nat)
    ensures id in Mark(t, now).segments <==> id in t.segments
    ensures Linked(Mark(t, now), id) <==> Linked(t, id)
    ensures id in t.segments ==>
              OrphanedAt(Mark(t, now), id) == if Linked(t, id) || OrphanedAt(t, id).Some? then OrphanedAt(t, id) else Some(now)
  {
    LinkedNeedsRows(t, Mark(t, now), id);
    hide Linked;
  }

  /** A segment is forgotten or keeps its row. */
  lemma StepSegment(s: Sys, step: Step, id: nat)
    requires id in s.t.segments
    ensures id in Take(s, step).t.segments <==> !Forgets(s, step, id)
  {
    hide Linked, Total;
  }

  /**
   The mark of a segment: linking it again takes it off, otherwise one that is there stays, and a new
   one is set, with the transaction's instant, exactly if the transaction leaves the segment unlinked.
   */
  lemma StepMark(s: Sys, step: Step, id: nat)
    requires id in s.t.segments && id < s.t.nextSegment && !Forgets(s, step, id)
    ensures var u, mark := Take(s, step).t, OrphanedAt(s.t, id);
            OrphanedAt(u, id) == if Revives(s.t, step, id) then None
                                 else if mark.Some? || !Marks(s.t, step) || Linked(u, id) then mark
                                 else Some(step.now)
  {
    hide Linked, Total;
    var t := s.t;
    if step.Link? && Exist(t, step.ids) {
      LinkMarks(t, step.key, step.size, step.ids, step.now, id);
    } else if step.LinkPart? && Replaces(t, step) {
      PartMarks(t, (step.upload, step.number), PartRow(step.size, step.etag, step.ids), step.now, id);
    } else if step.Complete? && Exist(t, step.ids) {
      MarkedAfter(DropUpload(PutRow(t, step.key, step.size, step.ids), step.upload), step.now, id);
    } else if step.Delete? {
      MarkedAfter(DropRow(t, step.key), step.now, id);
    } else if step.Abort? {
      MarkedAfter(DropUpload(t, step.upload), step.now, id);
    }
  }

  lemma LinkMarks(t: Tables, key: Key, size: nat, ids: seq<nat>, now: int, id: nat)
    requires id in t.segments
    ensures var u := Mark(PutRow(t, key, size, ids).(segments := Clear(t.segments, ids)), now);
            OrphanedAt(u, id) == if id in ids then None
                                 else if OrphanedAt(t, id).Some? || Linked(u, id) then OrphanedAt(t, id)
                                 else Some(now)
  {
    hide Linked, DropRow, Mark;
    var x := PutRow(t, key, size, ids).(segments := Clear(t.segments, ids));
    MarkedAfter(x, now, id);
    LinkedOwner(x, DropRow(t, key).nextObject);
  }

  lemma PartMarks(t: Tables, part: PartKey, row: PartRow, now: int, id: nat)
    requires id in t.segments
    ensures var u := Mark(t.(parts := t.parts[part := row], segments := Clear(t.segments, row.segments)), now);
            OrphanedAt(u, id) == if id in row.segments then None
                                 else if OrphanedAt(t, id).Some? || Linked(u, id) then OrphanedAt(t, id)
                                 else Some(now)
  {
    hide Linked, Mark;
    var x := t.(parts := t.parts[part := row], segments := Clear(t.segments, row.segments));
    MarkedAfter(x, now, id);
    LinkedPart(x, part);
  }

  /** None of the events from `q` on, before `n`, links the segment again. */
  ghost predicate UnlinkedUntil(now: int, events: seq<Event>, q: nat, n: nat, id: nat)
    requires q <= n <= |events|
  {
    forall j | q <= j < n :: !Relinks(At(now, events, j), events[j], id)
  }

  predicate Relinks(w: World, e: Event, id: nat) {
    Access(w, e).Some? && Revives(w.s.t, Access(w, e).value, id)
  }

  /** The event makes the collector's transaction forget the segment. */
  predicate Collects(w: World, e: Event, id: nat) {
    Access(w, e).Some? && Forgets(w.s, Access(w, e).value, id)
  }

  lemma EventOrphan(w: World, e: Event, id: nat)
    requires RowsOk(w.s.t) && OrphanedAt(w.s.t, id).Some? && !Relinks(w, e, id)
    ensures id in Act(w, e).s.t.segments <==> !Collects(w, e, id)
    ensures OrphanedAt(Act(w, e).s.t, id) == if Collects(w, e, id) then None else OrphanedAt(w.s.t, id)
  {
    hide Take, Meant, HandlersAfter, StoredPart, Revives, Marks, Linked;
    if Access(w, e).Some? {
      StepSegment(w.s, Access(w, e).value, id);
      if !Forgets(w.s, Access(w, e).value, id) { StepMark(w.s, Access(w, e).value, id); }
    }
  }

  /** An orphan keeps the instant it became one, until it is linked again; it goes only if the collector forgets it. */
  lemma {:induction false} OrphanStays(now: int, events: seq<Event>, payload: nat, q: nat, n: nat, id: nat)
    requires payload > 0 && q <= n <= |events| && HonestRun(Start(now), events, payload)
    requires OrphanedAt(At(now, events, q).s.t, id).Some? && UnlinkedUntil(now, events, q, n, id)
    ensures id in At(now, events, n).s.t.segments ==>
              OrphanedAt(At(now, events, n).s.t, id) == OrphanedAt(At(now, events, q).s.t, id)
    ensures id !in At(now, events, n).s.t.segments ==> exists j | q <= j < n :: Collects(At(now, events, j), events[j], id)
    decreases n
  {
    hide At, Act, Relinks, Collects, HoldsGiven, RowsGiven, PartsHold, AllGenuine, HandlerOk, LinksExist, Honest,
         HonestRun;
    if q < n {
      OrphanStays(now, events, payload, q, n - 1, id);
      ReachesInvariant(now, events, payload, n - 1);
      NextEvent(now, events, payload, n - 1);
      if id in At(now, events, n - 1).s.t.segments {
        EventOrphan(At(now, events, n - 1), events[n - 1], id);
      } else {
        ReachesInvariant(now, events, payload, q);
        SegmentGone(now, events, payload, q, n - 1, n, id);
      }
    }
  }

  /** A segment that is gone does not come back. */
  lemma SegmentGone(now: int, events: seq<Event>, payload: nat, q: nat, m: nat, n: nat, id: nat)
    requires payload > 0 && q <= m <= n <= |events| && HonestRun(Start(now), events, payload)
    requires id in At(now, events, q).s.t.segments && id !in At(now, events, m).s.t.segments
    ensures id !in At(now, events, n).s.t.segments
  {
    hide At, HonestRun, HoldsGiven, RowsGiven, PartsHold, AllGenuine, HandlerOk, LinksExist;
    ReachesInvariant(now, events, payload, q);
    HistoryGrows(now, events, payload, q, m);
    HistoryGrows(now, events, payload, m, n);
  }

  lemma {:induction false} CondemnedStay(now: int, events: seq<Event>, m: nat, n: nat)
    requires m <= n <= |events|
    ensures At(now, events, m).s.condemned <= At(now, events, n).s.condemned
    decreases n
  {
    hide At, Act;
    if m < n {
      CondemnedStay(now, events, m, n - 1);
      StepsOn(now, events, n - 1);
      EventCondemns(At(now, events, n - 1), events[n - 1]);
    }
  }

  lemma EventCondemns(w: World, e: Event)
    ensures w.s.condemned <= Act(w, e).s.condemned
  {
    hide HandlersAfter, Meant, StoredPart, ReplaceObject, ReplacePart, CompleteMultipart, DeleteObject,
         AbortMultipart, ForgetSegment;
  }

  /** What the collector's own three steps do. */
  lemma CollectorSteps(w: World, id: nat, now: int)
    ensures OrphanedAt(w.s.t, id).Some? && OrphanedAt(w.s.t, id).value + LEASE < now ==>
              id in Act(w, Other(List(now))).s.condemned
    ensures id in w.s.condemned ==> id in Act(w, Other(Erase(id))).s.deleted
    ensures id in w.s.t.segments ==> (id in Act(w, Other(Forget(id))).s.t.segments <==> !Forgets(w.s, Forget(id), id))
  {
    if id in w.s.t.segments { StepSegment(w.s, Forget(id), id); }
    hide Linked, ForgetSegment;
  }

  /**
   Garbage is collected. In a punctual run, a segment that became an orphan at `x` and is not linked
   again is gone once the collector has listed it, more than an hour after `x`, deleted its blob and
   forgotten it.
   */
  lemma GarbageIsCollected(now: int, events: seq<Event>, payload: nat, q: nat, l: nat, e: nat, f: nat, id: nat, x: int)
    requires payload > 0 && q <= l < e < f < |events| && HonestRun(Start(now), events, payload) && PunctualRun(now, events, f)
    requires OrphanedAt(At(now, events, q).s.t, id) == Some(x) && UnlinkedUntil(now, events, q, f, id)
    requires events[l].Other? && events[l].step.List? && x + LEASE < events[l].step.now
    requires events[e] == Other(Erase(id)) && events[f] == Other(Forget(id))
    ensures id !in At(now, events, f + 1).s.t.segments
    ensures id in At(now, events, l).s.t.segments ==> id in At(now, events, f + 1).s.deleted
  {
    hide At, Act, HonestRun, PunctualRun, UnlinkedUntil, Forgets;
    if id in At(now, events, l).s.t.segments {
      assert UnlinkedUntil(now, events, q, l, id) by { UnlinkedBefore(now, events, q, l, f, id); }
      OrphanStays(now, events, payload, q, l, id);
      StepsOn(now, events, l);
      CollectorSteps(At(now, events, l), id, events[l].step.now);
      CondemnedStay(now, events, l + 1, e);
      StepsOn(now, events, e);
      CollectorSteps(At(now, events, e), id, 0);
      HistoryGrows(now, events, payload, e + 1, f);
      HistoryGrows(now, events, payload, e + 1, f + 1);
      ForgottenAt(now, events, payload, q, f, id);
    } else {
      SegmentGone(now, events, payload, q, l, f + 1, id);
    }
  }

  lemma UnlinkedBefore(now: int, events: seq<Event>, q: nat, m: nat, n: nat, id: nat)
    requires q <= m <= n <= |events| && UnlinkedUntil(now, events, q, n, id)
    ensures UnlinkedUntil(now, events, q, m, id)
  {
    hide At, Relinks;
  }

  lemma ForgottenAt(now: int, events: seq<Event>, payload: nat, q: nat, f: nat, id: nat)
    requires payload > 0 && q <= f < |events| && HonestRun(Start(now), events, payload) && PunctualRun(now, events, f)
    requires OrphanedAt(At(now, events, q).s.t, id).Some? && UnlinkedUntil(now, events, q, f, id)
    requires events[f] == Other(Forget(id)) && id in At(now, events, f).s.deleted
    ensures id !in At(now, events, f + 1).s.t.segments
  {
    hide At, Act, HonestRun, PunctualRun, UnlinkedUntil, Linked;
    OrphanStays(now, events, payload, q, f, id);
    LeasesInOrder(now, events, payload, f);
    StepsOn(now, events, f);
    if id in At(now, events, f).s.t.segments {
      CollectorSteps(At(now, events, f), id, 0);
    } else {
      SegmentGone(now, events, payload, q, f, f + 1, id);
    }
  }
}
