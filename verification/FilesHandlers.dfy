/**
 The upload handler of the files gateway: reserve, upload, attach, or undo. Alone it leaves no
 trace when it fails; among others it never loses the blob of an attached segment, and what it
 reported as stored stays attached.
 */
module FilesHandlers {
  import opened Basics
  import opened Segments
  import opened FilesModel
  import opened FilesSafety
  import opened FilesAcceptance
  import FilesCatalog

  // ---- One handler by itself -------------------------------------------------------------------

  /** Cancelling undoes reserving. */
  lemma {:induction false} CancelUndoesInsert(rows: seq<Row>, index: nat)
    requires Find(rows, index).None?
    ensures WithoutReservation(Insert(rows, index), index) == rows
  {
    var wanted := (r: Row) => r.index != index || r.segment.Some?;
    if rows == [] || index < rows[0].index {
      assert ([Row(index, None)] + rows)[1..] == rows && [] + rows == rows;
      forall r | r in rows ensures wanted(r) {
        var i :| 0 <= i < |rows| && rows[i] == r;
      }
      KeepAll(rows, wanted);
    } else {
      assert rows[0].index != index;
      CancelUndoesInsert(rows[1..], index);
      assert ([rows[0]] + Insert(rows[1..], index))[1..] == Insert(rows[1..], index);
    }
  }

  /** The same rows for every file, whether or not it has an entry. */
  ghost predicate SameRows(t: Tables, u: Tables) {
    forall file :: RowsOf(t, file) == RowsOf(u, file)
  }

  lemma UndoLeavesNoTrace(t: Tables, file: string, index: nat)
    requires Reserve(t, file, index).error.None?
    ensures var u := Cancel(Reserve(t, file, index).tables, file, index);
            u.files == t.files && u.segments == t.segments && SameRows(t, u)
  {
    CancelUndoesInsert(RowsOf(t, file), index);
    hide Insert, WithoutReservation, Find;
  }

  /** Why an upload failed: its body or the storage backend, or the catalog. */
  datatype Failure = NotUploaded | Refused(error: Error)

  /**
   `upload_segment` without interference; `upload` is what the storage backend made of the body,
   and `deletes` whether it manages to delete a blob again. `kept` tells whether the blob is
   still stored afterwards: a failed deletion is not reported. The upload succeeds exactly if the body
   was stored, the index is free in an open file, the id is new, and the segment has bytes and frames
   and fits the allocation.
   */
  method UploadSegment(catalog: FilesCatalog.Catalog, file: string, index: nat, id: string,
                       upload: Option<Segment>, deletes: bool)
    returns (failure: Option<Failure>, kept: bool)
    modifies catalog
    ensures var t := old(catalog.State());
            failure == if file !in t.files then Some(Refused(NotFound))
                       else if !OpenFile(t, file) then Some(Refused(Completed))
                       else if !FreeIndex(RowsOf(t, file), index) then Some(Refused(IndexExists))
                       else if upload.None? then Some(NotUploaded)
                       else if !Fits(t, file, upload.value.size) then Some(Refused(AllocationExceeded))
                       else if !Insertable(t, id, upload.value) then Some(Refused(Database))
                       else None
    ensures failure.None? ==>
              && kept && upload.Some? && catalog.segments == old(catalog.segments)[id := upload.value]
              && Reserve(old(catalog.State()), file, index).error.None?
              && Reply(catalog.State(), None)
                 == Attach(Reserve(old(catalog.State()), file, index).tables, file, index, id, upload.value)
    ensures failure.Some? ==>
              && catalog.files == old(catalog.files) && catalog.segments == old(catalog.segments)
              && SameRows(old(catalog.State()), catalog.State())
              && (kept <==> upload.Some? && !deletes && Reserve(old(catalog.State()), file, index).error.None?)
  {
    hide SameRows, Cancel, Reserved, Fill, Used, Find, Insert, FreeIndex;
    SameRowsAlways(catalog.State());
    ReservesIff(catalog.State(), file, index);
    var error := catalog.ReserveSegment(file, index);
    if error.Some? { return Some(Refused(error.value)), false; }
    UndoLeavesNoTrace(old(catalog.State()), file, index);
    CancelTwice(catalog.State(), file, index);
    if upload.None? {
      catalog.CancelReservation(file, index);
      return Some(NotUploaded), false;
    }
    UploadAccepted(old(catalog.State()), file, index, id, upload.value);
    error := catalog.AttachSegment(file, index, id, upload.value);
    if error.Some? {
      catalog.CancelReservation(file, index);
      return Some(Refused(error.value)), !deletes;
    }
    return None, true;
  }

  lemma SameRowsAlways(t: Tables)
    ensures SameRows(t, t)
  {
  }

  /** Once cancelled, nothing is left to cancel. */
  lemma CancelTwice(t: Tables, file: string, index: nat)
    ensures Cancel(Cancel(t, file, index), file, index) == Cancel(t, file, index)
  {
    var wanted := (r: Row) => r.index != index || r.segment.Some?;
    KeepMembers(RowsOf(t, file), wanted);
    KeepAll(Keep(RowsOf(t, file), wanted), wanted);
  }

  // ---- Many handlers, step by step ------------------------------------------------------------------

  /** How far the upload of one segment has come. */
  datatype Phase =
    | Uploading(file: string, index: nat)
    | Storing(file: string, index: nat, segment: Segment)
    | Deleting(file: string, index: nat)
    | Cancelling(file: string, index: nat)
    | Succeeded(file: string, index: nat)
    | Failed

  /**
   The catalog, the blobs in remote storage, and the handlers by the id of their segment.
   `owners` is history: who last made a reservation at an index of a file.
   */
  datatype World = World(t: Tables, blobs: set<string>, uploads: map<string, Phase>, owners: map<(string, nat), string>)

  const START := World(EMPTY, {}, map[], map[])

  /** A step of one handler, its disappearance, or a transaction of the other endpoints. */
  datatype Event =
    | Begin(id: string, file: string, index: nat)
    | Uploaded(id: string, segment: Segment)
    | UploadFailed(id: string)
    | TryAttach(id: string)
    | DeleteBlob(id: string, deleted: bool)
    | Undo(id: string)
    | Disconnect(id: string)
    | Other(op: Op)

  /** A restart ends every handler that has not reported. */
  function AfterRestart(uploads: map<string, Phase>): map<string, Phase> {
    map id | id in uploads :: if uploads[id].Succeeded? then uploads[id] else Failed
  }

  function Happen(w: World, payload: nat, event: Event): World {
    match event
    case Begin(id, file, index) =>
      var reply := Reserve(w.t, file, index);
      if id in w.uploads || reply.error.Some? then w
      else
        w.(t := reply.tables, uploads := w.uploads[id := Uploading(file, index)], owners := w.owners[(file, index) := id])
    case Uploaded(id, segment) =>
      if id in w.uploads && w.uploads[id].Uploading? then
        w.(blobs := w.blobs + {id}, uploads := w.uploads[id := Storing(w.uploads[id].file, w.uploads[id].index, segment)])
      else w
    case UploadFailed(id) =>
      if id in w.uploads && w.uploads[id].Uploading? then
        w.(t := Cancel(w.t, w.uploads[id].file, w.uploads[id].index), uploads := w.uploads[id := Failed])
      else w
    case TryAttach(id) =>
      if id in w.uploads && w.uploads[id].Storing? then
        var phase := w.uploads[id];
        var reply := Attach(w.t, phase.file, phase.index, id, phase.segment);
        var next := if reply.error.None? then Succeeded(phase.file, phase.index) else Deleting(phase.file, phase.index);
        w.(t := reply.tables, uploads := w.uploads[id := next])
      else w
    case DeleteBlob(id, deleted) =>
      if id in w.uploads && w.uploads[id].Deleting? then
        w.(blobs := if deleted then w.blobs - {id} else w.blobs,
           uploads := w.uploads[id := Cancelling(w.uploads[id].file, w.uploads[id].index)])
      else w
    case Undo(id) =>
      if id in w.uploads && w.uploads[id].Cancelling? then
        w.(t := Cancel(w.t, w.uploads[id].file, w.uploads[id].index), uploads := w.uploads[id := Failed])
      else w
    case Disconnect(id) =>
      if id in w.uploads && !w.uploads[id].Succeeded? then w.(uploads := w.uploads[id := Failed]) else w
    case Other(op) =>
      if op.AttachAt? || op.ReserveAt? || op.CancelAt? then w
      else w.(t := Apply(w.t, payload, op).tables, uploads := if op.Restart? then AfterRestart(w.uploads) else w.uploads)
  }

  function History(w: World, payload: nat, events: seq<Event>): World {
    if events == [] then w else Happen(History(w, payload, events[..|events| - 1]), payload, events[|events| - 1])
  }

  ghost predicate AttachedAt(t: Tables, file: string, index: nat, id: string) {
    Row(index, Some(id)) in RowsOf(t, file)
  }

  /** Every segment of the catalog has its blob, and a handler that reported it. */
  ghost predicate BlobsKept(w: World) {
    forall id | id in w.t.segments :: id in w.blobs && id in w.uploads && w.uploads[id].Succeeded?
  }

  ghost predicate ReportsHold(w: World) {
    forall id | id in w.uploads && w.uploads[id].Succeeded? ::
      id in w.t.segments && AttachedAt(w.t, w.uploads[id].file, w.uploads[id].index, id)
  }

  ghost predicate StoringHasBlob(w: World) {
    forall id | id in w.uploads && w.uploads[id].Storing? :: id in w.blobs
  }

  ghost predicate WorldInv(w: World, payload: nat) {
    Inv(w.t, payload) && BlobsKept(w) && ReportsHold(w) && StoringHasBlob(w)
  }

  lemma StaysAfterReserve(t: Tables, payload: nat, other: string, at: nat, file: string, index: nat, id: string)
    requires Inv(t, payload) && AttachedAt(t, file, index, id)
    ensures AttachedAt(Reserve(t, other, at).tables, file, index, id)
  {
    RowsOfOk(t, payload, file);
    hide Inv, Insert;
    if Find(RowsOf(t, file), at).None? { InsertKeeps(RowsOf(t, file), at, t.segments); }
  }

  lemma StaysAfterCancel(t: Tables, other: string, at: nat, file: string, index: nat, id: string)
    requires AttachedAt(t, file, index, id)
    ensures AttachedAt(Cancel(t, other, at), file, index, id)
  {
    hide Keep;
    KeepMembers(RowsOf(t, file), (r: Row) => r.index != at || r.segment.Some?);
  }

  lemma StaysAfterAttach(t: Tables, other: string, at: nat, added: string, segment: Segment, file: string, index: nat, id: string)
    requires AttachedAt(t, file, index, id)
    ensures AttachedAt(Attach(t, other, at, added, segment).tables, file, index, id)
  {
    StaysAfterCancel(t, other, at, file, index, id);
    hide Cancel, Used, Reserved, Fill;
    if Reserved(RowsOf(t, file), at) { FillMembers(RowsOf(t, file), at, added, Row(index, Some(id))); }
  }

  lemma StaysAfterPurge(t: Tables, file: string, index: nat, id: string)
    requires AttachedAt(t, file, index, id)
    ensures AttachedAt(Purge(t), file, index, id)
  {
    hide Keep;
    KeepMembers(RowsOf(t, file), (r: Row) => r.segment.Some?);
  }

  lemma FillMembers(rows: seq<Row>, at: nat, id: string, r: Row)
    requires Reserved(rows, at) && r in rows && r.segment.Some?
    ensures r in Fill(rows, at, id)
  {
    var i :| 0 <= i < |rows| && rows[i] == r;
    assert Fill(rows, at, id)[i] == r;
  }

  lemma OtherKeepsRows(t: Tables, payload: nat, op: Op)
    requires op.Create? || op.CompleteAt?
    ensures Apply(t, payload, op).tables.rows == t.rows && Apply(t, payload, op).tables.segments == t.segments
  {
    hide Used, FirstRowError, HasPending;
  }

  /** The catalog's own invariant under a handler's step. */
  lemma HappenKeepsTables(w: World, payload: nat, event: Event)
    requires Inv(w.t, payload)
    ensures Inv(Happen(w, payload, event).t, payload)
  {
    hide Inv, Reserve, Cancel, Attach, Apply;
    match event
    case Begin(id, file, index) => ReserveKeeps(w.t, payload, file, index);
    case TryAttach(id) =>
      if id in w.uploads && w.uploads[id].Storing? {
        AttachKeeps(w.t, payload, w.uploads[id].file, w.uploads[id].index, id, w.uploads[id].segment);
      }
    case Other(op) => FilesSafety.StepKeeps(w.t, payload, op);
    case UploadFailed(id) =>
      if id in w.uploads && w.uploads[id].Uploading? { CancelKeeps(w.t, payload, w.uploads[id].file, w.uploads[id].index); }
    case Undo(id) =>
      if id in w.uploads && w.uploads[id].Cancelling? { CancelKeeps(w.t, payload, w.uploads[id].file, w.uploads[id].index); }
    case _ =>
  }

  /** No step loses an attachment, and only a successful attach adds a segment. */
  lemma HappenKeepsAttached(w: World, payload: nat, event: Event, file: string, index: nat, id: string)
    requires Inv(w.t, payload) && AttachedAt(w.t, file, index, id)
    ensures AttachedAt(Happen(w, payload, event).t, file, index, id)
  {
    hide Inv, AttachedAt, Reserve, Cancel, Attach, Purge, CreateFile, Complete;
    match event
    case Begin(_, other, at) => StaysAfterReserve(w.t, payload, other, at, file, index, id);
    case TryAttach(added) =>
      if added in w.uploads && w.uploads[added].Storing? {
        var phase := w.uploads[added];
        StaysAfterAttach(w.t, phase.file, phase.index, added, phase.segment, file, index, id);
      }
    case Other(op) =>
      if op.Restart? { StaysAfterPurge(w.t, file, index, id); }
      if op.Create? || op.CompleteAt? {
        OtherKeepsRows(w.t, payload, op);
        SameRowsAttached(w.t, Apply(w.t, payload, op).tables, file, index, id);
      }
    case UploadFailed(failed) =>
      if failed in w.uploads && w.uploads[failed].Uploading? {
        StaysAfterCancel(w.t, w.uploads[failed].file, w.uploads[failed].index, file, index, id);
      }
    case Undo(failed) =>
      if failed in w.uploads && w.uploads[failed].Cancelling? {
        StaysAfterCancel(w.t, w.uploads[failed].file, w.uploads[failed].index, file, index, id);
      }
    case _ =>
  }

  lemma SameRowsAttached(t: Tables, u: Tables, file: string, index: nat, id: string)
    requires t.rows == u.rows && AttachedAt(t, file, index, id)
    ensures AttachedAt(u, file, index, id)
  {
  }

  /** Which segments a step leaves in the catalog. */
  lemma HappenSegments(w: World, payload: nat, event: Event)
    ensures var next := Happen(w, payload, event);
            forall id | id in next.t.segments && id !in w.t.segments ::
              && event.TryAttach? && event.id == id && id in w.uploads && w.uploads[id].Storing?
              && id in next.uploads && next.uploads[id].Succeeded?
    ensures w.t.segments.Keys <= Happen(w, payload, event).t.segments.Keys
  {
    hide Used, FirstRowError, HasPending, Insert, Find, Keep, Fill, Reserved;
  }

  lemma AttachAttaches(t: Tables, file: string, index: nat, id: string, segment: Segment)
    requires Attach(t, file, index, id, segment).error.None?
    ensures var u := Attach(t, file, index, id, segment).tables;
            id in u.segments && AttachedAt(u, file, index, id)
  {
    hide Used, Find;
    var rows := RowsOf(t, file);
    assert Fill(rows, index, id)[Find(rows, index).value] == Row(index, Some(id));
  }

  /** This step attaches the handler's segment. */
  ghost predicate AttachesNow(w: World, payload: nat, event: Event, id: string) {
    && event.TryAttach? && event.id == id && id in w.uploads && w.uploads[id].Storing?
    && var phase := w.uploads[id];
       var reply := Attach(w.t, phase.file, phase.index, id, phase.segment);
       var next := Happen(w, payload, event);
       reply.error.None? && next.t == reply.tables && id in next.uploads && next.uploads[id] == Succeeded(phase.file, phase.index)
  }

  /** A report is made when the segment is attached, and never taken back. */
  lemma HappenReports(w: World, payload: nat, event: Event)
    ensures var next := Happen(w, payload, event);
            && (forall id | id in w.uploads && w.uploads[id].Succeeded? ::
                  id in next.uploads && next.uploads[id] == w.uploads[id])
            && (forall id | id in next.uploads && next.uploads[id].Succeeded? ::
                  (id in w.uploads && w.uploads[id] == next.uploads[id]) || AttachesNow(w, payload, event, id))
  {
    hide Reserve, Cancel, Attach, Apply;
  }

  /** Only a handler that failed to attach deletes its blob. */
  lemma HappenBlobs(w: World, payload: nat, event: Event)
    ensures var next := Happen(w, payload, event);
            && (forall id | id in w.blobs && id !in next.blobs :: id in w.uploads && w.uploads[id].Deleting?)
            && (StoringHasBlob(w) ==> StoringHasBlob(next))
  {
    hide Reserve, Cancel, Attach, Apply;
  }

  lemma HappenKeeps(w: World, payload: nat, event: Event)
    requires WorldInv(w, payload)
    ensures WorldInv(Happen(w, payload, event), payload)
  {
    hide Inv, AttachedAt, Happen, Attach;
    HappenKeepsTables(w, payload, event);
    HappenSegments(w, payload, event);
    HappenReports(w, payload, event);
    HappenBlobs(w, payload, event);
    var next := Happen(w, payload, event);
    forall id | id in next.uploads && next.uploads[id].Succeeded?
      ensures id in next.t.segments && AttachedAt(next.t, next.uploads[id].file, next.uploads[id].index, id)
    {
      if id in w.uploads && w.uploads[id] == next.uploads[id] {
        HappenKeepsAttached(w, payload, event, w.uploads[id].file, w.uploads[id].index, id);
      } else {
        var phase := w.uploads[id];
        AttachAttaches(w.t, phase.file, phase.index, id, phase.segment);
      }
    }
  }

  lemma {:induction false} HistoryKeeps(w: World, payload: nat, events: seq<Event>)
    requires WorldInv(w, payload)
    ensures WorldInv(History(w, payload, events), payload)
  {
    hide WorldInv, Happen;
    if events != [] {
      HistoryKeeps(w, payload, events[..|events| - 1]);
      HappenKeeps(History(w, payload, events[..|events| - 1]), payload, events[|events| - 1]);
    }
  }

  /**
   Whatever the handlers, clients and restarts do: every segment in the catalog still has its
   blob, and every upload reported as stored is attached where it was uploaded to, for good.
   */
  lemma UploadsAreDurable(payload: nat, events: seq<Event>, id: string)
    ensures var w := History(START, payload, events);
            && (id in w.t.segments ==> id in w.blobs)
            && (id in w.uploads && w.uploads[id].Succeeded? ==>
                  id in w.t.segments && AttachedAt(w.t, w.uploads[id].file, w.uploads[id].index, id))
  {
    HistoryKeeps(START, payload, events);
    hide History;
  }
}
