/**
 Whose reservation a handler takes away. The catalog does not record who made a reservation, so
 undoing, failing and attaching act on whatever stands at the index; this tells exactly when that
 was made by somebody else.
 */
module FilesOwners {
  import opened Basics
  import opened Frames
  import opened Segments
  import opened FilesModel
  import opened FilesSafety
  import opened FilesAcceptance
  import opened FilesHandlers

  /** A reservation stands at this index. */
  predicate Standing(w: World, file: string, index: nat) {
    Reserved(RowsOf(w.t, file), index)
  }

  /** It was made by this handler. */
  predicate OwnedBy(w: World, file: string, index: nat, id: string) {
    Standing(w, file, index) && (file, index) in w.owners && w.owners[(file, index)] == id
  }

  /** The handler's step uses up a reservation that another handler made. */
  ghost predicate TakesAnothers(w: World, payload: nat, event: Event, file: string, index: nat, id: string) {
    && Standing(w, file, index) && !OwnedBy(w, file, index, id)
    && !Standing(Happen(w, payload, event), file, index)
  }

  /** The storage backend reports only segments with bytes and frames. */
  predicate Storable(event: Event) {
    event.Uploaded? ==> event.segment.size > 0 && event.segment.frameCount > 0
  }

  predicate AllStorable(events: seq<Event>) {
    forall i | 0 <= i < |events| :: Storable(events[i])
  }

  // ---- Which reservations a step makes and takes ------------------------------------------------

  lemma ReserveStands(t: Tables, payload: nat, other: string, at: nat, file: string, index: nat)
    requires Inv(t, payload)
    ensures var reply := Reserve(t, other, at);
            && (Reserved(RowsOf(reply.tables, file), index)
                <==> Reserved(RowsOf(t, file), index) || (reply.error.None? && other == file && at == index))
  {
    hide Inv, Insert, Reserved, Sorted, Find, Used;
    RowsOfOk(t, payload, file);
    ReservedIff(RowsOf(t, file), index);
    if Reserve(t, other, at).error.None? && other == file {
      InsertKeeps(RowsOf(t, file), at, t.segments);
      ReservedIff(Insert(RowsOf(t, file), at), index);
    }
  }

  lemma CancelStands(t: Tables, payload: nat, other: string, at: nat, file: string, index: nat)
    requires Inv(t, payload)
    ensures Reserved(RowsOf(Cancel(t, other, at), file), index)
       <==> Reserved(RowsOf(t, file), index) && !(other == file && at == index)
  {
    RowsOfOk(t, payload, file);
    ReservedIff(RowsOf(t, file), index);
    hide Inv, Keep, Reserved;
    var wanted := (r: Row) => r.index != at || r.segment.Some?;
    KeepMembers(RowsOf(t, file), wanted);
    KeepSorted(RowsOf(t, file), wanted);
    ReservedIff(Keep(RowsOf(t, file), wanted), index);
  }

  lemma PurgeStands(t: Tables, payload: nat, file: string, index: nat)
    requires Inv(t, payload)
    ensures !Reserved(RowsOf(Purge(t), file), index)
  {
    RowsOfOk(t, payload, file);
    hide Inv, Keep, Reserved;
    var wanted := (r: Row) => r.segment.Some?;
    KeepMembers(RowsOf(t, file), wanted);
    KeepSorted(RowsOf(t, file), wanted);
    ReservedIff(Keep(RowsOf(t, file), wanted), index);
    ReservedIff([], index);
  }

  lemma FillStands(rows: seq<Row>, at: nat, id: string, index: nat)
    requires Sorted(rows) && Reserved(rows, at)
    ensures Reserved(Fill(rows, at, id), index) <==> Reserved(rows, index) && index != at
  {
    var filled := Fill(rows, at, id);
    assert Sorted(filled);
    ReservedIff(rows, index);
    ReservedIff(filled, index);
    if Row(index, None) in filled {
      var i :| 0 <= i < |filled| && filled[i] == Row(index, None);
      assert rows[i] == Row(index, None);
    }
    if Row(index, None) in rows && index != at {
      var i :| 0 <= i < |rows| && rows[i] == Row(index, None);
      assert filled[i] == rows[i];
    }
  }

  /** An attach takes the reservation at its index when it succeeds, and when the file is full. */
  predicate UsesUp(error: Option<Error>) {
    error.None? || error.value.AllocationExceeded?
  }

  lemma AttachStands(t: Tables, payload: nat, other: string, at: nat, id: string, segment: Segment, file: string, index: nat)
    requires Inv(t, payload)
    ensures var reply := Attach(t, other, at, id, segment);
            && (Reserved(RowsOf(reply.tables, file), index)
                <==> Reserved(RowsOf(t, file), index) && !(UsesUp(reply.error) && other == file && at == index))
  {
    RowsOfOk(t, payload, file);
    CancelStands(t, payload, other, at, file, index);
    hide Inv, Cancel, Used, Fill, Find;
    if Attach(t, other, at, id, segment).error.None? && other == file {
      FillStands(RowsOf(t, file), at, id, index);
    }
  }

  /** A storable segment of a handler that has not reported fails to attach only for want of its reservation. */
  lemma FailedAttachStandsNowhere(t: Tables, payload: nat, file: string, index: nat, id: string, segment: Segment)
    requires Inv(t, payload) && id !in t.segments && segment.size > 0 && segment.frameCount > 0
    requires Attach(t, file, index, id, segment).error.Some?
    ensures !Reserved(RowsOf(Attach(t, file, index, id, segment).tables, file), index)
  {
    RowsOfOk(t, payload, file);
    AttachStands(t, payload, file, index, id, segment, file, index);
    ReservedIff(RowsOf(t, file), index);
    hide Inv, Cancel, Used, Fill, Reserved, Sorted;
  }

  /** Where a step makes a reservation stand, and where it takes one. */
  predicate Makes(w: World, event: Event, file: string, index: nat) {
    && event.Begin? && event.id !in w.uploads && event.file == file && event.index == index
    && Reserve(w.t, file, index).error.None?
  }

  predicate Takes(w: World, event: Event, file: string, index: nat) {
    match event
    case UploadFailed(id) => id in w.uploads && w.uploads[id] == Uploading(file, index)
    case Undo(id) => id in w.uploads && w.uploads[id] == Cancelling(file, index)
    case TryAttach(id) =>
      && id in w.uploads && w.uploads[id].Storing? && w.uploads[id].file == file && w.uploads[id].index == index
      && UsesUp(Attach(w.t, file, index, id, w.uploads[id].segment).error)
    case Other(op) => op.Restart?
    case _ => false
  }

  lemma StandsAfter(w: World, payload: nat, event: Event, file: string, index: nat)
    requires Inv(w.t, payload)
    ensures Standing(Happen(w, payload, event), file, index)
       <==> (Standing(w, file, index) && !Takes(w, event, file, index)) || Makes(w, event, file, index)
  {
    hide Inv, Reserved, Reserve, Cancel, Attach, Purge, CreateFile, Complete, UsesUp;
    match event {
      case Begin(_, other, at) => ReserveStands(w.t, payload, other, at, file, index);
      case UploadFailed(id) =>
        if id in w.uploads && w.uploads[id].Uploading? {
          CancelStands(w.t, payload, w.uploads[id].file, w.uploads[id].index, file, index);
        }
      case Undo(id) =>
        if id in w.uploads && w.uploads[id].Cancelling? {
          CancelStands(w.t, payload, w.uploads[id].file, w.uploads[id].index, file, index);
        }
      case TryAttach(id) =>
        if id in w.uploads && w.uploads[id].Storing? {
          var phase := w.uploads[id];
          AttachStands(w.t, payload, phase.file, phase.index, id, phase.segment, file, index);
        }
      case Other(op) =>
        if op.Restart? { PurgeStands(w.t, payload, file, index); }
        if op.Create? || op.CompleteAt? { OtherKeepsRows(w.t, payload, op); }
      case _ =>
    }
  }

  // ---- Owners ------------------------------------------------------------------------------------

  /** Every reservation has an owner; a handler that undoes an attach owns none at its index. */
  ghost predicate OwnersOk(w: World) {
    && (forall file, index: nat | Standing(w, file, index) :: (file, index) in w.owners && w.owners[(file, index)] in w.uploads)
    && (forall id | id in w.uploads && w.uploads[id].Storing? ::
          w.uploads[id].segment.size > 0 && w.uploads[id].segment.frameCount > 0)
    && (forall id | id in w.uploads && (w.uploads[id].Deleting? || w.uploads[id].Cancelling?) ::
          !OwnedBy(w, w.uploads[id].file, w.uploads[id].index, id))
  }

  /** Ownership is never regained: a handler reserves only once. */
  lemma NeverRegained(w: World, payload: nat, event: Event, file: string, index: nat, id: string)
    requires Inv(w.t, payload) && id in w.uploads && OwnedBy(Happen(w, payload, event), file, index, id)
    ensures OwnedBy(w, file, index, id) && !Takes(w, event, file, index)
  {
    StandsAfter(w, payload, event, file, index);
    hide Inv, Standing, Takes, Reserve, Cancel, Attach, Apply;
  }

  /** Who is where after a step. */
  lemma HappenPhases(w: World, payload: nat, event: Event, id: string)
    requires id in Happen(w, payload, event).uploads
    ensures var phase := Happen(w, payload, event).uploads[id];
            && (phase.Storing? ==> (event.Uploaded? && event.id == id && phase.segment == event.segment)
                                   || (id in w.uploads && w.uploads[id] == phase))
            && (phase.Deleting? ==>
                  id in w.uploads
                  && (w.uploads[id] == phase
                      || (event == TryAttach(id) && w.uploads[id].Storing?
                          && w.uploads[id].file == phase.file && w.uploads[id].index == phase.index
                          && Attach(w.t, phase.file, phase.index, id, w.uploads[id].segment).error.Some?
                          && Happen(w, payload, event).t == Attach(w.t, phase.file, phase.index, id, w.uploads[id].segment).tables)))
            && (phase.Cancelling? ==>
                  id in w.uploads && (w.uploads[id] == phase || w.uploads[id] == Deleting(phase.file, phase.index)))
  {
    hide Reserve, Cancel, Attach, Apply;
  }

  lemma OwnersGrow(w: World, payload: nat, event: Event)
    ensures w.uploads.Keys <= Happen(w, payload, event).uploads.Keys
    ensures forall file, index: nat ::
              Makes(w, event, file, index) ==>
                (file, index) in Happen(w, payload, event).owners && Happen(w, payload, event).owners[(file, index)] == event.id
                && event.id in Happen(w, payload, event).uploads
    ensures forall file, index: nat ::
              !Makes(w, event, file, index) && (file, index) in w.owners ==>
                (file, index) in Happen(w, payload, event).owners
                && Happen(w, payload, event).owners[(file, index)] == w.owners[(file, index)]
  {
    hide Cancel, Attach, Apply;
  }

  lemma HappenKeepsOwners(w: World, payload: nat, event: Event)
    requires WorldInv(w, payload) && OwnersOk(w) && Storable(event)
    ensures OwnersOk(Happen(w, payload, event))
  {
    var next := Happen(w, payload, event);
    OwnersGrow(w, payload, event);
    forall file, index: nat | Standing(next, file, index)
      ensures (file, index) in next.owners && next.owners[(file, index)] in next.uploads
    {
      StandsAfter(w, payload, event, file, index);
    }
    forall id | id in next.uploads
      ensures next.uploads[id].Storing? ==> next.uploads[id].segment.size > 0 && next.uploads[id].segment.frameCount > 0
      ensures next.uploads[id].Deleting? || next.uploads[id].Cancelling? ==>
                !OwnedBy(next, next.uploads[id].file, next.uploads[id].index, id)
    {
      DeletingOwnsNothing(w, payload, event, id);
    }
    hide Inv, Happen, Standing, Takes, Makes;
  }

  lemma DeletingOwnsNothing(w: World, payload: nat, event: Event, id: string)
    requires WorldInv(w, payload) && OwnersOk(w) && Storable(event) && id in Happen(w, payload, event).uploads
    ensures var next := Happen(w, payload, event);
            && (next.uploads[id].Storing? ==> next.uploads[id].segment.size > 0 && next.uploads[id].segment.frameCount > 0)
            && (next.uploads[id].Deleting? || next.uploads[id].Cancelling? ==>
                  !OwnedBy(next, next.uploads[id].file, next.uploads[id].index, id))
  {
    hide Inv, Happen, Reserved, Attach, Takes;
    HappenPhases(w, payload, event, id);
    var next := Happen(w, payload, event);
    var phase := next.uploads[id];
    if (phase.Deleting? || phase.Cancelling?) && OwnedBy(next, phase.file, phase.index, id) {
      NeverRegained(w, payload, event, phase.file, phase.index, id);
      if w.uploads[id].Storing? {
        FailedAttachStandsNowhere(w.t, payload, phase.file, phase.index, id, w.uploads[id].segment);
      }
    }
  }

  lemma {:induction false} HistoryOwners(payload: nat, events: seq<Event>)
    requires AllStorable(events)
    ensures WorldInv(History(START, payload, events), payload) && OwnersOk(History(START, payload, events))
  {
    hide WorldInv, OwnersOk, Happen, Storable;
    if events == [] {
      NobodyOwns(payload);
    } else {
      var n := |events| - 1;
      HistoryOwners(payload, events[..n]);
      assert Storable(events[n]);
      HappenKeeps(History(START, payload, events[..n]), payload, events[n]);
      HappenKeepsOwners(History(START, payload, events[..n]), payload, events[n]);
    }
  }

  lemma NobodyOwns(payload: nat)
    ensures WorldInv(START, payload) && OwnersOk(START)
  {
  }

  // ---- When a handler takes another's reservation -----------------------------------------------------

  /**
   Undoing a failed attach takes another handler's reservation exactly if any stands at its
   index: its own is gone by then.
   */
  lemma UndoTakesAnothersIff(payload: nat, events: seq<Event>, id: string)
    requires AllStorable(events)
    requires id in History(START, payload, events).uploads && History(START, payload, events).uploads[id].Cancelling?
    ensures var w := History(START, payload, events);
            var file, index := w.uploads[id].file, w.uploads[id].index;
            TakesAnothers(w, payload, Undo(id), file, index, id) <==> Standing(w, file, index)
  {
    hide History, Inv, Happen, Standing;
    HistoryOwners(payload, events);
    var w := History(START, payload, events);
    StandsAfter(w, payload, Undo(id), w.uploads[id].file, w.uploads[id].index);
  }

  /** At step `n` somebody else's step took this handler's own reservation. */
  ghost predicate TakenAt(payload: nat, events: seq<Event>, n: nat, file: string, index: nat, id: string)
    requires n < |events|
  {
    var w := History(START, payload, events[..n]);
    && id in w.uploads && OwnedBy(w, file, index, id)
    && Takes(w, events[n], file, index) && (events[n].Other? || events[n].id != id)
  }

  ghost predicate Taken(payload: nat, events: seq<Event>, file: string, index: nat, id: string) {
    exists n: nat :: n < |events| && TakenAt(payload, events, n, file, index, id)
  }

  /** A handler at work on an index, which may still need its reservation. */
  predicate AtWork(w: World, file: string, index: nat, id: string) {
    && id in w.uploads && (w.uploads[id].Uploading? || w.uploads[id].Storing?)
    && w.uploads[id].file == file && w.uploads[id].index == index
  }

  lemma HappenAtWork(w: World, payload: nat, event: Event, file: string, index: nat, id: string)
    requires AtWork(Happen(w, payload, event), file, index, id)
    ensures AtWork(w, file, index, id) || (event == Begin(id, file, index) && Makes(w, event, file, index))
    ensures AtWork(w, file, index, id) && Takes(w, event, file, index) ==> event.Other? || event.id != id
  {
    hide Cancel, Attach, Apply;
  }

  lemma StillOwned(w: World, payload: nat, event: Event, file: string, index: nat, id: string)
    requires Inv(w.t, payload) && OwnersOk(w)
    ensures Makes(w, event, file, index) && event.id == id ==> OwnedBy(Happen(w, payload, event), file, index, id)
    ensures OwnedBy(w, file, index, id) && !Takes(w, event, file, index) ==> OwnedBy(Happen(w, payload, event), file, index, id)
  {
    StandsAfter(w, payload, event, file, index);
    OwnersGrow(w, payload, event);
    hide Inv, Happen, Takes;
    if Makes(w, event, file, index) { ReserveMakesOnlyFree(w.t, file, index); }
  }

  lemma ReserveMakesOnlyFree(t: Tables, file: string, index: nat)
    requires Reserve(t, file, index).error.None?
    ensures !Reserved(RowsOf(t, file), index)
  {
  }

  /** A handler at work owns the reservation at its index, unless a step of another took it. */
  lemma {:induction false} OwnedUnlessTaken(payload: nat, events: seq<Event>, file: string, index: nat, id: string)
    requires AllStorable(events) && AtWork(History(START, payload, events), file, index, id)
    ensures OwnedBy(History(START, payload, events), file, index, id) <==> !Taken(payload, events, file, index, id)
  {
    hide WorldInv, OwnersOk, Happen, Storable, OwnedBy, Takes, AtWork, Makes;
    if events == [] {
      NobodyWorks(file, index, id);
    } else {
      var n := |events| - 1;
      var before, w := events[..n], History(START, payload, events[..n]);
      HistoryOwners(payload, before);
      WorldTables(w, payload);
      HappenAtWork(w, payload, events[n], file, index, id);
      StillOwned(w, payload, events[n], file, index, id);
      TakenSnoc(payload, events, file, index, id);
      if AtWork(w, file, index, id) {
        OwnedUnlessTaken(payload, before, file, index, id);
        WorksIsKnown(w, file, index, id);
        if OwnedBy(History(START, payload, events), file, index, id) { NeverRegained(w, payload, events[n], file, index, id); }
      } else {
        BeginsOnce(w, events[n], file, index, id);
        NotTakenYet(payload, before, file, index, id);
        BeginTakesNothing(w, events[n], file, index);
      }
    }
  }

  lemma NobodyWorks(file: string, index: nat, id: string)
    ensures !AtWork(START, file, index, id)
  {
  }

  lemma WorldTables(w: World, payload: nat)
    requires WorldInv(w, payload)
    ensures Inv(w.t, payload)
  {
  }

  lemma WorksIsKnown(w: World, file: string, index: nat, id: string)
    requires AtWork(w, file, index, id)
    ensures id in w.uploads
  {
  }

  lemma BeginsOnce(w: World, event: Event, file: string, index: nat, id: string)
    requires event == Begin(id, file, index) && Makes(w, event, file, index)
    ensures id !in w.uploads
  {
  }

  lemma BeginTakesNothing(w: World, event: Event, file: string, index: nat)
    requires event.Begin?
    ensures !Takes(w, event, file, index)
  {
  }

  /** Nothing of a handler is taken before it begins. */
  lemma NotTakenYet(payload: nat, events: seq<Event>, file: string, index: nat, id: string)
    requires id !in History(START, payload, events).uploads
    ensures !Taken(payload, events, file, index, id)
  {
    if n: nat :| n < |events| && TakenAt(payload, events, n, file, index, id) {
      KnownForGood(payload, events, n, id);
    }
  }

  lemma {:induction false} KnownForGood(payload: nat, events: seq<Event>, n: nat, id: string)
    requires n <= |events| && id in History(START, payload, events[..n]).uploads
    ensures id in History(START, payload, events).uploads
  {
    hide Happen;
    if n == |events| {
      assert events[..n] == events;
    } else {
      assert events[..|events| - 1][..n] == events[..n];
      KnownForGood(payload, events[..|events| - 1], n, id);
      OwnersGrow(History(START, payload, events[..|events| - 1]), payload, events[|events| - 1]);
    }
  }

  lemma TakenSnoc(payload: nat, events: seq<Event>, file: string, index: nat, id: string)
    requires events != []
    ensures Taken(payload, events, file, index, id)
       <==> Taken(payload, events[..|events| - 1], file, index, id) || TakenAt(payload, events, |events| - 1, file, index, id)
  {
    var m := |events| - 1;
    hide OwnedBy, Takes, History;
    forall n: nat | n < m
      ensures TakenAt(payload, events, n, file, index, id) <==> TakenAt(payload, events[..m], n, file, index, id)
    {
      assert events[..m][..n] == events[..n] && events[..m][n] == events[n];
    }
  }

  /**
   A failed upload takes another handler's reservation exactly if one stands at its index and
   its own was taken before by a step of another.
   */
  lemma FailureTakesAnothersIff(payload: nat, events: seq<Event>, id: string)
    requires AllStorable(events)
    requires id in History(START, payload, events).uploads && History(START, payload, events).uploads[id].Uploading?
    ensures var w := History(START, payload, events);
            var file, index := w.uploads[id].file, w.uploads[id].index;
            && (TakesAnothers(w, payload, UploadFailed(id), file, index, id)
                <==> Standing(w, file, index) && Taken(payload, events, file, index, id))
  {
    hide History, Inv, Happen, Standing, Taken;
    HistoryOwners(payload, events);
    var w := History(START, payload, events);
    OwnedUnlessTaken(payload, events, w.uploads[id].file, w.uploads[id].index, id);
    StandsAfter(w, payload, UploadFailed(id), w.uploads[id].file, w.uploads[id].index);
  }

  /**
   An attach uses up another handler's reservation exactly if one stands at its index, its own
   was taken before by a step of another, and it either succeeds or exceeds the allocation.
   */
  lemma AttachTakesAnothersIff(payload: nat, events: seq<Event>, id: string)
    requires AllStorable(events)
    requires id in History(START, payload, events).uploads && History(START, payload, events).uploads[id].Storing?
    ensures var w := History(START, payload, events);
            var phase := w.uploads[id];
            && (TakesAnothers(w, payload, TryAttach(id), phase.file, phase.index, id)
                <==> && Standing(w, phase.file, phase.index) && Taken(payload, events, phase.file, phase.index, id)
                     && UsesUp(Attach(w.t, phase.file, phase.index, id, phase.segment).error))
  {
    hide History, Inv, Happen, Standing, Taken, Attach, UsesUp;
    HistoryOwners(payload, events);
    var w := History(START, payload, events);
    OwnedUnlessTaken(payload, events, w.uploads[id].file, w.uploads[id].index, id);
    StandsAfter(w, payload, TryAttach(id), w.uploads[id].file, w.uploads[id].index);
  }

  // ---- When an upload is accepted among others ----------------------------------------------------------

  /** A file on which a reservation stands is there and open. */
  lemma StandsOpen(t: Tables, payload: nat, file: string, index: nat)
    requires Inv(t, payload) && Reserved(RowsOf(t, file), index)
    ensures OpenFile(t, file)
  {
    RowsOfOk(t, payload, file);
    hide Inv;
    assert RowsOf(t, file)[Find(RowsOf(t, file), index).value] in RowsOf(t, file);
  }

  /**
   Among any others: a handler whose body was stored succeeds exactly if a reservation stands at its
   index and the segment fits the allocation. Unless somebody else's step took it, its own stands.
   */
  lemma AcceptedIff(payload: nat, events: seq<Event>, id: string)
    requires AllStorable(events)
    requires id in History(START, payload, events).uploads && History(START, payload, events).uploads[id].Storing?
    ensures var w := History(START, payload, events);
            var phase, next := w.uploads[id], Happen(w, payload, TryAttach(id));
            && (Standing(w, phase.file, phase.index) ==> phase.file in w.t.files)
            && id in next.uploads
            && (next.uploads[id] == Succeeded(phase.file, phase.index)
                <==> Standing(w, phase.file, phase.index) && Fits(w.t, phase.file, phase.segment.size))
            && (!Taken(payload, events, phase.file, phase.index, id) ==> Standing(w, phase.file, phase.index))
  {
    hide History, Inv, Standing, Taken, Attach, Fits;
    HistoryOwners(payload, events);
    var w := History(START, payload, events);
    var phase := w.uploads[id];
    OwnedUnlessTaken(payload, events, phase.file, phase.index, id);
    RowsOfOk(w.t, payload, phase.file);
    AttachesIff(w.t, phase.file, phase.index, id, phase.segment);
    StandingIff(w, payload, phase.file, phase.index);
  }

  lemma StandingIff(w: World, payload: nat, file: string, index: nat)
    requires Inv(w.t, payload)
    ensures Standing(w, file, index) <==> Row(index, None) in RowsOf(w.t, file)
    ensures Standing(w, file, index) ==> OpenFile(w.t, file)
  {
    RowsOfOk(w.t, payload, file);
    ReservedIff(RowsOf(w.t, file), index);
    if Standing(w, file, index) { StandsOpen(w.t, payload, file, index); }
  }

  // ---- Inputs -----------------------------------------------------------------------------------------

  lemma HistorySnoc(w: World, payload: nat, events: seq<Event>, event: Event)
    ensures History(w, payload, events + [event]) == Happen(History(w, payload, events), payload, event)
  {
    assert (events + [event])[..|events|] == events;
  }

  /** More than the file "f" has room for. */
  const LONG := Segment("a", 1, 9, Zeros(9))

  /** An upload that exceeds its file loses its reservation to the attach, and another handler reserves. */
  function Exceeding(): seq<Event> {
    [Other(Create("f", 4)), Begin("a", "f", 0), Uploaded("a", LONG), TryAttach("a"), Begin("b", "f", 0)] + [DeleteBlob("a", true)]
  }

  /** What the tables hold of file "f", and where its handlers are. */
  ghost predicate Looks(w: World, rows: seq<Row>, uploads: map<string, Phase>, owner: string) {
    && w.t.files == map["f" := File(4, None, None)] && w.t.segments == map[]
    && RowsOf(w.t, "f") == rows && w.uploads == uploads
    && ("f", 0) in w.owners && w.owners[("f", 0)] == owner
  }

  lemma NoneLeft()
    ensures WithoutReservation([Row(0, None)], 0) == [] && Used([Row(0, None)], map[]) == 0
    ensures Insert([], 0) == [Row(0, None)] && Reserved([Row(0, None)], 0) && !Reserved([], 0) && Find([], 0).None?
  {
    assert [Row(0, None)][1..] == [];
  }

  lemma ExceedingBegins(payload: nat)
    ensures Looks(History(START, payload, [Other(Create("f", 4)), Begin("a", "f", 0)]),
                  [Row(0, None)], map["a" := Uploading("f", 0)], "a")
  {
    NoneLeft();
    hide Insert, Find, WithoutReservation, Used, Reserved, History;
    var created := Happen(START, payload, Other(Create("f", 4)));
    HistorySnoc(START, payload, [], Other(Create("f", 4)));
    NoEvents(payload);
    assert [] + [Other(Create("f", 4))] == [Other(Create("f", 4))];
    assert created.t.files == map["f" := File(4, None, None)] && RowsOf(created.t, "f") == [];
    HistorySnoc(START, payload, [Other(Create("f", 4))], Begin("a", "f", 0));
    assert [Other(Create("f", 4))] + [Begin("a", "f", 0)] == [Other(Create("f", 4)), Begin("a", "f", 0)];
    var begun := Happen(created, payload, Begin("a", "f", 0));
    assert RowsOf(begun.t, "f") == [Row(0, None)] && begun.uploads == map["a" := Uploading("f", 0)];
  }

  lemma NoEvents(payload: nat)
    ensures History(START, payload, []) == START
  {
  }

  /** The attach fails and takes the reservation; the next handler makes its own. */
  lemma ExceedingGoesOn(w: World, payload: nat)
    requires Looks(w, [Row(0, None)], map["a" := Uploading("f", 0)], "a")
    ensures var stored := Happen(w, payload, Uploaded("a", LONG));
            var failed := Happen(stored, payload, TryAttach("a"));
            var again := Happen(failed, payload, Begin("b", "f", 0));
            Looks(Happen(again, payload, DeleteBlob("a", true)), [Row(0, None)],
                  map["a" := Cancelling("f", 0), "b" := Uploading("f", 0)], "b")
  {
    NoneLeft();
    hide Insert, Find, WithoutReservation, Used, Reserved, Fill;
    var stored := Happen(w, payload, Uploaded("a", LONG));
    assert stored.uploads == map["a" := Storing("f", 0, LONG)];
    var failed := Happen(stored, payload, TryAttach("a"));
    assert RowsOf(failed.t, "f") == [] && failed.uploads == map["a" := Deleting("f", 0)];
    var again := Happen(failed, payload, Begin("b", "f", 0));
    assert RowsOf(again.t, "f") == [Row(0, None)] && again.uploads == map["a" := Deleting("f", 0), "b" := Uploading("f", 0)];
  }

  /** Undoing the failed attach of "a" takes the reservation of "b". */
  lemma UndoTakesAnothers(payload: nat)
    ensures var w := History(START, payload, Exceeding());
            && Looks(w, [Row(0, None)], map["a" := Cancelling("f", 0), "b" := Uploading("f", 0)], "b")
            && TakesAnothers(w, payload, Undo("a"), "f", 0, "a")
  {
    NoneLeft();
    ExceedingBegins(payload);
    hide History, Insert, Find, WithoutReservation, Used, Reserved, Happen;
    var first := [Other(Create("f", 4)), Begin("a", "f", 0)];
    ExceedingGoesOn(History(START, payload, first), payload);
    HistorySnoc(START, payload, first, Uploaded("a", LONG));
    HistorySnoc(START, payload, first + [Uploaded("a", LONG)], TryAttach("a"));
    HistorySnoc(START, payload, first + [Uploaded("a", LONG)] + [TryAttach("a")], Begin("b", "f", 0));
    HistorySnoc(START, payload, first + [Uploaded("a", LONG)] + [TryAttach("a")] + [Begin("b", "f", 0)], DeleteBlob("a", true));
    assert first + [Uploaded("a", LONG)] + [TryAttach("a")] + [Begin("b", "f", 0)] + [DeleteBlob("a", true)] == Exceeding();
    UndoClears(History(START, payload, Exceeding()), payload);
  }

  lemma UndoClears(w: World, payload: nat)
    requires Looks(w, [Row(0, None)], map["a" := Cancelling("f", 0), "b" := Uploading("f", 0)], "b")
    ensures Looks(Happen(w, payload, Undo("a")), [], map["a" := Failed, "b" := Uploading("f", 0)], "b")
  {
    NoneLeft();
    hide WithoutReservation, Reserved;
  }

  /** A third handler reserves what "b" lost; the failing upload of "b" takes the reservation of "c". */
  lemma FailureTakesAnothers(payload: nat)
    ensures var w := History(START, payload, Exceeding() + [Undo("a")] + [Begin("c", "f", 0)]);
            && "b" in w.uploads && w.uploads["b"] == Uploading("f", 0)
            && TakesAnothers(w, payload, UploadFailed("b"), "f", 0, "b")
  {
    NoneLeft();
    UndoTakesAnothers(payload);
    hide History, Insert, Find, WithoutReservation, Used, Reserved, Exceeding;
    var w := History(START, payload, Exceeding());
    HistorySnoc(START, payload, Exceeding(), Undo("a"));
    HistorySnoc(START, payload, Exceeding() + [Undo("a")], Begin("c", "f", 0));
    UndoClears(w, payload);
    var third := Happen(Happen(w, payload, Undo("a")), payload, Begin("c", "f", 0));
    assert Looks(third, [Row(0, None)], map["a" := Failed, "b" := Uploading("f", 0), "c" := Uploading("f", 0)], "c");
  }
}
