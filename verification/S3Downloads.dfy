/**
 End to end for S3. Whatever handlers and collectors do in between, late links and torn reads of
 others included, an object stands for the bytes it was given for as long as it exists, and
 streaming any range of it yields exactly that range.
 */
module S3Downloads {
  import opened Basics
  import opened Frames
  import opened ByteStreams
  import opened Segments
  import opened S3Model
  import opened S3Safety
  import opened S3Leases
  import opened S3Contents
  import opened S3Reads
  import opened S3Service
  import opened S3Handlers
  import opened S3Runs
  import opened S3Keeping
  import Model = SessionModel
  import Runs = SessionRuns

  // ---- What a download yields -----------------------------------------------------------------------

  /** These bytes came out of a session over one segment, run to its close. */
  ghost predicate Streams(segment: Segment, payload: nat, r: ByteRequest, bytes: Bytes)
    requires payload > 0 && r.start < r.end
  {
    exists s: Model.Session, events: seq<Runs.Event> ::
      var d := Runs.Drive(s, events);
      && Runs.Fresh(s) && s.first == FirstFrame(r, payload) && s.last == LastFrame(r, payload)
      && Runs.HonestRun(ServeFrom([segment], payload), events) && Supplies([segment], d.session)
      && d.phase.Closing? && bytes == Window(Flatten(d.session.sent), r.start % payload, r.end - r.start)
  }

  lemma StreamsExactly(segment: Segment, payload: nat, r: ByteRequest, bytes: Bytes)
    requires payload > 0 && r.start < r.end <= |segment.body| && Genuine(segment, payload) && Streams(segment, payload, r, bytes)
    ensures bytes == segment.body[r.start..r.end]
  {
    hide Runs.Drive, Runs.Fresh, Runs.HonestRun, Window, FirstFrame, LastFrame, Supplies;
    var s, events :| && Runs.Fresh(s) && s.first == FirstFrame(r, payload) && s.last == LastFrame(r, payload)
      && Runs.HonestRun(ServeFrom([segment], payload), events) && Supplies([segment], Runs.Drive(s, events).session)
      && Runs.Drive(s, events).phase.Closing?
      && bytes == Window(Flatten(Runs.Drive(s, events).session.sent), r.start % payload, r.end - r.start);
    assert Content([segment]) == segment.body by { assert [segment][1..] == []; }
    SessionYieldsRange([segment], payload, r, s, events);
  }

  /** One stream's bytes for each piece. */
  ghost predicate AllStream(segments: seq<Segment>, payload: nat, pieces: seq<Piece>, outputs: seq<Bytes>)
    requires payload > 0
  {
    && |outputs| == |pieces|
    && forall i | 0 <= i < |pieces| ::
         PieceOk(segments, pieces[i]) && Streams(segments[pieces[i].index], payload, pieces[i].range, outputs[i])
  }

  lemma {:induction false} PiecesStream(segments: seq<Segment>, payload: nat, pieces: seq<Piece>, outputs: seq<Bytes>)
    requires payload > 0 && AllStream(segments, payload, pieces, outputs)
    requires (forall i | 0 <= i < |segments| :: Genuine(segments[i], payload)) && forall p | p in pieces :: PieceOk(segments, p)
    ensures Flatten(outputs) == Output(segments, pieces)
  {
    hide Streams, Genuine;
    if pieces != [] {
      assert pieces[0] in pieces && PieceOk(segments, pieces[0]) && forall p | p in pieces[1..] :: p in pieces;
      StreamsExactly(segments[pieces[0].index], payload, pieces[0].range, outputs[0]);
      assert forall i | 0 <= i < |pieces[1..]| :: pieces[1..][i] == pieces[i + 1] && outputs[1..][i] == outputs[i + 1];
      PiecesStream(segments, payload, pieces[1..], outputs[1..]);
    }
  }

  /** Streaming a range of a list of segments yields that range of their bytes, aligned or not. */
  lemma RangeStreams(ids: seq<nat>, segments: map<nat, Stored>, payload: nat, from: nat, to: nat, outputs: seq<Bytes>)
    requires payload > 0 && AllGenuine(segments, payload) && from < to
    requires var list := SegmentList(ids, segments); AllStream(list, payload, Pieces(list, from, to, 0, 0), outputs)
    ensures Flatten(outputs) == Between(ContentOf(ids, segments), from, to)
  {
    hide AllStream, AllGenuine, Pieces, Genuine, Streams, Between;
    var list := SegmentList(ids, segments);
    ListOfGenuine(ids, segments, payload);
    forall i | 0 <= i < |list| ensures list[i].size == |list[i].body| { GenuineBody(list[i], payload); }
    PiecesAreRange(list, from, to, 0, 0);
    PiecesStream(list, payload, Pieces(list, from, to, 0, 0), outputs);
    assert list[0..] == list;
  }

  // ---- Every object ---------------------------------------------------------------------------------------------

  /**
   Safety of the whole gateway. In every punctual run, torn reads included: a segment is marked
   exactly while nothing links it, every link leads to a segment, and none whose blob was ever
   deleted is linked then or later.
   */
  lemma GatewaySafety(now: int, events: seq<Event>, payload: nat, m: nat, n: nat)
    requires payload > 0 && m <= n <= |events| && HonestRun(Start(now), events, payload) && PunctualRun(now, events, n)
    ensures var s, earlier := At(now, events, n).s, At(now, events, m).s;
            && (forall id | id in s.t.segments :: s.t.segments[id].orphanedAt.None? <==> Linked(s.t, id))
            && (forall id: nat | Linked(s.t, id) :: id in s.t.segments && id !in earlier.deleted)
  {
    LeasesInOrder(now, events, payload, n);
    HistoryGrows(now, events, payload, m, n);
    var s := At(now, events, n).s;
    hide At, Linked, Later;
    assert forall id | id in s.deleted :: CondemnedOk(s, id);
  }

  /** Without torn reads every size on record is that of the segments linked, however late handlers are. */
  lemma SizesAddUp(now: int, events: seq<Event>, payload: nat, n: nat)
    requires payload > 0 && n <= |events| && HonestRun(Start(now), events, payload) && UntornRun(now, events, n)
    ensures SizesOk(At(now, events, n).s.t)
  {
    hide At, WorldInv, Fits, SizesOk;
    ReachesInvariant(now, events, payload, n);
    AllFits(now, events, payload, n);
    FitsMeansSizes(At(now, events, n), payload);
  }

  /** In every run every object holds the bytes its id was given, and its row says the size given. */
  lemma ObjectsAreGiven(now: int, events: seq<Event>, payload: nat, n: nat, key: Key)
    requires payload > 0 && n <= |events| && HonestRun(Start(now), events, payload) && RowAt(now, events, n, key).Some?
    ensures var w, row := At(now, events, n), RowAt(now, events, n, key).value;
            && row.id in w.given && row.size == w.given[row.id].size && ObjectContent(w.s.t, key) == w.given[row.id].bytes
  {
    ReachesInvariant(now, events, payload, n);
    hide At, Linked, ContentOf, PartsHold, HandlerOk, AllGenuine;
  }

  /**
   `get_object`, whose two queries may lie any number of events apart. If the segments of the row
   found are still there, streaming any non-empty range yields that range of the bytes the object
   was given, as far as it has them.
   */
  lemma S3RoundTrip(now: int, events: seq<Event>, payload: nat, m: nat, n: nat, key: Key, from: nat, to: nat, outputs: seq<Bytes>)
    requires payload > 0 && m <= n <= |events| && from < to && HonestRun(Start(now), events, payload)
    requires RowAt(now, events, m, key).Some?
    requires Yields(now, events, payload, n, RowAt(now, events, m, key).value.id, from, to, outputs)
    ensures var w, row := At(now, events, m), RowAt(now, events, m, key).value;
            row.id in w.given && row.size == w.given[row.id].size && Flatten(outputs) == Between(w.given[row.id].bytes, from, to)
  {
    ObjectsAreGiven(now, events, payload, m, key);
    HistoryGrows(now, events, payload, m, n);
    ReachesInvariant(now, events, payload, n);
    hide Run, ContentOf, WellLinked, PartsHold, HandlerOk, AllGenuine, AllStream, Pieces, SegmentList,
         ObjectContent, Later, Between;
    var u, row := At(now, events, n), RowAt(now, events, m, key).value;
    RangeStreams(u.s.t.links[row.id], u.s.t.segments, payload, from, to, outputs);
  }

  // ---- What objects are given --------------------------------------------------------------------------------------

  /** An object with this id was put under the key by event `n`. */
  predicate PutsAt(now: int, events: seq<Event>, n: nat, key: Key)
    requires n < |events|
  {
    var id := At(now, events, n).s.t.nextObject;
    RowAt(now, events, n + 1, key).Some? && RowAt(now, events, n + 1, key).value.id == id
  }

  lemma NewRow(w: World, e: Event)
    requires Access(w, e).Some? && (Access(w, e).value.Link? || Access(w, e).value.Complete?)
    requires Exist(w.s.t, Access(w, e).value.ids)
    ensures var t, key := Act(w, e).s.t, Access(w, e).value.key;
            && FindObject(t, key).Some? && FindObject(t, key).value.id == w.s.t.nextObject
            && Act(w, e).given == w.given[w.s.t.nextObject := Meant(w, e)]
  {
    hide Linked, Meant, HandlersAfter, StoredPart;
    var step := Access(w, e).value;
    if step.Link? {
      LinkedRow(w.s, step.key, step.size, step.ids, step.now);
    } else {
      CompletedRow(w.s, step.upload, step.key, step.size, step.ids, step.now);
    }
  }

  lemma LinkedRow(s: Sys, key: Key, size: nat, ids: seq<nat>, now: int)
    requires Exist(s.t, ids)
    ensures var t := Take(s, Link(key, size, ids, now)).t;
            t.nextObject == s.t.nextObject + 1 && key in t.objects && t.objects[key].id == s.t.nextObject
  {
    hide Linked;
  }

  lemma CompletedRow(s: Sys, upload: string, key: Key, size: nat, ids: seq<nat>, now: int)
    requires Exist(s.t, ids)
    ensures var t := Take(s, Complete(upload, key, size, ids, now)).t;
            t.nextObject == s.t.nextObject + 1 && key in t.objects && t.objects[key].id == s.t.nextObject
  {
    hide Linked;
  }

  /** Without its segments a link or completion fails and makes no row. */
  lemma NoNewRow(w: World, e: Event, payload: nat)
    requires payload > 0 && WorldInv(w, payload)
    requires Access(w, e).Some? && (Access(w, e).value.Link? || Access(w, e).value.Complete?)
    requires !Exist(w.s.t, Access(w, e).value.ids)
    ensures var row := FindObject(Act(w, e).s.t, Access(w, e).value.key);
            row.Some? ==> row.value.id != w.s.t.nextObject
  {
    hide HoldsGiven, RowsGiven, PartsHold, AllGenuine, HandlerOk, HandlersAfter, Meant, StoredPart, Linked,
         PutRow, Mark;
  }

  /** After `n` events the object's segments are there, and one session each streams the range. */
  ghost predicate Yields(now: int, events: seq<Event>, payload: nat, n: nat, id: nat, from: nat, to: nat, outputs: seq<Bytes>)
    requires payload > 0 && n <= |events| && from < to
  {
    var t := At(now, events, n).s.t;
    var list := SegmentList(SegmentsOf(t, id), t.segments);
    id in t.links && AllStream(list, payload, Pieces(list, from, to, 0, 0), outputs)
  }

  /**
   A get whose first query comes after `m` events and the second after `n`. It finds the row that
   event `p` made exactly if nothing was put, copied, completed or deleted under its key in between,
   and the segments exactly if that is still so; its size is as meant, and streaming a range yields
   that range of the bytes meant.
   */
  ghost predicate Serves(now: int, events: seq<Event>, payload: nat, p: nat, m: nat, n: nat, key: Key, meant: Meaning,
                         from: nat, to: nat, outputs: seq<Bytes>)
    requires payload > 0 && p < m <= n <= |events|
  {
    var found, id := RowAt(now, events, m, key), At(now, events, p).s.t.nextObject;
    && (KeptUntil(now, events, p + 1, m, key) <==> found.Some? && found.value.id == id)
    && (KeptUntil(now, events, p + 1, m, key) ==>
          && found == Some(ObjectRow(id, meant.size))
          && (KeptUntil(now, events, p + 1, n, key) <==> id in At(now, events, n).s.t.links)
          && (from < to && Yields(now, events, payload, n, id, from, to, outputs) ==>
                Flatten(outputs) == Between(meant.bytes, from, to)))
  }

  /**
   An object is made exactly if the segments to link exist, and whatever event makes one, later gets
   serve what it meant.
   */
  lemma MeantIsServed(now: int, events: seq<Event>, payload: nat, p: nat, m: nat, n: nat, from: nat, to: nat, outputs: seq<Bytes>)
    requires payload > 0 && p < m <= n <= |events| && HonestRun(Start(now), events, payload)
    requires var access := Access(At(now, events, p), events[p]); access.Some? && (access.value.Link? || access.value.Complete?)
    ensures var step, meant := Access(At(now, events, p), events[p]).value, Meant(At(now, events, p), events[p]);
            && (PutsAt(now, events, p, step.key) <==> Exist(At(now, events, p).s.t, step.ids))
            && (PutsAt(now, events, p, step.key) ==> Serves(now, events, payload, p, m, n, step.key, meant, from, to, outputs))
  {
    hide Run, HonestRun, WorldInv, Honest, Act, ObjectContent, AllStream, Pieces, SegmentList, Take, Later, Meant,
         Between, KeptUntil;
    var w, e := At(now, events, p), events[p];
    var key := Access(w, e).value.key;
    ReachesInvariant(now, events, payload, p);
    NextEvent(now, events, payload, p);
    if !Exist(w.s.t, Access(w, e).value.ids) {
      NoNewRow(w, e, payload);
    } else {
      NewRow(w, e);
      HistoryGrows(now, events, payload, p + 1, m);
      ObjectStaysIff(now, events, payload, p + 1, m, key);
      ObjectStaysIff(now, events, payload, p + 1, n, key);
      var found := RowAt(now, events, m, key);
      if found.Some? && found.value.id == w.s.t.nextObject {
        ObjectsAreGiven(now, events, payload, m, key);
        if from < to && Yields(now, events, payload, n, found.value.id, from, to, outputs) {
          S3RoundTrip(now, events, payload, m, n, key, from, to, outputs);
        }
      }
    }
  }

  /** The segments of what a handler puts or copies in a punctual run are still there. */
  lemma PunctualLinksExist(now: int, events: seq<Event>, payload: nat, p: nat)
    requires payload > 0 && p < |events| && HonestRun(Start(now), events, payload) && PunctualRun(now, events, p + 1)
    requires var w, e := At(now, events, p), events[p];
             (e.LinkUpload? && Uploaded(w, e.h)) || (e.LinkCopy? && ReadyToCopy(w, e.h))
    ensures Exist(At(now, events, p).s.t, Ids(At(now, events, p).handlers[events[p].h].records))
  {
    hide At, WorldInv, LeaseInv, Punctual, Honest, HonestRun, Exist, Act;
    assert forall j | 0 <= j < p :: Punctual(At(now, events, j), events[j]);
    LeasesInOrder(now, events, payload, p);
    ReachesInvariant(now, events, payload, p);
    NextEvent(now, events, payload, p);
    KeepsLeases(At(now, events, p), events[p], payload);
  }

  /**
   Put, then get. When a handler has stored all of a body, the put succeeds exactly if the segments
   are still there, as they are in a punctual run. From then on, however many events later and
   whatever happened under other keys, a get serves exactly the body, until the key is put again,
   copied to, completed or deleted.
   */
  lemma PutThenGet(now: int, events: seq<Event>, payload: nat, p: nat, m: nat, n: nat, key: Key,
                   from: nat, to: nat, outputs: seq<Bytes>)
    requires payload > 0 && p < m <= n <= |events| && HonestRun(Start(now), events, payload)
    requires events[p].LinkUpload? && Uploaded(At(now, events, p), events[p].h)
    requires At(now, events, p).handlers[events[p].h].dest == ToObject(key)
    ensures var w, a := At(now, events, p), At(now, events, p).handlers[events[p].h];
            && (PutsAt(now, events, p, key) <==> Exist(w.s.t, Ids(a.records)))
            && (PunctualRun(now, events, p + 1) ==> PutsAt(now, events, p, key))
            && (PutsAt(now, events, p, key) ==>
                  Serves(now, events, payload, p, m, n, key, Meaning(a.body, |a.body|), from, to, outputs))
  {
    hide Run, HonestRun, Act, Serves, PutsAt, Exist;
    MeantIsServed(now, events, payload, p, m, n, from, to, outputs);
    if PunctualRun(now, events, p + 1) { PunctualLinksExist(now, events, payload, p); }
  }

  // ---- Copies ----------------------------------------------------------------------------------------------------------

  /** The handler stays at copying from after event `r` up to event `p`. */
  ghost predicate KeepsCopying(now: int, events: seq<Event>, r: nat, p: nat, h: nat)
    requires r < p <= |events|
  {
    forall j | r < j <= p :: h in At(now, events, j).handlers && At(now, events, j).handlers[h].Copying?
  }

  /** What a handler copies is settled when it reads the source's segments. */
  lemma {:induction false} CopiesWhatItRead(now: int, events: seq<Event>, r: nat, p: nat)
    requires r < p <= |events| && events[r].ReadSource? && Found(At(now, events, r), events[r].h)
    requires KeepsCopying(now, events, r, p, events[r].h)
    ensures var w, a, e := At(now, events, r), At(now, events, p).handlers[events[r].h], events[r];
            && a.Copying? && a.key == w.handlers[e.h].key && a.size == w.handlers[e.h].size
            && a.records == RecordsOf(SegmentsOf(w.s.t, w.handlers[e.h].owner), w.s.t.segments, e.now)
    decreases p
  {
    hide Run, Access, Meant, StoredPart, RecordsOf, RowsListed;
    StepsOn(now, events, p - 1);
    if r + 1 < p {
      assert KeepsCopying(now, events, r, p - 1, events[r].h);
      CopiesWhatItRead(now, events, r, p - 1);
    }
  }

  /**
   Copy, then get. Let the handler copy the object that was under `source` after `k` events, reading
   its segments with event `r` and linking them with event `p`. Until the copy's own key is put again,
   copied to, completed or deleted, a get serves what the source held if nothing had overwritten that
   by `r`, and otherwise nothing, under the source's size.
   */
  lemma CopyThenGet(now: int, events: seq<Event>, payload: nat, k: nat, source: Key, r: nat, p: nat, m: nat, n: nat,
                    from: nat, to: nat, outputs: seq<Bytes>)
    requires payload > 0 && k <= r < p < m <= n <= |events| && HonestRun(Start(now), events, payload)
    requires RowAt(now, events, k, source).Some? && events[r].ReadSource? && Found(At(now, events, r), events[r].h)
    requires At(now, events, r).handlers[events[r].h].owner == RowAt(now, events, k, source).value.id
    requires KeepsCopying(now, events, r, p, events[r].h) && events[p].LinkCopy? && events[p].h == events[r].h
    ensures var w, a := At(now, events, p), At(now, events, p).handlers[events[p].h];
            var row, held := RowAt(now, events, k, source).value, ObjectContent(At(now, events, k).s.t, source);
            var bytes := if KeptUntil(now, events, k, r, source) then held else [];
            && (PutsAt(now, events, p, a.key) <==> Exist(w.s.t, Ids(a.records)))
            && (PunctualRun(now, events, p + 1) ==> PutsAt(now, events, p, a.key))
            && (PutsAt(now, events, p, a.key) ==>
                  Serves(now, events, payload, p, m, n, a.key, Meaning(bytes, row.size), from, to, outputs))
  {
    hide Run, HonestRun, Act, Serves, PutsAt, Exist, ObjectContent, WorldInv, Later, RecordsOf, ContentOf, KeptUntil;
    MeantIsServed(now, events, payload, p, m, n, from, to, outputs);
    if PunctualRun(now, events, p + 1) { PunctualLinksExist(now, events, payload, p); }
    ObjectStaysIff(now, events, payload, k, r, source);
    CopiesWhatItRead(now, events, r, p);
    ObjectsAreGiven(now, events, payload, k, source);
    HistoryGrows(now, events, payload, k, r);
    SourceRead(now, events, payload, r);
  }

  /** What the second query of a copy reads: all the source was given, or nothing. */
  lemma SourceRead(now: int, events: seq<Event>, payload: nat, r: nat)
    requires payload > 0 && r < |events| && HonestRun(Start(now), events, payload)
    requires events[r].ReadSource? && Found(At(now, events, r), events[r].h)
    ensures var w, a := At(now, events, r), At(now, events, r).handlers[events[r].h];
            && a.owner in w.given && a.size == w.given[a.owner].size
            && Flatten(Plaintexts(RecordsOf(SegmentsOf(w.s.t, a.owner), w.s.t.segments, events[r].now)))
               == if a.owner in w.s.t.links then w.given[a.owner].bytes else []
  {
    ReachesInvariant(now, events, payload, r);
    hide At, WellLinked, AllGenuine, PartsHold, RowsGiven, RecordsOf, ContentOf, Flatten;
    var w, a := At(now, events, r), At(now, events, r).handlers[events[r].h];
    assert HandlerOk(w.s, w.given, a);
    RecordsRead(SegmentsOf(w.s.t, a.owner), w.s.t.segments, events[r].now);
    NoContent(w.s.t.segments);
  }

  // ---- Multipart uploads ---------------------------------------------------------------------------------------------

  lemma {:induction false} PartGivenStays(now: int, events: seq<Event>, q: nat, n: nat, part: PartKey)
    requires q <= n <= |events| && Untouched(now, events, q, n, part) && part in At(now, events, q).partGiven
    ensures part in At(now, events, n).partGiven && At(now, events, n).partGiven[part] == At(now, events, q).partGiven[part]
    decreases n
  {
    hide Run, HandlersAfter, Meant, StoredPart, Access;
    if q < n {
      PartGivenStays(now, events, q, n - 1, part);
      StepsOn(now, events, n - 1);
    }
  }

  /**
   A part upload succeeds exactly if its segments and the upload are still there, the number is
   between 1 and 10000 and the body is not empty. Unless it is uploaded again, the part then stays
   exactly until its upload is completed or aborted, with the tag it was given, and holds the body.
   */
  lemma PartHoldsBody(now: int, events: seq<Event>, payload: nat, q: nat, n: nat)
    requires payload > 0 && q < n <= |events| && HonestRun(Start(now), events, payload)
    requires events[q].LinkUpload? && Uploaded(At(now, events, q), events[q].h)
    requires At(now, events, q).handlers[events[q].h].dest.ToPart?
    ensures var w, a := At(now, events, q), At(now, events, q).handlers[events[q].h];
            var part := (a.dest.upload, a.dest.number);
            && (StoredPart(w, events[q]) == Some(part)
                <==> && Exist(w.s.t, Ids(a.records)) && a.dest.upload in w.s.t.uploads
                     && 1 <= a.dest.number <= 10000 && a.body != [])
            && (StoredPart(w, events[q]) == Some(part) && Untouched(now, events, q + 1, n, part) ==>
                  var t := At(now, events, n).s.t;
                  && (part in t.parts <==> OpenUntil(now, events, q + 1, n, part.0))
                  && (part in t.parts ==>
                        && t.parts[part] == PartRow(|a.body|, a.dest.etag, Ids(a.records))
                        && ContentOf(t.parts[part].segments, t.segments) == a.body))
  {
    hide Run, HonestRun, Honest, HandlersAfter, WellLinked, AllGenuine, HoldsGiven, RowsGiven, HandlerOk,
         ContentOf, Take, OpenUntil;
    var w, e := At(now, events, q), events[q];
    var part := (w.handlers[e.h].dest.upload, w.handlers[e.h].dest.number);
    StepsOn(now, events, q);
    if StoredPart(w, e) == Some(part) && Untouched(now, events, q + 1, n, part) {
      StepPart(w.s, Access(w, e).value, part);
      PartStaysIff(now, events, q + 1, n, part);
      PartGivenStays(now, events, q + 1, n, part);
      ReachesInvariant(now, events, payload, n);
    }
  }

  /**
   `parts` reads a part's row and, any number of events later, its segments. Size and segments
   belong together exactly if the part is still there, with that size.
   */
  lemma SplitPartsExact(now: int, events: seq<Event>, payload: nat, m: nat, n: nat, part: PartKey)
    requires payload > 0 && m <= n <= |events| && HonestRun(Start(now), events, payload)
    requires part in At(now, events, m).s.t.parts
    ensures var row, later := At(now, events, m).s.t.parts[part], At(now, events, n).s.t;
            && (Total(PartSegments(later, part), later.segments) == row.size
                <==> part in later.parts && later.parts[part].size == row.size)
  {
    ReachesInvariant(now, events, payload, m);
    ReachesInvariant(now, events, payload, n);
    hide At, Linked, Total, HoldsGiven, RowsGiven, HandlerOk, AllGenuine, ContentOf;
    var t := At(now, events, n).s.t;
    NoSegments(t.segments);
    ListOfGenuine(PartSegments(t, part), t.segments, payload);
  }

  lemma NoSegments(segments: map<nat, Stored>)
    ensures Total([], segments) == 0
  {
  }

  /** The handler stays at the work it began with event `i`, joining the parts it listed. */
  ghost predicate KeepsJoining(now: int, events: seq<Event>, i: nat, p: nat, h: nat)
    requires i < p <= |events|
  {
    forall j | i < j <= p :: h in At(now, events, j).handlers && At(now, events, j).handlers[h].Joining?
  }

  /** The part read next has the segments that were listed with its row. */
  predicate SameSegmentsListed(w: World, h: nat)
    requires Reading(w, h)
  {
    var a := w.handlers[h];
    a.joined < |a.rows| && NextPart(w, h) in w.s.t.parts && w.s.t.parts[NextPart(w, h)].segments == a.rows[a.joined].segments
  }

  /** Whenever the handler reads a part between `i` and `p`, that has not been uploaded again since it was listed. */
  ghost predicate ReadsAsListed(now: int, events: seq<Event>, i: nat, p: nat, h: nat)
    requires i < p <= |events|
  {
    forall j | i < j < p && events[j].JoinPart? && events[j].h == h && Reading(At(now, events, j), h) ::
      SameSegmentsListed(At(now, events, j), h)
  }

  /** What a handler has joined so far is what the parts held when it listed them. */
  ghost predicate JoinsAsListed(w: World, upload: string, numbers: seq<nat>, key: Key, a: Handler)
    requires HasParts(w.s.t, upload, numbers)
  {
    && a.Joining? && a.upload == upload && a.key == key && a.numbers == numbers && a.rows == RowsListed(w.s.t, upload, numbers)
    && a.joined <= |numbers|
    && Flatten(Plaintexts(a.records)) == Flatten(PartContents(w.s.t, upload, numbers)[..a.joined])
  }

  /** One more part, with the segments it had when it was listed, still holds what it held. */
  lemma JoinsListedPart(w: World, u: World, upload: string, numbers: seq<nat>, key: Key, h: nat, now: int, payload: nat)
    requires payload > 0 && WorldInv(w, payload) && WorldInv(u, payload) && Later(w.s.t, u.s.t)
    requires HasParts(w.s.t, upload, numbers) && Reading(u, h) && SameSegmentsListed(u, h)
    requires JoinsAsListed(w, upload, numbers, key, u.handlers[h])
    ensures var v := Act(u, JoinPart(h, now)); h in v.handlers && JoinsAsListed(w, upload, numbers, key, v.handlers[h])
  {
    hide WellLinked, HoldsGiven, RowsGiven, PartsHold, AllGenuine, HandlerOk, ContentOf, RecordsOf, Flatten, Later;
    var a, part := u.handlers[h], NextPart(u, h);
    var ids, held := PartSegments(u.s.t, part), PartContents(w.s.t, upload, numbers);
    assert numbers[a.joined] in numbers && part == (upload, numbers[a.joined]);
    RecordsRead(ids, u.s.t.segments, now);
    PartStays(w.s.t, u.s.t, part);
    FlattenTwo(a.records, RecordsOf(ids, u.s.t.segments, now));
    assert held[..a.joined + 1] == held[..a.joined] + [held[a.joined]];
    FlattenSnoc(held[..a.joined], held[a.joined]);
  }

  lemma StartsToJoin(w: World, h: nat, numbers: seq<nat>)
    requires Listed(w, h) && HasParts(w.s.t, w.handlers[h].upload, numbers)
    ensures var u, a := Act(w, ListParts(h, numbers)), w.handlers[h];
            h in u.handlers && JoinsAsListed(w, a.upload, numbers, a.key, u.handlers[h])
  {
    assert PartContents(w.s.t, w.handlers[h].upload, numbers)[..0] == [] && Plaintexts([]) == [];
  }

  lemma JoinsOn(u: World, e: Event, h: nat)
    requires h in u.handlers && u.handlers[h].Joining? && h in Act(u, e).handlers && Act(u, e).handlers[h].Joining?
    requires !(e.JoinPart? && e.h == h && Reading(u, h))
    ensures Act(u, e).handlers[h] == u.handlers[h]
  {
    hide RecordsOf, Take, Meant, StoredPart, RowsListed;
  }

  lemma {:induction false} JoinsWhatItListed(now: int, events: seq<Event>, payload: nat, i: nat, p: nat)
    requires payload > 0 && i < p <= |events| && HonestRun(Start(now), events, payload)
    requires events[i].ListParts? && Listed(At(now, events, i), events[i].h)
    requires HasParts(At(now, events, i).s.t, At(now, events, i).handlers[events[i].h].upload, events[i].numbers)
    requires KeepsJoining(now, events, i, p, events[i].h) && ReadsAsListed(now, events, i, p, events[i].h)
    ensures var w, e := At(now, events, i), events[i];
            var a := w.handlers[e.h];
            JoinsAsListed(w, a.upload, e.numbers, a.key, At(now, events, p).handlers[e.h])
    decreases p
  {
    hide At, Act, WorldInv, Honest, HonestRun, JoinsAsListed, SameSegmentsListed, Later;
    var w, e := At(now, events, i), events[i];
    StepsOn(now, events, p - 1);
    if p == i + 1 {
      StartsToJoin(w, e.h, e.numbers);
    } else {
      var a, u := w.handlers[e.h], At(now, events, p - 1);
      JoinsWhatItListed(now, events, payload, i, p - 1);
      if events[p - 1].JoinPart? && events[p - 1].h == e.h && Reading(u, e.h) {
        ReachesInvariant(now, events, payload, i);
        ReachesInvariant(now, events, payload, p - 1);
        HistoryGrows(now, events, payload, i, p - 1);
        JoinsListedPart(w, u, a.upload, e.numbers, a.key, e.h, events[p - 1].now, payload);
      } else {
        JoinsOn(u, events[p - 1], e.h);
      }
    }
  }

  /** The sum the handler puts on record is what the parts' rows added up to. */
  lemma {:induction false} ListedSize(t: Tables, upload: string, numbers: seq<nat>)
    requires HasParts(t, upload, numbers)
    ensures SizeOfRows(RowsListed(t, upload, numbers)) == PartsSize(t, upload, numbers)
  {
    if numbers != [] {
      assert numbers[0] in numbers && forall n | n in numbers[1..] :: n in numbers;
      assert RowsListed(t, upload, numbers)[1..] == RowsListed(t, upload, numbers[1..]);
      ListedSize(t, upload, numbers[1..]);
    }
  }

  /** No event from `i` on, before `p`, stores one of the parts or ends their upload. */
  ghost predicate PartsLeftAlone(now: int, events: seq<Event>, i: nat, p: nat, upload: string, numbers: seq<nat>)
    requires i <= p <= |events|
  {
    OpenUntil(now, events, i, p, upload) && forall k | k in numbers :: Untouched(now, events, i, p, (upload, k))
  }

  lemma NextAsListed(now: int, events: seq<Event>, i: nat, j: nat, upload: string, numbers: seq<nat>, key: Key, h: nat)
    requires i <= j <= |events| && PartsLeftAlone(now, events, i, j, upload, numbers)
    requires HasParts(At(now, events, i).s.t, upload, numbers)
    requires Reading(At(now, events, j), h)
    requires JoinsAsListed(At(now, events, i), upload, numbers, key, At(now, events, j).handlers[h])
    ensures SameSegmentsListed(At(now, events, j), h)
  {
    hide At, OpenUntil, Untouched, PartContents;
    var a := At(now, events, j).handlers[h];
    assert numbers[a.joined] in numbers;
    PartStaysIff(now, events, i, j, (upload, numbers[a.joined]));
  }

  /** Parts that are left alone are read as they were listed. */
  lemma {:induction false} LeftAloneIsAsListed(now: int, events: seq<Event>, payload: nat, i: nat, p: nat)
    requires payload > 0 && i < p <= |events| && HonestRun(Start(now), events, payload)
    requires events[i].ListParts? && Listed(At(now, events, i), events[i].h)
    requires HasParts(At(now, events, i).s.t, At(now, events, i).handlers[events[i].h].upload, events[i].numbers)
    requires KeepsJoining(now, events, i, p, events[i].h)
    requires PartsLeftAlone(now, events, i, p, At(now, events, i).handlers[events[i].h].upload, events[i].numbers)
    ensures ReadsAsListed(now, events, i, p, events[i].h)
    decreases p
  {
    hide At, HonestRun, JoinsAsListed, SameSegmentsListed, StoredPart, EndsUpload;
    var w, e := At(now, events, i), events[i];
    if p > i + 1 {
      LeftAloneIsAsListed(now, events, payload, i, p - 1);
      if Reading(At(now, events, p - 1), e.h) {
        JoinsWhatItListed(now, events, payload, i, p - 1);
        NextAsListed(now, events, i, p - 1, w.handlers[e.h].upload, e.numbers, w.handlers[e.h].key, e.h);
      }
    }
  }

  /** A handler completes an upload under the key it was begun for. */
  lemma CompletesItsKey(now: int, events: seq<Event>, b: nat, f: nat)
    requires b < f < |events| && events[b].Other? && events[b].step.Begin? && events[f].FindUpload?
    requires events[f].upload == events[b].step.upload && events[f].upload !in At(now, events, b).s.t.uploads
    requires OpenUntil(now, events, b + 1, f, events[f].upload)
    ensures var u := At(now, events, f + 1);
            events[f].h in u.handlers && u.handlers[events[f].h] == Listing(events[f].upload, events[b].step.key)
  {
    hide At, OpenUntil, Take;
    StepsOn(now, events, b);
    StepsOn(now, events, f);
    StepUpload(At(now, events, b).s, events[b].step, events[f].upload);
    UploadStays(now, events, b + 1, f, events[f].upload);
  }

  /**
   Complete, then get. Let a handler list parts after `i` events, read their segments, each part not
   having been uploaded again, and complete the upload with event `p`. The upload completes exactly
   if all those segments still exist, and until the key is put again, copied to, completed or deleted
   a get serves exactly what the parts held when they were listed, one after the other, under the sum
   of their sizes.
   */
  lemma CompleteThenGet(now: int, events: seq<Event>, payload: nat, i: nat, p: nat, m: nat, n: nat,
                        from: nat, to: nat, outputs: seq<Bytes>)
    requires payload > 0 && i < p < m <= n <= |events| && HonestRun(Start(now), events, payload)
    requires events[i].ListParts? && Listed(At(now, events, i), events[i].h)
    requires HasParts(At(now, events, i).s.t, At(now, events, i).handlers[events[i].h].upload, events[i].numbers)
    requires KeepsJoining(now, events, i, p, events[i].h) && ReadsAsListed(now, events, i, p, events[i].h)
    requires events[p].CompleteUpload? && events[p].h == events[i].h && Joined(At(now, events, p), events[p].h)
    ensures var w, a, numbers := At(now, events, i), At(now, events, i).handlers[events[i].h], events[i].numbers;
            var bytes := Flatten(PartContents(w.s.t, a.upload, numbers));
            && |bytes| == PartsSize(w.s.t, a.upload, numbers)
            && (PutsAt(now, events, p, a.key)
                <==> Exist(At(now, events, p).s.t, Ids(At(now, events, p).handlers[events[p].h].records)))
            && (PutsAt(now, events, p, a.key) ==>
                  Serves(now, events, payload, p, m, n, a.key, Meaning(bytes, |bytes|), from, to, outputs))
  {
    hide Run, HonestRun, WorldInv, Honest, Act, Serves, PutsAt, KeepsJoining, PartContents, RowsListed, PartsSize,
         SizeOfRows, Exist;
    var w, a, numbers := At(now, events, i), At(now, events, i).handlers[events[i].h], events[i].numbers;
    ReachesInvariant(now, events, payload, i);
    JoinsWhatItListed(now, events, payload, i, p);
    ListedSize(w.s.t, a.upload, numbers);
    ListedBytes(w, a.upload, numbers, payload);
    MeantIsServed(now, events, payload, p, m, n, from, to, outputs);
    var held := PartContents(w.s.t, a.upload, numbers);
    assert |held| == |numbers| && held[..|numbers|] == held by { HeldByPart(w.s.t, a.upload, numbers); }
  }

  lemma HeldByPart(t: Tables, upload: string, numbers: seq<nat>)
    requires HasParts(t, upload, numbers)
    ensures |PartContents(t, upload, numbers)| == |numbers|
  {
  }

  /** The sizes on record of parts are right at any time. */
  lemma {:induction false} ListedBytes(w: World, upload: string, numbers: seq<nat>, payload: nat)
    requires payload > 0 && WorldInv(w, payload) && HasParts(w.s.t, upload, numbers)
    ensures |Flatten(PartContents(w.s.t, upload, numbers))| == PartsSize(w.s.t, upload, numbers)
  {
    if numbers != [] {
      hide WellLinked, HoldsGiven, RowsGiven, HandlerOk, AllGenuine, ContentOf;
      assert numbers[0] in numbers && forall n | n in numbers[1..] :: n in numbers;
      assert PartContents(w.s.t, upload, numbers)[1..] == PartContents(w.s.t, upload, numbers[1..]);
      ListedBytes(w, upload, numbers[1..], payload);
      assert (upload, numbers[0]) in w.s.t.parts;
    }
  }
}
