/**
 From an upload to a download: the body of an upload that was reported is what any later stream of
 its file yields there, whatever other handlers, clients and restarts do in between.
 */
module FilesUploads {
  import opened Basics
  import opened ByteStreams
  import opened Frames
  import opened Segments
  import opened FilesModel
  import opened FilesSafety
  import opened FilesHandlers
  import opened FileDownloads
  import Model = SessionModel
  import Runs = SessionRuns

  /** Segments are as their uploads left them. */
  ghost predicate Genuinely(event: Event, payload: nat)
    requires payload > 0
  {
    event.Uploaded? ==> Genuine(event.segment, payload)
  }

  ghost predicate AllGenuinely(events: seq<Event>, payload: nat)
    requires payload > 0
  {
    forall i | 0 <= i < |events| :: Genuinely(events[i], payload)
  }

  // ---- Segments, from upload to attachment ---------------------------------------------------------

  ghost predicate GenuineWorld(w: World, payload: nat)
    requires payload > 0
  {
    && AllGenuine(w.t.segments, payload)
    && forall id | id in w.uploads && w.uploads[id].Storing? :: Genuine(w.uploads[id].segment, payload)
  }

  lemma HappenKeepsGenuine(w: World, payload: nat, event: Event)
    requires payload > 0 && GenuineWorld(w, payload) && Genuinely(event, payload)
    ensures GenuineWorld(Happen(w, payload, event), payload)
  {
    hide Genuine, Used, FirstRowError, HasPending, Insert, Find, Keep, Fill, Reserved;
  }

  /** The handler with this segment stores it, has attached it, or never will. */
  ghost predicate Carries(w: World, id: string, file: string, index: nat, segment: Segment) {
    && id in w.uploads
    && match w.uploads[id]
       case Uploading(_, _) => false
       case Storing(f, i, body) => f == file && i == index && body == segment
       case Deleting(_, _) => true
       case Cancelling(_, _) => true
       case Succeeded(f, i) => f == file && i == index && id in w.t.segments && w.t.segments[id] == segment
       case Failed => true
  }

  lemma HappenCarries(w: World, payload: nat, event: Event, id: string, file: string, index: nat, segment: Segment)
    requires Carries(w, id, file, index, segment)
    ensures Carries(Happen(w, payload, event), id, file, index, segment)
  {
    hide Used, FirstRowError, HasPending, Insert, Find, Keep, Fill, Reserved;
  }

  /** Every attached row is the report of a handler that uploaded it there. */
  ghost predicate RowsReported(w: World) {
    forall file, r: Row | r in RowsOf(w.t, file) && r.segment.Some? ::
      r.segment.value in w.uploads && w.uploads[r.segment.value] == Succeeded(file, r.index)
  }

  lemma AttachedRows(t: Tables, file: string, index: nat, id: string, segment: Segment, other: string, r: Row)
    requires r in RowsOf(Attach(t, file, index, id, segment).tables, other) && r.segment.Some?
    ensures r in RowsOf(t, other)
         || (Attach(t, file, index, id, segment).error.None? && other == file && r == Row(index, Some(id)))
  {
    hide Used, Find, Keep;
    KeepMembers(RowsOf(t, file), (x: Row) => x.index != index || x.segment.Some?);
  }

  /** A step attaches no row but that of the handler that attaches now. */
  lemma HappenRows(w: World, payload: nat, event: Event, file: string, r: Row)
    requires Inv(w.t, payload) && r in RowsOf(Happen(w, payload, event).t, file) && r.segment.Some?
    ensures r in RowsOf(w.t, file)
         || (AttachesNow(w, payload, event, r.segment.value)
             && Happen(w, payload, event).uploads[r.segment.value] == Succeeded(file, r.index))
  {
    hide Inv, Attach, Used, FirstRowError, HasPending, Keep, Insert, Find;
    match event
    case Begin(_, other, at) =>
      RowsOfOk(w.t, payload, other);
      if Find(RowsOf(w.t, other), at).None? { InsertKeeps(RowsOf(w.t, other), at, w.t.segments); }
    case Uploaded(_, _) =>
    case UploadFailed(id) =>
      if id in w.uploads && w.uploads[id].Uploading? { CancelledRows(w.t, w.uploads[id].file, w.uploads[id].index, file, r); }
    case TryAttach(id) =>
      if id in w.uploads && w.uploads[id].Storing? {
        var phase := w.uploads[id];
        AttachedRows(w.t, phase.file, phase.index, id, phase.segment, file, r);
      }
    case DeleteBlob(_, _) =>
    case Undo(id) =>
      if id in w.uploads && w.uploads[id].Cancelling? { CancelledRows(w.t, w.uploads[id].file, w.uploads[id].index, file, r); }
    case Disconnect(_) =>
    case Other(op) =>
      if op.Restart? { KeepMembers(RowsOf(w.t, file), (x: Row) => x.segment.Some?); }
      if op.Create? || op.CompleteAt? { OtherKeepsRows(w.t, payload, op); }
  }

  lemma CancelledRows(t: Tables, file: string, index: nat, other: string, r: Row)
    requires r in RowsOf(Cancel(t, file, index), other)
    ensures r in RowsOf(t, other)
  {
    hide Keep;
    KeepMembers(RowsOf(t, file), (x: Row) => x.index != index || x.segment.Some?);
  }

  lemma HappenKeepsReported(w: World, payload: nat, event: Event)
    requires Inv(w.t, payload) && RowsReported(w)
    ensures RowsReported(Happen(w, payload, event))
  {
    hide Inv, Happen, AttachesNow;
    var next := Happen(w, payload, event);
    HappenReports(w, payload, event);
    forall file, r: Row | r in RowsOf(next.t, file) && r.segment.Some?
      ensures r.segment.value in next.uploads && next.uploads[r.segment.value] == Succeeded(file, r.index)
    {
      HappenRows(w, payload, event, file, r);
      if AttachesNow(w, payload, event, r.segment.value) { AttachesReports(w, payload, event, r.segment.value); }
    }
  }

  lemma AttachesReports(w: World, payload: nat, event: Event, id: string)
    requires AttachesNow(w, payload, event, id)
    ensures id in Happen(w, payload, event).uploads
  {
  }

  // ---- Over whole histories ----------------------------------------------------------------------------

  lemma {:induction false} HistoryIsGenuine(payload: nat, events: seq<Event>)
    requires payload > 0 && AllGenuinely(events, payload)
    ensures GenuineWorld(History(START, payload, events), payload) && RowsReported(History(START, payload, events))
    ensures Inv(History(START, payload, events).t, payload)
  {
    hide Happen, Inv, GenuineWorld, RowsReported, Genuine;
    if events == [] {
      StartIsGenuine(payload);
    } else {
      var n := |events| - 1;
      HistoryIsGenuine(payload, events[..n]);
      var w := History(START, payload, events[..n]);
      assert Genuinely(events[n], payload);
      HappenKeepsGenuine(w, payload, events[n]);
      HappenKeepsReported(w, payload, events[n]);
      HappenKeepsTables(w, payload, events[n]);
    }
  }

  lemma StartIsGenuine(payload: nat)
    requires payload > 0
    ensures GenuineWorld(START, payload) && RowsReported(START) && Inv(START.t, payload)
  {
  }

  /** What a handler has uploaded is what it reports. */
  lemma {:induction false} HistoryCarries(payload: nat, events: seq<Event>, j: nat, n: nat)
    requires j < n <= |events| && events[j].Uploaded?
    requires var w := History(START, payload, events[..j]); events[j].id in w.uploads && w.uploads[events[j].id].Uploading?
    ensures var begun := History(START, payload, events[..j]).uploads[events[j].id];
            Carries(History(START, payload, events[..n]), events[j].id, begun.file, begun.index, events[j].segment)
    decreases n
  {
    hide Happen, Carries;
    var begun := History(START, payload, events[..j]).uploads[events[j].id];
    assert events[..n][..n - 1] == events[..n - 1] && events[..n][n - 1] == events[n - 1];
    if n == j + 1 {
      UploadedCarries(History(START, payload, events[..j]), payload, events[j].id, events[j].segment);
    } else {
      HistoryCarries(payload, events, j, n - 1);
      HappenCarries(History(START, payload, events[..n - 1]), payload, events[n - 1],
                    events[j].id, begun.file, begun.index, events[j].segment);
    }
  }

  lemma UploadedCarries(w: World, payload: nat, id: string, segment: Segment)
    requires id in w.uploads && w.uploads[id].Uploading?
    ensures Carries(Happen(w, payload, Uploaded(id, segment)), id, w.uploads[id].file, w.uploads[id].index, segment)
  {
  }

  // ---- Where a body lies in its file ------------------------------------------------------------------------

  /** The bytes of the segments before this position. */
  function Offset(t: Tables, file: string, index: nat): nat
    requires index <= |RowsOf(t, file)|
  {
    Used(RowsOf(t, file)[..index], t.segments)
  }

  lemma {:induction false} BodyInContent(rows: seq<Row>, segments: map<string, Segment>, payload: nat, index: nat)
    requires payload > 0 && AllGenuine(segments, payload) && index < |rows|
    requires forall i | 0 <= i < |rows| :: rows[i].segment.Some? && rows[i].segment.value in segments
    ensures var content, body := Content(Objects(rows, segments)), segments[rows[index].segment.value].body;
            var offset := Used(rows[..index], segments);
            offset + |body| <= |content| && content[offset..offset + |body|] == body
  {
    var rest := rows[1..];
    var front, tail := segments[rows[0].segment.value], Objects(rest, segments);
    assert rows[0].segment.value in segments && Genuine(front, payload);
    assert Objects(rows, segments) == [front] + tail && ([front] + tail)[1..] == tail;
    assert Content(Objects(rows, segments)) == front.body + Content(tail);
    if index > 0 {
      assert forall i | 0 <= i < |rest| :: rest[i] == rows[i + 1];
      BodyInContent(rest, segments, payload, index - 1);
      assert rows[..index][1..] == rest[..index - 1] && rows[..index][0] == rows[0];
      InTail(front.body, Content(tail), Used(rest[..index - 1], segments), |segments[rows[index].segment.value].body|);
    }
  }

  lemma InTail(front: Bytes, tail: Bytes, offset: nat, size: nat)
    requires offset + size <= |tail|
    ensures (front + tail)[|front| + offset..|front| + offset + size] == tail[offset..offset + size]
  {
  }

  /** A completed file is made of reported uploads, the i-th of which was uploaded as its segment i. */
  lemma FileIsItsUploads(payload: nat, events: seq<Event>, file: string)
    requires payload > 0 && AllGenuinely(events, payload) && CompletedSize(History(START, payload, events).t, file).Ok?
    ensures var w := History(START, payload, events);
            var rows := RowsOf(w.t, file);
            && (forall i | 0 <= i < |rows| ::
                  && rows[i].segment.Some? && rows[i].segment.value in w.t.segments && rows[i].segment.value in w.uploads
                  && w.uploads[rows[i].segment.value] == Succeeded(file, i))
            && (forall id, i: nat | id in w.uploads && w.uploads[id] == Succeeded(file, i) ::
                  i < |rows| && rows[i] == Row(i, Some(id)))
  {
    UploadsAreDurableForAll(payload, events);
    HistoryIsGenuine(payload, events);
    hide History;
    var w := History(START, payload, events);
    var rows := RowsOf(w.t, file);
    RowsOfOk(w.t, payload, file);
    assert FileOk(w.t, payload, file);
    forall i | 0 <= i < |rows|
      ensures && rows[i].segment.Some? && rows[i].segment.value in w.t.segments && rows[i].segment.value in w.uploads
              && w.uploads[rows[i].segment.value] == Succeeded(file, i)
    {
      assert rows[i] in rows && rows[i].index == i;
    }
    hide Inv;
  }

  lemma UploadsAreDurableForAll(payload: nat, events: seq<Event>)
    ensures var w := History(START, payload, events);
            forall id | id in w.uploads && w.uploads[id].Succeeded? ::
              id in w.t.segments && AttachedAt(w.t, w.uploads[id].file, w.uploads[id].index, id)
  {
    forall id | id in History(START, payload, events).uploads && History(START, payload, events).uploads[id].Succeeded?
      ensures var w := History(START, payload, events);
              id in w.t.segments && AttachedAt(w.t, w.uploads[id].file, w.uploads[id].index, id)
    {
      UploadsAreDurable(payload, events, id);
    }
  }

  /** The size of a completed file is the number of its bytes. */
  lemma WholeContent(t: Tables, payload: nat, file: string)
    requires payload > 0 && Inv(t, payload) && AllGenuine(t.segments, payload) && CompletedSize(t, file).Ok?
    ensures |Content(Objects(RowsOf(t, file), t.segments))| == CompletedSize(t, file).value
  {
    hide Content, Objects, AllGenuine, Used;
    assert FileOk(t, payload, file);
    RowsOfOk(t, payload, file);
    hide Inv;
    var rows := RowsOf(t, file);
    assert forall i | 0 <= i < |rows| :: rows[i] in rows;
    ObjectsOfWhole(rows, t.segments, payload);
  }

  /** An upload that event `j` finished, which is still to be attached, cancelled or given up. */
  ghost predicate Finishes(payload: nat, events: seq<Event>, j: nat) {
    && j < |events| && events[j].Uploaded?
    && var w := History(START, payload, events[..j]);
       events[j].id in w.uploads && w.uploads[events[j].id].Uploading?
  }

  /** It has been reported, and its file is complete. */
  ghost predicate ReportedInComplete(w: World, id: string) {
    id in w.uploads && w.uploads[id].Succeeded? && CompletedSize(w.t, w.uploads[id].file).Ok?
  }

  /** A reported upload lies in its file where it was begun, with its body. */
  lemma UploadLands(payload: nat, events: seq<Event>, j: nat)
    requires payload > 0 && AllGenuinely(events, payload) && Finishes(payload, events, j)
    requires ReportedInComplete(History(START, payload, events), events[j].id)
    ensures var begun := History(START, payload, events[..j]).uploads[events[j].id];
            var w, id := History(START, payload, events), events[j].id;
            && w.uploads[id] == Succeeded(begun.file, begun.index)
            && begun.index < |RowsOf(w.t, begun.file)| && RowsOf(w.t, begun.file)[begun.index] == Row(begun.index, Some(id))
            && id in w.t.segments && w.t.segments[id] == events[j].segment
  {
    hide History;
    assert events[..|events|] == events;
    HistoryCarries(payload, events, j, |events|);
    var begun := History(START, payload, events[..j]).uploads[events[j].id];
    FileIsItsUploads(payload, events, begun.file);
  }

  /** The range of a file that is this range of one of its segments. */
  function RangeIn(t: Tables, file: string, index: nat, a: nat, b: nat): ByteRequest
    requires index <= |RowsOf(t, file)|
  {
    ByteRequest(Offset(t, file, index) + a, Offset(t, file, index) + b)
  }

  lemma RangeOfBody(content: Bytes, offset: nat, body: Bytes, a: nat, b: nat)
    requires offset + |body| <= |content| && content[offset..offset + |body|] == body && a <= b <= |body|
    ensures content[offset + a..offset + b] == body[a..b]
  {
    forall k | 0 <= k < b - a ensures content[offset + a..offset + b][k] == body[a..b][k] {
      assert content[offset..offset + |body|][a + k] == content[offset + (a + k)];
    }
  }

  /** Streaming a range of one segment of a completed file, through the whole file. */
  lemma BodyStreams(t: Tables, payload: nat, file: string, index: nat, a: nat, b: nat, s: Model.Session, polls: seq<Runs.Event>)
    requires payload > 0 && Inv(t, payload) && AllGenuine(t.segments, payload) && CompletedSize(t, file).Ok?
    requires index < |RowsOf(t, file)| && RowsOf(t, file)[index].segment.Some? && RowsOf(t, file)[index].segment.value in t.segments
    requires a < b <= |t.segments[RowsOf(t, file)[index].segment.value].body|
    ensures var r, body := RangeIn(t, file, index, a, b), t.segments[RowsOf(t, file)[index].segment.value].body;
            && r.end <= CompletedSize(t, file).value
            && (StreamsRange(t, payload, file, r, s, polls) ==>
                  && Streamed(payload, r, s, polls) <= body[a..b]
                  && (Runs.Drive(s, polls).phase.Closing? ==> Streamed(payload, r, s, polls) == body[a..b]))
  {
    WholeContent(t, payload, file);
    WholeIsAttached(t, payload, file);
    hide Runs.Drive, StreamsRange, Streamed, Content, Objects, Used, AllGenuine, Inv, CompletedSize;
    var rows, r := RowsOf(t, file), RangeIn(t, file, index, a, b);
    BodyInContent(rows, t.segments, payload, index);
    RangeOfBody(Content(Objects(rows, t.segments)), Offset(t, file, index), t.segments[rows[index].segment.value].body, a, b);
    if StreamsRange(t, payload, file, r, s, polls) { StreamsFile(t, payload, file, r, s, polls); }
  }

  lemma WholeIsAttached(t: Tables, payload: nat, file: string)
    requires Inv(t, payload) && CompletedSize(t, file).Ok?
    ensures forall i | 0 <= i < |RowsOf(t, file)| ::
              RowsOf(t, file)[i].segment.Some? && RowsOf(t, file)[i].segment.value in t.segments
  {
    assert FileOk(t, payload, file);
    RowsOfOk(t, payload, file);
    hide Inv;
    var rows := RowsOf(t, file);
    assert forall i | 0 <= i < |rows| :: rows[i] in rows;
  }

  /**
   Upload, then stream. If the upload that event `j` finished has been reported and its file is
   complete, its body lies in the file where it was begun, behind the segments before it, and
   streaming any range of it yields a prefix of those bytes of the body, and all of them when the
   stream closes.
   */
  lemma UploadThenStream(payload: nat, events: seq<Event>, j: nat, a: nat, b: nat, s: Model.Session, polls: seq<Runs.Event>)
    requires payload > 0 && AllGenuinely(events, payload) && Finishes(payload, events, j)
    requires ReportedInComplete(History(START, payload, events), events[j].id)
    requires a < b <= |events[j].segment.body|
    ensures var begun := History(START, payload, events[..j]).uploads[events[j].id];
            var t := History(START, payload, events).t;
            && begun.index < |RowsOf(t, begun.file)|
            && (var r := RangeIn(t, begun.file, begun.index, a, b);
                && CompletedSize(t, begun.file).Ok? && r.end <= CompletedSize(t, begun.file).value
                && (StreamsRange(t, payload, begun.file, r, s, polls) ==>
                      && Streamed(payload, r, s, polls) <= events[j].segment.body[a..b]
                      && (Runs.Drive(s, polls).phase.Closing? ==> Streamed(payload, r, s, polls) == events[j].segment.body[a..b])))
  {
    hide History, Streamed, StreamsRange, AllGenuine, Inv, Offset;
    UploadLands(payload, events, j);
    HistoryIsGenuine(payload, events);
    var begun := History(START, payload, events[..j]).uploads[events[j].id];
    BodyStreams(History(START, payload, events).t, payload, begun.file, begun.index, a, b, s, polls);
  }
}
