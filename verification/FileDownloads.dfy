/**
 End to end: what is downloaded from a completed file is what was uploaded into it,
 whatever the segments, their upload order and chunks, and the course of the download.
 */
module FileDownloads {
  import opened Basics
  import opened ByteStreams
  import opened Frames
  import opened Segments
  import opened FilesModel
  import opened FilesSafety
  import Model = SessionModel
  import Runs = SessionRuns

  ghost predicate AllGenuine(segments: map<string, Segment>, payload: nat)
    requires payload > 0
  {
    forall id | id in segments :: Genuine(segments[id], payload)
  }

  /** Every attached segment comes from an upload. */
  ghost predicate HonestOps(ops: seq<Op>, payload: nat)
    requires payload > 0
  {
    forall i | 0 <= i < |ops| && ops[i].AttachAt? :: Genuine(ops[i].segment, payload)
  }

  lemma {:induction false} RunKeepsGenuine(payload: nat, ops: seq<Op>)
    requires payload > 0 && HonestOps(ops, payload)
    ensures AllGenuine(Run(EMPTY, payload, ops).segments, payload)
  {
    hide Genuine, Used, Reserved, FirstRowError;
    if ops != [] { RunKeepsGenuine(payload, ops[..|ops| - 1]); }
  }

  /** What `completed_file` reads of a completed file. */
  lemma {:induction false} ObjectsOfWhole(rows: seq<Row>, segments: map<string, Segment>, payload: nat)
    requires payload > 0 && AllGenuine(segments, payload)
    requires forall i | 0 <= i < |rows| :: rows[i].segment.Some? && rows[i].segment.value in segments
    requires forall i | 0 <= i < |rows| - 1 :: MultipleOf(SizeOf(rows[i], segments), payload)
    ensures |Objects(rows, segments)| == |rows| && AlignedButLast(Objects(rows, segments), payload)
    ensures |Content(Objects(rows, segments))| == Used(rows, segments)
  {
    if rows != [] {
      var rest := rows[1..];
      assert forall i | 0 <= i < |rest| :: rest[i] == rows[i + 1];
      ObjectsOfWhole(rest, segments, payload);
      var tail := Objects(rest, segments);
      assert rows[0].segment.value in segments;
      var objects := [segments[rows[0].segment.value]] + tail;
      assert Objects(rows, segments) == objects;
      assert forall i | 0 < i < |objects| :: objects[i] == tail[i - 1];
      assert objects[1..] == tail;
    }
  }

  /** The stream of a range of a completed file, if it is one session run honestly over its segments. */
  ghost predicate StreamsRange(t: Tables, payload: nat, file: string, r: ByteRequest, s: Model.Session, polls: seq<Runs.Event>)
    requires payload > 0 && r.start < r.end
  {
    var objects := Objects(RowsOf(t, file), t.segments);
    && Runs.Fresh(s) && s.first == FirstFrame(r, payload) && s.last == LastFrame(r, payload)
    && Runs.HonestRun(ServeFrom(objects, payload), polls) && Supplies(objects, Runs.Drive(s, polls).session)
  }

  /** What has come out of it so far. */
  function Streamed(payload: nat, r: ByteRequest, s: Model.Session, polls: seq<Runs.Event>): Bytes
    requires payload > 0 && r.start < r.end
  {
    Window(Flatten(Runs.Drive(s, polls).session.sent), r.start % payload, r.end - r.start)
  }

  /** Streaming a range of a completed file yields that range of its segments, in index order. */
  lemma StreamsFile(t: Tables, payload: nat, file: string, r: ByteRequest, s: Model.Session, polls: seq<Runs.Event>)
    requires payload > 0 && Inv(t, payload) && AllGenuine(t.segments, payload)
    requires CompletedSize(t, file).Ok? && r.start < r.end <= CompletedSize(t, file).value
    requires StreamsRange(t, payload, file, r, s, polls)
    ensures var content := Content(Objects(RowsOf(t, file), t.segments));
            && |content| == CompletedSize(t, file).value
            && Streamed(payload, r, s, polls) <= content[r.start..r.end]
            && (Runs.Drive(s, polls).phase.Closing? ==> Streamed(payload, r, s, polls) == content[r.start..r.end])
  {
    hide Runs.Drive, Runs.HonestRun, Runs.Fresh, Window, Content, Objects, FirstFrame, LastFrame, AllGenuine, Used;
    assert FileOk(t, payload, file);
    RowsOfOk(t, payload, file);
    hide Inv;
    var rows := RowsOf(t, file);
    assert forall i | 0 <= i < |rows| :: rows[i] in rows;
    ObjectsOfWhole(rows, t.segments, payload);
    SessionYieldsRange(Objects(rows, t.segments), payload, r, s, polls);
  }

  /**
   The end-to-end files round trip. For any sequence of transactions by any handlers, once a
   file is complete, streaming a non-empty range within it yields a prefix of those bytes of
   its segments' plaintexts in index order, and exactly those bytes when the stream closes.
   */
  lemma FilesRoundTrip(payload: nat, ops: seq<Op>, file: string, r: ByteRequest, s: Model.Session, polls: seq<Runs.Event>)
    requires payload > 0 && HonestOps(ops, payload)
    requires CompletedSize(Run(EMPTY, payload, ops), file).Ok?
    requires r.start < r.end <= CompletedSize(Run(EMPTY, payload, ops), file).value
    requires StreamsRange(Run(EMPTY, payload, ops), payload, file, r, s, polls)
    ensures var t := Run(EMPTY, payload, ops);
            var content := Content(Objects(RowsOf(t, file), t.segments));
            && |content| == CompletedSize(t, file).value
            && Streamed(payload, r, s, polls) <= content[r.start..r.end]
            && (Runs.Drive(s, polls).phase.Closing? ==> Streamed(payload, r, s, polls) == content[r.start..r.end])
  {
    hide Run, Runs.Drive, StreamsRange, Streamed, Content, Objects, AllGenuine, Inv;
    NothingYet(payload);
    RunKeeps(EMPTY, payload, ops);
    RunKeepsGenuine(payload, ops);
    StreamsFile(Run(EMPTY, payload, ops), payload, file, r, s, polls);
  }

  lemma NothingYet(payload: nat)
    ensures Inv(EMPTY, payload)
  {
  }
}
