/**
 The files catalog as tables on values. Every transaction is one function; a file's rows are
 kept in index order, as the primary key of the table keeps them.
 */
module FilesModel {
  import opened Basics
  import opened Segments

  const I64_MAX := 0x7FFF_FFFF_FFFF_FFFF

  datatype Error =
    | NotFound
    | Completed
    | IndexExists
    | AllocationExceeded
    | UploadInProgress
    | SegmentGap
    | MisalignedSegment
    | NotCompleted
    | Database

  /** A row of `file_segments`: a reservation until a segment is attached. */
  datatype Row = Row(index: nat, segment: Option<string>)

  datatype File = File(expected: nat, completedAt: Option<int>, size: Option<nat>)

  datatype Tables = Tables(files: map<string, File>, segments: map<string, Segment>, rows: map<string, seq<Row>>)

  /** The tables after a transaction, and the error it returned. */
  datatype Reply = Reply(tables: Tables, error: Option<Error>)

  // ---- Rows -------------------------------------------------------------------------------

  predicate Sorted(rows: seq<Row>) {
    forall i, j | 0 <= i < j < |rows| :: rows[i].index < rows[j].index
  }

  function RowsOf(t: Tables, file: string): seq<Row> {
    if file in t.rows then t.rows[file] else []
  }

  function Find(rows: seq<Row>, index: nat): (r: Option<nat>)
    ensures r.Some? ==> r.value < |rows| && rows[r.value].index == index
    ensures r.None? ==> forall i | 0 <= i < |rows| :: rows[i].index != index
  {
    if rows == [] then None
    else if rows[0].index == index then Some(0)
    else
      var later := Find(rows[1..], index);
      if later.None? then
        assert forall i | 0 < i < |rows| :: rows[i] == rows[1..][i - 1];
        None
      else Some(later.value + 1)
  }

  /** A new reservation, in its place. */
  function Insert(rows: seq<Row>, index: nat): seq<Row> {
    if rows == [] || index < rows[0].index then [Row(index, None)] + rows
    else [rows[0]] + Insert(rows[1..], index)
  }

  function Keep(rows: seq<Row>, wanted: Row -> bool): seq<Row> {
    if rows == [] then []
    else (if wanted(rows[0]) then [rows[0]] else []) + Keep(rows[1..], wanted)
  }

  /** The rows without reservations. */
  function Attached(rows: seq<Row>): seq<Row> {
    Keep(rows, (r: Row) => r.segment.Some?)
  }

  function WithoutReservation(rows: seq<Row>, index: nat): seq<Row> {
    Keep(rows, (r: Row) => r.index != index || r.segment.Some?)
  }

  predicate HasPending(rows: seq<Row>) {
    exists i | 0 <= i < |rows| :: rows[i].segment.None?
  }

  function SizeOf(row: Row, segments: map<string, Segment>): nat {
    if row.segment.Some? && row.segment.value in segments then segments[row.segment.value].size else 0
  }

  /** Total size of the attached segments. */
  function Used(rows: seq<Row>, segments: map<string, Segment>): nat {
    if rows == [] then 0 else SizeOf(rows[0], segments) + Used(rows[1..], segments)
  }

  // ---- Transactions -------------------------------------------------------------------------

  /** `connect`: every reservation of an earlier process is gone. */
  function Purge(t: Tables): Tables {
    t.(rows := map file | file in t.rows :: Attached(t.rows[file]))
  }

  function CreateFile(t: Tables, file: string, expected: nat): Reply {
    if file in t.files || expected > I64_MAX then Reply(t, Some(Database))
    else Reply(t.(files := t.files[file := File(expected, None, None)]), None)
  }

  function Reserve(t: Tables, file: string, index: nat): Reply {
    if file !in t.files then Reply(t, Some(NotFound))
    else if t.files[file].completedAt.Some? then Reply(t, Some(Completed))
    else if Find(RowsOf(t, file), index).Some? then Reply(t, Some(IndexExists))
    else Reply(t.(rows := t.rows[file := Insert(RowsOf(t, file), index)]), None)
  }

  function Cancel(t: Tables, file: string, index: nat): Tables {
    t.(rows := t.rows[file := WithoutReservation(RowsOf(t, file), index)])
  }

  predicate Reserved(rows: seq<Row>, index: nat) {
    var at := Find(rows, index);
    at.Some? && rows[at.value].segment.None?
  }

  /** Puts the segment where its reservation was. */
  function Fill(rows: seq<Row>, index: nat, id: string): seq<Row>
    requires Reserved(rows, index)
  {
    rows[Find(rows, index).value := Row(index, Some(id))]
  }

  /** An upload beyond the allocation also loses its reservation; any other failure rolls back. */
  function Attach(t: Tables, file: string, index: nat, id: string, segment: Segment): Reply {
    if file !in t.files then Reply(t, Some(NotFound))
    else if t.files[file].completedAt.Some? then Reply(t, Some(Completed))
    else if Used(RowsOf(t, file), t.segments) + segment.size > t.files[file].expected then
      Reply(Cancel(t, file, index), Some(AllocationExceeded))
    else if id in t.segments || segment.frameCount == 0 || segment.size == 0 then Reply(t, Some(Database))
    else if !Reserved(RowsOf(t, file), index) then Reply(t, Some(IndexExists))
    else Reply(Tables(t.files, t.segments[id := segment], t.rows[file := Fill(RowsOf(t, file), index, id)]), None)
  }

  predicate MultipleOf(size: nat, payload: nat) {
    if payload == 0 then size == 0 else size % payload == 0
  }

  /** What is wrong with the row at this position of a file that is to be completed. */
  function RowError(rows: seq<Row>, segments: map<string, Segment>, payload: nat, position: nat): Option<Error>
    requires position < |rows|
  {
    if rows[position].index != position then Some(SegmentGap)
    else if position + 1 < |rows| && !MultipleOf(SizeOf(rows[position], segments), payload) then Some(MisalignedSegment)
    else None
  }

  /** The first such error at or after this position. */
  function FirstRowError(rows: seq<Row>, segments: map<string, Segment>, payload: nat, position: nat): (r: Option<Error>)
    requires position <= |rows|
    ensures r.None? <==> forall i | position <= i < |rows| :: RowError(rows, segments, payload, i).None?
    ensures r.Some? ==> r.value.SegmentGap? || r.value.MisalignedSegment?
    decreases |rows| - position
  {
    if position == |rows| then None
    else
      var error := RowError(rows, segments, payload, position);
      if error.Some? then error else FirstRowError(rows, segments, payload, position + 1)
  }

  function Complete(t: Tables, file: string, payload: nat, now: int): Reply {
    if file !in t.files then Reply(t, Some(NotFound))
    else if t.files[file].completedAt.Some? then Reply(t, Some(Completed))
    else
      var rows := RowsOf(t, file);
      if HasPending(rows) then Reply(t, Some(UploadInProgress))
      else
        var error := FirstRowError(rows, t.segments, payload, 0);
        if error.Some? then Reply(t, error)
        else if Used(rows, t.segments) > t.files[file].expected then Reply(t, Some(AllocationExceeded))
        else
          var done := t.files[file].(completedAt := Some(now), size := Some(Used(rows, t.segments)));
          Reply(t.(files := t.files[file := done]), None)
  }

  /** The first query of `completed_file`: the size of a completed file. */
  function CompletedSize(t: Tables, file: string): Result<nat, Error> {
    if file !in t.files then Err(NotFound)
    else if t.files[file].size.None? || t.files[file].completedAt.None? then Err(NotCompleted)
    else Ok(t.files[file].size.value)
  }

  /** Its second query: the segments in index order. */
  function Objects(rows: seq<Row>, segments: map<string, Segment>): seq<Segment> {
    if rows == [] then []
    else
      (if rows[0].segment.Some? && rows[0].segment.value in segments then [segments[rows[0].segment.value]] else [])
      + Objects(rows[1..], segments)
  }

  // ---- Runs -----------------------------------------------------------------------------------

  /** One transaction of one of the handlers, or a restart. */
  datatype Op =
    | Create(file: string, expected: nat)
    | ReserveAt(file: string, index: nat)
    | CancelAt(file: string, index: nat)
    | AttachAt(file: string, index: nat, id: string, segment: Segment)
    | CompleteAt(file: string, now: int)
    | Restart

  function Apply(t: Tables, payload: nat, op: Op): Reply {
    match op
    case Create(file, expected) => CreateFile(t, file, expected)
    case ReserveAt(file, index) => Reserve(t, file, index)
    case CancelAt(file, index) => Reply(Cancel(t, file, index), None)
    case AttachAt(file, index, id, segment) => Attach(t, file, index, id, segment)
    case CompleteAt(file, now) => Complete(t, file, payload, now)
    case Restart => Reply(Purge(t), None)
  }

  function Run(t: Tables, payload: nat, ops: seq<Op>): Tables {
    if ops == [] then t
    else Apply(Run(t, payload, ops[..|ops| - 1]), payload, ops[|ops| - 1]).tables
  }

  const EMPTY := Tables(map[], map[], map[])
}
