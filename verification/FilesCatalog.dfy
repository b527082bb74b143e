/**
 The files catalog as an object over its tables, each transaction proved against its
 function; and the range a request names.
 */
module FilesCatalog {
  import opened Basics
  import opened FilesModel
  import opened Segments

  class Catalog {
    var files: map<string, File>
    var segments: map<string, Segment>
    var rows: map<string, seq<Row>>

    function State(): Tables
      reads this
    {
      Tables(files, segments, rows)
    }

    /** `connect`: opens existing tables and drops the reservations of an earlier process. */
    constructor (t: Tables)
      ensures State() == Purge(t)
    {
      files, segments := t.files, t.segments;
      rows := map file | file in t.rows :: Attached(t.rows[file]);
    }

    method CreateFile(file: string, expected: nat) returns (error: Option<Error>)
      modifies this
      ensures Reply(State(), error) == FilesModel.CreateFile(old(State()), file, expected)
    {
      if file in files || expected > I64_MAX { return Some(Database); }
      files := files[file := File(expected, None, None)];
      return None;
    }

    method ReserveSegment(file: string, index: nat) returns (error: Option<Error>)
      modifies this
      ensures Reply(State(), error) == Reserve(old(State()), file, index)
    {
      if file !in files { return Some(NotFound); }
      if files[file].completedAt.Some? { return Some(Completed); }
      var reserved := RowsOf(State(), file);
      if Find(reserved, index).Some? { return Some(IndexExists); }
      rows := rows[file := Insert(reserved, index)];
      return None;
    }

    method CancelReservation(file: string, index: nat)
      modifies this
      ensures State() == Cancel(old(State()), file, index)
    {
      rows := rows[file := WithoutReservation(RowsOf(State(), file), index)];
    }

    /** The segment row is inserted first; a missing reservation rolls it back. */
    method AttachSegment(file: string, index: nat, id: string, segment: Segment) returns (error: Option<Error>)
      modifies this
      ensures Reply(State(), error) == Attach(old(State()), file, index, id, segment)
    {
      hide Used;
      if file !in files { return Some(NotFound); }
      if files[file].completedAt.Some? { return Some(Completed); }
      var used := Used(RowsOf(State(), file), segments);
      if used + segment.size > files[file].expected {
        CancelReservation(file, index);
        return Some(AllocationExceeded);
      }
      if id in segments || segment.frameCount == 0 || segment.size == 0 { return Some(Database); }
      var before := segments;
      segments := segments[id := segment];
      var reserved := RowsOf(State(), file);
      if !Reserved(reserved, index) {
        segments := before;
        return Some(IndexExists);
      }
      rows := rows[file := Fill(reserved, index, id)];
      return None;
    }

    /** The walk over the joined rows that checks positions and alignment and adds up the sizes. */
    method CheckRows(file: string, payload: nat) returns (error: Option<Error>, size: nat)
      ensures error == FirstRowError(RowsOf(State(), file), segments, payload, 0)
      ensures error.None? ==> size == Used(RowsOf(State(), file), segments)
    {
      var attached := RowsOf(State(), file);
      size := 0;
      for position := 0 to |attached|
        invariant FirstRowError(attached, segments, payload, 0) == FirstRowError(attached, segments, payload, position)
        invariant size + Used(attached[position..], segments) == Used(attached, segments)
      {
        var segmentSize := SizeOf(attached[position], segments);
        if attached[position].index != position { return Some(SegmentGap), size; }
        if position + 1 < |attached| && !MultipleOf(segmentSize, payload) { return Some(MisalignedSegment), size; }
        assert attached[position..][1..] == attached[position + 1..];
        size := size + segmentSize;
      }
      return None, size;
    }

    method CompleteFile(file: string, payload: nat, now: int) returns (error: Option<Error>)
      modifies this
      ensures Reply(State(), error) == Complete(old(State()), file, payload, now)
    {
      hide FirstRowError, Used;
      if file !in files { return Some(NotFound); }
      if files[file].completedAt.Some? { return Some(Completed); }
      if HasPending(RowsOf(State(), file)) { return Some(UploadInProgress); }
      var wrong, size := CheckRows(file, payload);
      if wrong.Some? { return wrong; }
      if size > files[file].expected { return Some(AllocationExceeded); }
      files := files[file := files[file].(completedAt := Some(now), size := Some(size))];
      return None;
    }

    /** `completed_file`, with nothing in between its two queries. */
    method CompletedFile(file: string) returns (r: Result<(nat, seq<Segment>), Error>)
      ensures CompletedSize(State(), file).Err? ==> r == Err(CompletedSize(State(), file).error)
      ensures CompletedSize(State(), file).Ok? ==>
                r == Ok((CompletedSize(State(), file).value, Objects(RowsOf(State(), file), segments)))
    {
      var size := CompletedSize(State(), file);
      if size.Err? { return Err(size.error); }
      return Ok((size.value, Objects(RowsOf(State(), file), segments)));
    }
  }

  // ---- The range of a request ------------------------------------------------------------------

  /** A `Range` header after its numbers are parsed. */
  datatype RangeHeader = NoRange | Malformed | Suffix(length: nat) | From(start: nat) | Closed(start: nat, last: nat)

  /** The bytes of a file of this size that the header asks for. */
  predicate Wants(header: RangeHeader, size: nat, k: nat) {
    k < size && match header
                case NoRange => true
                case Malformed => false
                case Suffix(length) => k + length >= size
                case From(start) => start <= k
                case Closed(start, last) => start <= k <= last
  }

  /** Refused exactly when nothing can be served; otherwise the bytes wanted, as one range. */
  function ParseRange(header: RangeHeader, size: nat): (r: Option<(nat, nat)>)
    requires size <= U64_MAX
    ensures r.Some? && !header.NoRange? ==> r.value.0 < r.value.1 <= size
    ensures r.Some? ==> forall k: nat :: Wants(header, size, k) <==> r.value.0 <= k < r.value.1
    ensures r.None? ==> forall k: nat :: !Wants(header, size, k)
  {
    match header
    case NoRange => Some((0, size))
    case Malformed => None
    case Suffix(length) => if length == 0 || size == 0 then None else Some((Max(size - length, 0), size))
    case From(start) => if start >= size then None else Some((start, size))
    case Closed(start, last) =>
      if start >= size then None
      else
        var end := Min(Min(last + 1, U64_MAX), size);
        if start >= end then None else Some((start, end))
  }
}
