/**
 When the files catalog accepts what it is asked for: the exact conditions under which a file is
 created, an index reserved and a segment attached, and every other outcome told apart.
 */
module FilesAcceptance {
  import opened Basics
  import opened Segments
  import opened FilesModel
  import opened FilesSafety

  predicate OpenFile(t: Tables, file: string) {
    file in t.files && t.files[file].completedAt.None?
  }

  /** No row, reserved or attached, has this index. */
  ghost predicate FreeIndex(rows: seq<Row>, index: nat) {
    forall r | r in rows :: r.index != index
  }

  /** With this many bytes more the file is still within what it declared; filling it up is. */
  predicate Fits(t: Tables, file: string, size: nat)
    requires file in t.files
  {
    Used(RowsOf(t, file), t.segments) + size <= t.files[file].expected
  }

  /** The table takes the segment: its id is new, and it has bytes and frames. */
  predicate Insertable(t: Tables, id: string, segment: Segment) {
    id !in t.segments && segment.frameCount > 0 && segment.size > 0
  }

  /** Everything but the file is as it was. */
  ghost predicate OnlyFile(t: Tables, u: Tables, file: string) {
    && (forall other | other != file :: RowsOf(u, other) == RowsOf(t, other))
    && (forall other | other != file :: other in u.files <==> other in t.files)
    && (forall other | other != file && other in t.files :: u.files[other] == t.files[other])
  }

  // ---- Creating and reserving ----------------------------------------------------------------------

  /** A file is created exactly if its id is new and its size can be stored; it is open and declares that size. */
  lemma CreatesIff(t: Tables, file: string, expected: nat)
    ensures var reply := CreateFile(t, file, expected);
            && (reply.error.None? <==> file !in t.files && expected <= I64_MAX)
            && (reply.error.Some? ==> reply == Reply(t, Some(Database)))
            && (reply.error.None? ==>
                  && OpenFile(reply.tables, file) && reply.tables.files[file].expected == expected
                  && RowsOf(reply.tables, file) == RowsOf(t, file) && reply.tables.segments == t.segments)
            && OnlyFile(t, reply.tables, file)
  {
  }

  lemma FindsIff(rows: seq<Row>, index: nat)
    ensures Find(rows, index).None? <==> FreeIndex(rows, index)
  {
    if Find(rows, index).None? {
      forall r | r in rows ensures r.index != index { var i :| 0 <= i < |rows| && rows[i] == r; }
    }
  }

  /** An inserted reservation stands and takes up nothing. */
  lemma {:induction false} InsertReserves(rows: seq<Row>, index: nat, segments: map<string, Segment>)
    requires Find(rows, index).None?
    ensures Reserved(Insert(rows, index), index) && Used(Insert(rows, index), segments) == Used(rows, segments)
    ensures forall r :: r in Insert(rows, index) <==> r in rows || r == Row(index, None)
  {
    if rows != [] && index >= rows[0].index {
      assert rows[0].index != index;
      InsertReserves(rows[1..], index, segments);
      assert Insert(rows, index)[1..] == Insert(rows[1..], index);
    } else {
      assert ([Row(index, None)] + rows)[1..] == rows;
    }
  }

  /** An index is reserved exactly if the file is open and the index free, and each refusal has its own error. */
  lemma ReservesIff(t: Tables, file: string, index: nat)
    ensures var reply := Reserve(t, file, index);
            && (reply.error.None? <==> OpenFile(t, file) && FreeIndex(RowsOf(t, file), index))
            && (reply.error == Some(NotFound) <==> file !in t.files)
            && (reply.error == Some(Completed) <==> file in t.files && !OpenFile(t, file))
            && (reply.error == Some(IndexExists) <==> OpenFile(t, file) && !FreeIndex(RowsOf(t, file), index))
            && (reply.error.Some? ==> reply.tables == t)
            && (reply.error.None? ==>
                  && reply.tables.files == t.files && reply.tables.segments == t.segments
                  && (forall r :: r in RowsOf(reply.tables, file) <==> r in RowsOf(t, file) || r == Row(index, None)))
            && OnlyFile(t, reply.tables, file)
  {
    hide Find, Insert, FreeIndex, Used, Reserved;
    FindsIff(RowsOf(t, file), index);
    if Find(RowsOf(t, file), index).None? { InsertReserves(RowsOf(t, file), index, t.segments); }
  }

  // ---- Attaching -------------------------------------------------------------------------------------

  /** With one row an index, a reservation stands exactly if its row is there. */
  lemma ReservedIff(rows: seq<Row>, index: nat)
    requires Sorted(rows)
    ensures Reserved(rows, index) <==> Row(index, None) in rows
  {
    if Row(index, None) in rows {
      var i :| 0 <= i < |rows| && rows[i] == Row(index, None);
      assert Find(rows, index).Some?;
    }
  }

  /**
   A segment is attached exactly if the file exists and is open, the reservation stands, the id is
   new, the segment has bytes and frames, and it fits the allocation. It is refused as too large
   exactly if it does not fit an open file, and every other refusal has its own error.
   */
  lemma AttachesIff(t: Tables, file: string, index: nat, id: string, segment: Segment)
    requires Sorted(RowsOf(t, file))
    ensures var error, reserved := Attach(t, file, index, id, segment).error, Row(index, None) in RowsOf(t, file);
            && (error.None? <==>
                  OpenFile(t, file) && Fits(t, file, segment.size) && Insertable(t, id, segment) && reserved)
            && (error == Some(NotFound) <==> file !in t.files)
            && (error == Some(Completed) <==> file in t.files && !OpenFile(t, file))
            && (error == Some(AllocationExceeded) <==> OpenFile(t, file) && !Fits(t, file, segment.size))
            && (error == Some(Database) <==>
                  OpenFile(t, file) && Fits(t, file, segment.size) && !Insertable(t, id, segment))
            && (error == Some(IndexExists) <==>
                  OpenFile(t, file) && Fits(t, file, segment.size) && Insertable(t, id, segment) && !reserved)
  {
    hide Used, Reserved, Sorted, Fill;
    ReservedIff(RowsOf(t, file), index);
  }

  /**
   What an attachment leaves: the segment, at its index in place of the reservation, with the bytes
   in use grown by exactly its size. A refusal leaves everything but, beyond the allocation, the reservation.
   */
  lemma AttachLeaves(t: Tables, payload: nat, file: string, index: nat, id: string, segment: Segment)
    requires Inv(t, payload)
    ensures var reply := Attach(t, file, index, id, segment);
            && OnlyFile(t, reply.tables, file) && reply.tables.files == t.files
            && (reply.error.None? ==>
                  && reply.tables.segments == t.segments[id := segment]
                  && (forall r :: r in RowsOf(reply.tables, file)
                        <==> (r in RowsOf(t, file) && r.index != index) || r == Row(index, Some(id)))
                  && Used(RowsOf(reply.tables, file), reply.tables.segments) == Used(RowsOf(t, file), t.segments) + segment.size)
            && (reply.error.Some? ==>
                  && reply.tables.segments == t.segments
                  && forall r :: r in RowsOf(reply.tables, file)
                       <==> r in RowsOf(t, file) && !(reply.error == Some(AllocationExceeded) && r == Row(index, None)))
  {
    hide Inv, Used, Fill, Find, Keep;
    RowsOfOk(t, payload, file);
    KeepMembers(RowsOf(t, file), (r: Row) => r.index != index || r.segment.Some?);
    if Attach(t, file, index, id, segment).error.None? { FillLeaves(t, file, index, id, segment); }
  }

  lemma FillLeaves(t: Tables, file: string, index: nat, id: string, segment: Segment)
    requires Sorted(RowsOf(t, file)) && forall r | r in RowsOf(t, file) && r.segment.Some? :: r.segment.value in t.segments
    requires Reserved(RowsOf(t, file), index) && id !in t.segments
    ensures var rows := Fill(RowsOf(t, file), index, id);
            && (forall r :: r in rows <==> (r in RowsOf(t, file) && r.index != index) || r == Row(index, Some(id)))
            && Used(rows, t.segments[id := segment]) == Used(RowsOf(t, file), t.segments) + segment.size
  {
    hide Used;
    var rows, at := RowsOf(t, file), Find(RowsOf(t, file), index).value;
    NewSegment(rows, t.segments, id, segment);
    FillAdds(rows, at, id, t.segments[id := segment]);
    var filled := Fill(rows, index, id);
    assert filled[at] == Row(index, Some(id));
    forall r | r in rows && r.index != index ensures r in filled {
      var i :| 0 <= i < |rows| && rows[i] == r;
      assert filled[i] == r;
    }
  }

  // ---- Uploading without interference ---------------------------------------------------------------

  /** After its reservation the segment of an upload is attached on the same terms, save that the index was free. */
  lemma UploadAccepted(t: Tables, file: string, index: nat, id: string, segment: Segment)
    requires Reserve(t, file, index).error.None?
    ensures Attach(Reserve(t, file, index).tables, file, index, id, segment).error
         == if !Fits(t, file, segment.size) then Some(AllocationExceeded)
            else if !Insertable(t, id, segment) then Some(Database)
            else None
  {
    hide Used, Find, Insert, Reserved;
    InsertReserves(RowsOf(t, file), index, t.segments);
  }

  // ---- Completing and cancelling ---------------------------------------------------------------------

  /** Completing and cancelling concern the one file; completing leaves its rows and what it declared. */
  lemma OthersStay(t: Tables, payload: nat, file: string, index: nat, now: int)
    ensures OnlyFile(t, Complete(t, file, payload, now).tables, file) && OnlyFile(t, Cancel(t, file, index), file)
    ensures var u := Complete(t, file, payload, now).tables;
            && u.rows == t.rows && u.segments == t.segments
            && (file in u.files <==> file in t.files) && (file in t.files ==> u.files[file].expected == t.files[file].expected)
    ensures Cancel(t, file, index).files == t.files && Cancel(t, file, index).segments == t.segments
  {
    hide Used, FirstRowError, HasPending, Keep;
  }

  /** The rows before `i` are where they belong and aligned. */
  ghost predicate SoundBefore(rows: seq<Row>, segments: map<string, Segment>, payload: nat, i: nat)
    requires i <= |rows|
  {
    forall j | 0 <= j < i :: rows[j].index == j && (j + 1 < |rows| ==> MultipleOf(SizeOf(rows[j], segments), payload))
  }

  /** The first row out of place. */
  ghost predicate GapAt(rows: seq<Row>, segments: map<string, Segment>, payload: nat, i: nat) {
    i < |rows| && SoundBefore(rows, segments, payload, i) && rows[i].index != i
  }

  /** The first row, not the last of all, that is in place and not aligned. */
  ghost predicate MisalignedAt(rows: seq<Row>, segments: map<string, Segment>, payload: nat, i: nat) {
    && i + 1 < |rows| && SoundBefore(rows, segments, payload, i)
    && rows[i].index == i && !MultipleOf(SizeOf(rows[i], segments), payload)
  }

  lemma {:induction false} FirstErrorIs(rows: seq<Row>, segments: map<string, Segment>, payload: nat, from: nat)
    requires from <= |rows| && SoundBefore(rows, segments, payload, from)
    ensures var error := FirstRowError(rows, segments, payload, from);
            && (error == Some(SegmentGap) <==> exists i: nat :: GapAt(rows, segments, payload, i))
            && (error == Some(MisalignedSegment) <==> exists i: nat :: MisalignedAt(rows, segments, payload, i))
    decreases |rows| - from
  {
    if from < |rows| {
      if RowError(rows, segments, payload, from).None? {
        FirstErrorIs(rows, segments, payload, from + 1);
      } else if rows[from].index != from {
        assert GapAt(rows, segments, payload, from);
      } else {
        assert MisalignedAt(rows, segments, payload, from);
      }
    }
  }

  /**
   A file is completed exactly if it is open, nothing is pending and every row is in place and all but
   the last are aligned; each refusal has its own error, and the first bad row decides. A completed
   file records the instant and the size of what was uploaded.
   */
  lemma CompletesIff(t: Tables, payload: nat, file: string, now: int)
    requires Inv(t, payload)
    ensures var reply, rows := Complete(t, file, payload, now), RowsOf(t, file);
            var settled := OpenFile(t, file) && forall r | r in rows :: r.segment.Some?;
            && (reply.error == Some(NotFound) <==> file !in t.files)
            && (reply.error == Some(Completed) <==> file in t.files && !OpenFile(t, file))
            && (reply.error == Some(UploadInProgress) <==> OpenFile(t, file) && !settled)
            && (reply.error == Some(SegmentGap) <==> settled && exists i: nat :: GapAt(rows, t.segments, payload, i))
            && (reply.error == Some(MisalignedSegment) <==>
                  settled && exists i: nat :: MisalignedAt(rows, t.segments, payload, i))
            && (reply.error.None? <==> settled && SoundBefore(rows, t.segments, payload, |rows|))
            && (reply.error.None? ==>
                  file in t.files && file in reply.tables.files
                  && reply.tables.files[file] == File(t.files[file].expected, Some(now), Some(Used(rows, t.segments))))
            && (reply.error.Some? ==> reply.tables == t)
  {
    hide Inv, Used, Whole, GapAt, MisalignedAt, FirstRowError, SoundBefore;
    var rows := RowsOf(t, file);
    CompletesExactly(t, payload, file, now);
    WholeIff(rows, t.segments, payload);
    PendingIff(rows);
    NothingBefore(rows, t.segments, payload);
    FirstErrorIs(rows, t.segments, payload, 0);
  }

  lemma NothingBefore(rows: seq<Row>, segments: map<string, Segment>, payload: nat)
    ensures SoundBefore(rows, segments, payload, 0)
  {
  }

  lemma PendingIff(rows: seq<Row>)
    ensures HasPending(rows) <==> exists r | r in rows :: r.segment.None?
  {
    if exists r | r in rows :: r.segment.None? {
      var r :| r in rows && r.segment.None?;
      var i :| 0 <= i < |rows| && rows[i] == r;
    }
  }

  lemma WholeIff(rows: seq<Row>, segments: map<string, Segment>, payload: nat)
    ensures Whole(rows, segments, payload)
       <==> SoundBefore(rows, segments, payload, |rows|) && forall r | r in rows :: r.segment.Some?
  {
    if SoundBefore(rows, segments, payload, |rows|) && forall r | r in rows :: r.segment.Some? {
      forall i | 0 <= i < |rows|
        ensures rows[i].segment.Some? && rows[i].index == i && (i + 1 < |rows| ==> MultipleOf(SizeOf(rows[i], segments), payload))
      {
        assert rows[i] in rows;
      }
    }
    if Whole(rows, segments, payload) {
      forall r | r in rows ensures r.segment.Some? { var i :| 0 <= i < |rows| && rows[i] == r; }
      forall j | 0 <= j < |rows|
        ensures rows[j].index == j && (j + 1 < |rows| ==> MultipleOf(SizeOf(rows[j], segments), payload))
      {
        assert rows[j].segment.Some?;
      }
    }
  }
}
