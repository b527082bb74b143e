/**
 What every transaction of the files catalog keeps, in any interleaving and across restarts:
 no file holds more than its allocation, and a completed file is whole, aligned and final.
 */
module FilesSafety {
  import opened Basics
  import opened Segments
  import opened FilesModel

  ghost predicate RowsOk(t: Tables, file: string)
    requires file in t.rows
  {
    && Sorted(t.rows[file])
    && (t.rows[file] != [] ==> file in t.files)
    && forall i | 0 <= i < |t.rows[file]| ::
         t.rows[file][i].segment.Some? ==> t.rows[file][i].segment.value in t.segments
  }

  /** A completed file's rows: no reservation, indices from 0 without a gap, aligned but for the last. */
  ghost predicate Whole(rows: seq<Row>, segments: map<string, Segment>, payload: nat) {
    forall i | 0 <= i < |rows| ::
      rows[i].segment.Some? && rows[i].index == i && (i + 1 < |rows| ==> MultipleOf(SizeOf(rows[i], segments), payload))
  }

  ghost predicate FileOk(t: Tables, payload: nat, file: string)
    requires file in t.files
  {
    && Used(RowsOf(t, file), t.segments) <= t.files[file].expected
    && (t.files[file].completedAt.Some? <==> t.files[file].size.Some?)
    && (t.files[file].completedAt.Some? ==>
          Whole(RowsOf(t, file), t.segments, payload) && t.files[file].size == Some(Used(RowsOf(t, file), t.segments)))
  }

  ghost predicate Inv(t: Tables, payload: nat) {
    && (forall file | file in t.rows :: RowsOk(t, file))
    && (forall file | file in t.files :: FileOk(t, payload, file))
  }

  // ---- Rows under each change --------------------------------------------------------------------

  lemma {:induction false} InsertKeeps(rows: seq<Row>, index: nat, segments: map<string, Segment>)
    requires Sorted(rows) && Find(rows, index).None?
    ensures Sorted(Insert(rows, index)) && Used(Insert(rows, index), segments) == Used(rows, segments)
    ensures forall r :: r in Insert(rows, index) <==> r in rows || r == Row(index, None)
  {
    if rows != [] && index >= rows[0].index {
      assert rows[0].index != index;
      InsertKeeps(rows[1..], index, segments);
      var rest := Insert(rows[1..], index);
      forall i | 0 <= i < |rest| ensures rows[0].index < rest[i].index {
        assert rest[i] in rest;
      }
    }
  }

  lemma {:induction false} KeepMembers(rows: seq<Row>, wanted: Row -> bool)
    ensures forall r :: r in Keep(rows, wanted) <==> r in rows && wanted(r)
  {
    if rows != [] { KeepMembers(rows[1..], wanted); }
  }

  lemma {:induction false} KeepSorted(rows: seq<Row>, wanted: Row -> bool)
    requires Sorted(rows)
    ensures Sorted(Keep(rows, wanted))
  {
    if rows != [] {
      var rest := Keep(rows[1..], wanted);
      KeepSorted(rows[1..], wanted);
      KeepMembers(rows[1..], wanted);
      forall i | 0 <= i < |rest| ensures rows[0].index < rest[i].index {
        assert rest[i] in rest && rest[i] in rows[1..];
      }
      assert wanted(rows[0]) ==> Keep(rows, wanted) == [rows[0]] + rest;
    }
  }

  /** Dropping reservations loses no attached byte. */
  lemma {:induction false} KeepUsed(rows: seq<Row>, wanted: Row -> bool, segments: map<string, Segment>)
    requires forall r | r in rows && r.segment.Some? :: wanted(r)
    ensures Used(Keep(rows, wanted), segments) == Used(rows, segments)
  {
    if rows != [] {
      assert rows[0] in rows && forall r | r in rows[1..] :: r in rows;
      KeepUsed(rows[1..], wanted, segments);
      var rest := Keep(rows[1..], wanted);
      assert [] + rest == rest && ([rows[0]] + rest)[1..] == rest;
    }
  }

  /** With nothing to drop, nothing changes. */
  lemma {:induction false} KeepAll(rows: seq<Row>, wanted: Row -> bool)
    requires forall r | r in rows :: wanted(r)
    ensures Keep(rows, wanted) == rows
  {
    if rows != [] { KeepAll(rows[1..], wanted); }
  }

  /** Attaching at a reservation adds exactly the segment's size. */
  lemma {:induction false} FillAdds(rows: seq<Row>, at: nat, id: string, segments: map<string, Segment>)
    requires at < |rows| && rows[at].segment.None? && id in segments
    ensures Used(rows[at := Row(rows[at].index, Some(id))], segments) == Used(rows, segments) + segments[id].size
  {
    var filled := rows[at := Row(rows[at].index, Some(id))];
    if at == 0 {
      assert filled[1..] == rows[1..];
    } else {
      assert filled[1..] == rows[1..][at - 1 := Row(rows[at].index, Some(id))];
      FillAdds(rows[1..], at - 1, id, segments);
    }
  }

  /** Segments nobody refers to yet change no total. */
  lemma {:induction false} NewSegment(rows: seq<Row>, segments: map<string, Segment>, id: string, segment: Segment)
    requires id !in segments && forall r | r in rows && r.segment.Some? :: r.segment.value in segments
    ensures Used(rows, segments[id := segment]) == Used(rows, segments)
    ensures Objects(rows, segments[id := segment]) == Objects(rows, segments)
  {
    if rows != [] {
      assert rows[0] in rows && forall r | r in rows[1..] :: r in rows;
      NewSegment(rows[1..], segments, id, segment);
    }
  }

  // ---- Each transaction ------------------------------------------------------------------------------

  /** A transaction that only changes one file's rows, keeping what they attach. */
  lemma RowsChangeKeeps(t: Tables, payload: nat, file: string, rows: seq<Row>)
    requires Inv(t, payload) && Sorted(rows) && (rows != [] ==> file in t.files)
    requires forall r | r in rows && r.segment.Some? :: r.segment.value in t.segments
    requires Used(rows, t.segments) == Used(RowsOf(t, file), t.segments)
    requires file in t.files && t.files[file].completedAt.Some? ==> rows == RowsOf(t, file)
    ensures Inv(t.(rows := t.rows[file := rows]), payload)
  {
    var after := t.(rows := t.rows[file := rows]);
    forall other | other in after.rows ensures RowsOk(after, other) {
      if other != file { assert RowsOk(t, other); }
    }
    forall other | other in after.files ensures FileOk(after, payload, other) {
      assert FileOk(t, payload, other);
    }
  }

  lemma RowsOfOk(t: Tables, payload: nat, file: string)
    requires Inv(t, payload)
    ensures Sorted(RowsOf(t, file)) && (RowsOf(t, file) != [] ==> file in t.files)
    ensures forall r | r in RowsOf(t, file) && r.segment.Some? :: r.segment.value in t.segments
    ensures file in t.files && t.files[file].completedAt.Some? ==> forall r | r in RowsOf(t, file) :: r.segment.Some?
  {
    if file in t.rows { assert RowsOk(t, file); }
    if file in t.files { assert FileOk(t, payload, file); }
  }

  lemma ReserveKeeps(t: Tables, payload: nat, file: string, index: nat)
    requires Inv(t, payload)
    ensures Inv(Reserve(t, file, index).tables, payload)
  {
    if Reserve(t, file, index).error.None? {
      RowsOfOk(t, payload, file);
      InsertKeeps(RowsOf(t, file), index, t.segments);
      RowsChangeKeeps(t, payload, file, Insert(RowsOf(t, file), index));
    }
  }

  lemma DropKeeps(t: Tables, payload: nat, file: string, wanted: Row -> bool)
    requires Inv(t, payload) && forall r: Row | r.segment.Some? :: wanted(r)
    ensures Inv(t.(rows := t.rows[file := Keep(RowsOf(t, file), wanted)]), payload)
    ensures file in t.files && t.files[file].completedAt.Some? ==> Keep(RowsOf(t, file), wanted) == RowsOf(t, file)
  {
    hide Inv, Used, Sorted;
    var rows := RowsOf(t, file);
    RowsOfOk(t, payload, file);
    KeepMembers(rows, wanted);
    KeepSorted(rows, wanted);
    KeepUsed(rows, wanted, t.segments);
    if file in t.files && t.files[file].completedAt.Some? { KeepAll(rows, wanted); }
    if Keep(rows, wanted) != [] { assert Keep(rows, wanted)[0] in rows; }
    RowsChangeKeeps(t, payload, file, Keep(rows, wanted));
  }

  lemma CancelKeeps(t: Tables, payload: nat, file: string, index: nat)
    requires Inv(t, payload)
    ensures Inv(Cancel(t, file, index), payload)
    ensures file in t.files && t.files[file].completedAt.Some? ==> RowsOf(Cancel(t, file, index), file) == RowsOf(t, file)
  {
    hide Inv;
    DropKeeps(t, payload, file, (r: Row) => r.index != index || r.segment.Some?);
  }

  /** A restart drops every reservation and nothing else. */
  lemma PurgeKeeps(t: Tables, payload: nat)
    requires Inv(t, payload)
    ensures Inv(Purge(t), payload)
    ensures forall file | file in t.files && t.files[file].completedAt.Some? :: RowsOf(Purge(t), file) == RowsOf(t, file)
    ensures forall file, r :: r in RowsOf(Purge(t), file) <==> r in RowsOf(t, file) && r.segment.Some?
  {
    var after := Purge(t);
    forall file, r ensures r in RowsOf(after, file) <==> r in RowsOf(t, file) && r.segment.Some? {
      KeepMembers(RowsOf(t, file), (x: Row) => x.segment.Some?);
    }
    forall file | file in t.rows
      ensures RowsOk(after, file)
      ensures file in t.files ==> FileOk(after, payload, file)
      ensures file in t.files && t.files[file].completedAt.Some? ==> RowsOf(after, file) == RowsOf(t, file)
    {
      DropKeeps(t, payload, file, (r: Row) => r.segment.Some?);
      var one := t.(rows := t.rows[file := Attached(t.rows[file])]);
      assert RowsOk(one, file) && one.rows[file] == after.rows[file];
      assert file in t.files ==> FileOk(one, payload, file);
    }
    forall file | file in after.files ensures FileOk(after, payload, file) {
      assert FileOk(t, payload, file);
    }
  }

  lemma CreateKeeps(t: Tables, payload: nat, file: string, expected: nat)
    requires Inv(t, payload)
    ensures Inv(CreateFile(t, file, expected).tables, payload)
  {
    var reply := CreateFile(t, file, expected);
    if reply.error.None? {
      RowsOfOk(t, payload, file);
      forall other | other in reply.tables.rows ensures RowsOk(reply.tables, other) {
        assert RowsOk(t, other);
      }
      forall other | other in reply.tables.files ensures FileOk(reply.tables, payload, other) {
        if other != file { assert FileOk(t, payload, other); }
      }
    }
  }

  /** A new segment in the table disturbs nobody. */
  lemma SegmentInsertKeeps(t: Tables, payload: nat, id: string, segment: Segment)
    requires Inv(t, payload) && id !in t.segments
    ensures Inv(t.(segments := t.segments[id := segment]), payload)
  {
    var after := t.(segments := t.segments[id := segment]);
    forall file | file in t.rows ensures RowsOk(after, file) {
      assert RowsOk(t, file);
    }
    forall file | file in t.files ensures FileOk(after, payload, file) {
      assert FileOk(t, payload, file);
      RowsOfOk(t, payload, file);
      NewSegment(RowsOf(t, file), t.segments, id, segment);
    }
  }

  lemma FillKeeps(t: Tables, payload: nat, file: string, index: nat, id: string)
    requires Inv(t, payload) && file in t.files && t.files[file].completedAt.None?
    requires Reserved(RowsOf(t, file), index) && id in t.segments
    requires Used(RowsOf(t, file), t.segments) + t.segments[id].size <= t.files[file].expected
    ensures Inv(t.(rows := t.rows[file := Fill(RowsOf(t, file), index, id)]), payload)
  {
    var rows := RowsOf(t, file);
    var after := t.(rows := t.rows[file := Fill(rows, index, id)]);
    RowsOfOk(t, payload, file);
    FillAdds(rows, Find(rows, index).value, id, t.segments);
    forall other | other in after.rows ensures RowsOk(after, other) {
      if other != file { assert RowsOk(t, other); } else { FillSorted(rows, index, id, t.segments); }
    }
    forall other | other in after.files ensures FileOk(after, payload, other) {
      assert FileOk(t, payload, other);
    }
  }

  lemma FillSorted(rows: seq<Row>, index: nat, id: string, segments: map<string, Segment>)
    requires Sorted(rows) && Reserved(rows, index) && id in segments
    requires forall r | r in rows && r.segment.Some? :: r.segment.value in segments
    ensures Sorted(Fill(rows, index, id))
    ensures forall r | r in Fill(rows, index, id) && r.segment.Some? :: r.segment.value in segments
  {
  }

  lemma AttachKeeps(t: Tables, payload: nat, file: string, index: nat, id: string, segment: Segment)
    requires Inv(t, payload)
    ensures Inv(Attach(t, file, index, id, segment).tables, payload)
  {
    var reply := Attach(t, file, index, id, segment);
    hide Inv;
    if reply.error == Some(AllocationExceeded) {
      CancelKeeps(t, payload, file, index);
    } else if reply.error.None? {
      RowsOfOk(t, payload, file);
      NewSegment(RowsOf(t, file), t.segments, id, segment);
      SegmentInsertKeeps(t, payload, id, segment);
      FillKeeps(t.(segments := t.segments[id := segment]), payload, file, index, id);
    }
  }

  lemma CompleteKeeps(t: Tables, payload: nat, file: string, now: int)
    requires Inv(t, payload)
    ensures Inv(Complete(t, file, payload, now).tables, payload)
  {
    var reply := Complete(t, file, payload, now);
    if reply.error.None? {
      forall other | other in t.rows ensures RowsOk(reply.tables, other) {
        assert RowsOk(t, other);
      }
      forall other | other in reply.tables.files ensures FileOk(reply.tables, payload, other) {
        if other != file {
          assert FileOk(t, payload, other);
        } else {
          CompletedIsWhole(RowsOf(t, file), t.segments, payload);
        }
      }
    }
  }

  lemma CompletedIsWhole(rows: seq<Row>, segments: map<string, Segment>, payload: nat)
    ensures !HasPending(rows) && FirstRowError(rows, segments, payload, 0).None? <==> Whole(rows, segments, payload)
  {
    if Whole(rows, segments, payload) {
      forall i | 0 <= i < |rows| ensures RowError(rows, segments, payload, i).None? {
        assert rows[i].segment.Some?;
      }
    } else if !HasPending(rows) && FirstRowError(rows, segments, payload, 0).None? {
      forall i | 0 <= i < |rows|
        ensures rows[i].segment.Some? && rows[i].index == i && (i + 1 < |rows| ==> MultipleOf(SizeOf(rows[i], segments), payload))
      {
        assert RowError(rows, segments, payload, i).None?;
      }
    }
  }

  lemma StepKeeps(t: Tables, payload: nat, op: Op)
    requires Inv(t, payload)
    ensures Inv(Apply(t, payload, op).tables, payload)
  {
    hide Inv, CreateFile, Reserve, Cancel, Attach, Complete, Purge;
    match op
    case Create(file, expected) => CreateKeeps(t, payload, file, expected);
    case ReserveAt(file, index) => ReserveKeeps(t, payload, file, index);
    case CancelAt(file, index) => CancelKeeps(t, payload, file, index);
    case AttachAt(file, index, id, segment) => AttachKeeps(t, payload, file, index, id, segment);
    case CompleteAt(file, now) => CompleteKeeps(t, payload, file, now);
    case Restart => PurgeKeeps(t, payload);
  }

  /** Whatever the handlers do and however often the server restarts. */
  lemma {:induction false} RunKeeps(t: Tables, payload: nat, ops: seq<Op>)
    requires Inv(t, payload)
    ensures Inv(Run(t, payload, ops), payload)
  {
    hide Inv, Apply;
    if ops != [] {
      RunKeeps(t, payload, ops[..|ops| - 1]);
      StepKeeps(Run(t, payload, ops[..|ops| - 1]), payload, ops[|ops| - 1]);
    }
  }

  /** The safety of every reachable catalog. */
  lemma FilesSafe(payload: nat, ops: seq<Op>, file: string)
    requires file in Run(EMPTY, payload, ops).files
    ensures var t := Run(EMPTY, payload, ops);
            var rows, row := RowsOf(t, file), t.files[file];
            && Sorted(rows) && Used(rows, t.segments) <= row.expected
            && (row.completedAt.Some? ==> Whole(rows, t.segments, payload) && row.size == Some(Used(rows, t.segments)))
  {
    RunKeeps(EMPTY, payload, ops);
    hide Run;
    RowsOfOk(Run(EMPTY, payload, ops), payload, file);
    assert FileOk(Run(EMPTY, payload, ops), payload, file);
  }

  // ---- Completed files are final ---------------------------------------------------------------------------

  /** The later tables hold the same completed file, segment by segment. */
  ghost predicate SameFile(t: Tables, later: Tables, file: string) {
    && file in t.files && file in later.files && later.files[file] == t.files[file]
    && RowsOf(later, file) == RowsOf(t, file)
    && forall r | r in RowsOf(t, file) && r.segment.Some? ::
         && r.segment.value in t.segments && r.segment.value in later.segments
         && later.segments[r.segment.value] == t.segments[r.segment.value]
  }

  lemma StepIsFinal(t: Tables, payload: nat, op: Op, file: string)
    requires Inv(t, payload) && file in t.files && t.files[file].completedAt.Some?
    ensures SameFile(t, Apply(t, payload, op).tables, file)
  {
    hide Inv, SameFile, CreateFile, Reserve, Cancel, Attach, Complete, Purge;
    match op
    case Create(other, expected) => CreateIsFinal(t, payload, other, expected, file);
    case ReserveAt(other, index) => ReserveIsFinal(t, payload, other, index, file);
    case CancelAt(other, index) => CancelIsFinal(t, payload, other, index, file);
    case AttachAt(other, index, id, segment) => AttachIsFinal(t, payload, other, index, id, segment, file);
    case CompleteAt(other, now) => CompleteIsFinal(t, payload, other, now, file);
    case Restart => PurgeIsFinal(t, payload, file);
  }

  lemma CreateIsFinal(t: Tables, payload: nat, other: string, expected: nat, file: string)
    requires Inv(t, payload) && file in t.files
    ensures SameFile(t, CreateFile(t, other, expected).tables, file)
  {
    RowsOfOk(t, payload, file);
    hide Inv;
  }

  lemma ReserveIsFinal(t: Tables, payload: nat, other: string, index: nat, file: string)
    requires Inv(t, payload) && file in t.files && t.files[file].completedAt.Some?
    ensures SameFile(t, Reserve(t, other, index).tables, file)
  {
    hide Inv, Insert, Find, Sorted;
    RowsOfOk(t, payload, file);
  }

  lemma CancelIsFinal(t: Tables, payload: nat, other: string, index: nat, file: string)
    requires Inv(t, payload) && file in t.files && t.files[file].completedAt.Some?
    ensures SameFile(t, Cancel(t, other, index), file)
  {
    RowsOfOk(t, payload, file);
    CancelKeeps(t, payload, other, index);
    hide Inv, WithoutReservation;
  }

  lemma AttachIsFinal(t: Tables, payload: nat, other: string, index: nat, id: string, segment: Segment, file: string)
    requires Inv(t, payload) && file in t.files && t.files[file].completedAt.Some?
    ensures SameFile(t, Attach(t, other, index, id, segment).tables, file)
  {
    RowsOfOk(t, payload, file);
    CancelIsFinal(t, payload, other, index, file);
    hide Inv, Cancel, Fill, Used, Reserved;
  }

  lemma CompleteIsFinal(t: Tables, payload: nat, other: string, now: int, file: string)
    requires Inv(t, payload) && file in t.files && t.files[file].completedAt.Some?
    ensures SameFile(t, Complete(t, other, payload, now).tables, file)
  {
    RowsOfOk(t, payload, file);
    hide Inv, Used, FirstRowError, HasPending;
  }

  lemma PurgeIsFinal(t: Tables, payload: nat, file: string)
    requires Inv(t, payload) && file in t.files && t.files[file].completedAt.Some?
    ensures SameFile(t, Purge(t), file)
  {
    RowsOfOk(t, payload, file);
    PurgeKeeps(t, payload);
    hide Inv, Attached;
  }

  /** Nothing that happens later changes a completed file, so reading it in two queries is safe. */
  lemma {:induction false} CompletedIsFinal(t: Tables, payload: nat, ops: seq<Op>, file: string)
    requires Inv(t, payload) && file in t.files && t.files[file].completedAt.Some?
    ensures SameFile(t, Run(t, payload, ops), file)
    ensures CompletedSize(Run(t, payload, ops), file) == CompletedSize(t, file)
    ensures Objects(RowsOf(Run(t, payload, ops), file), Run(t, payload, ops).segments) == Objects(RowsOf(t, file), t.segments)
  {
    hide Inv, Apply;
    if ops == [] {
      RowsOfOk(t, payload, file);
    } else {
      var before := Run(t, payload, ops[..|ops| - 1]);
      CompletedIsFinal(t, payload, ops[..|ops| - 1], file);
      RunKeeps(t, payload, ops[..|ops| - 1]);
      StepIsFinal(before, payload, ops[|ops| - 1], file);
      SameObjects(RowsOf(t, file), t.segments, Run(t, payload, ops).segments);
    }
  }

  lemma {:induction false} SameObjects(rows: seq<Row>, segments: map<string, Segment>, later: map<string, Segment>)
    requires forall r | r in rows && r.segment.Some? ::
               r.segment.value in segments && r.segment.value in later && later[r.segment.value] == segments[r.segment.value]
    ensures Objects(rows, later) == Objects(rows, segments)
  {
    if rows != [] {
      assert rows[0] in rows && forall r | r in rows[1..] :: r in rows;
      SameObjects(rows[1..], segments, later);
    }
  }

  // ---- Exactly when a transaction succeeds ---------------------------------------------------------------------

  /** Completing succeeds exactly on an uncompleted file that is whole; the allocation is never the reason. */
  lemma CompletesExactly(t: Tables, payload: nat, file: string, now: int)
    requires Inv(t, payload)
    ensures Complete(t, file, payload, now).error.None?
       <==> file in t.files && t.files[file].completedAt.None? && Whole(RowsOf(t, file), t.segments, payload)
    ensures Complete(t, file, payload, now).error != Some(AllocationExceeded)
  {
    CompletedIsWhole(RowsOf(t, file), t.segments, payload);
    if file in t.files { assert FileOk(t, payload, file); }
  }

  /** A cancellation takes effect exactly if some reservation stands at the index, whoever made it. */
  lemma CancelsExactly(t: Tables, payload: nat, file: string, index: nat)
    requires Inv(t, payload)
    ensures RowsOf(Cancel(t, file, index), file) == RowsOf(t, file) <==> !Reserved(RowsOf(t, file), index)
  {
    var rows := RowsOf(t, file);
    var wanted := (r: Row) => r.index != index || r.segment.Some?;
    RowsOfOk(t, payload, file);
    KeepMembers(rows, wanted);
    if Reserved(rows, index) {
      assert rows[Find(rows, index).value] in rows;
    } else {
      forall r | r in rows ensures wanted(r) {
        var i :| 0 <= i < |rows| && rows[i] == r;
        var at := Find(rows, index);
        if at.Some? && r.index == index { assert i == at.value; }
      }
      KeepAll(rows, wanted);
    }
  }
}
