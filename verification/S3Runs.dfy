/**
 Runs of the S3 handlers: what stays of the past, when the leases stay in order, and when every
 size on record is that of the bytes it stands for.
 */
module S3Runs {
  import opened Basics
  import opened Frames
  import opened Segments
  import opened S3Model
  import opened S3Safety
  import opened S3Leases
  import opened S3Contents
  import opened S3Reads
  import opened S3Handlers

  // ---- Runs -------------------------------------------------------------------------------------------------

  lemma {:induction false} PrefixIsHonest(w: World, events: seq<Event>, payload: nat, n: nat)
    requires payload > 0 && n <= |events| && HonestRun(w, events, payload)
    ensures HonestRun(w, events[..n], payload)
    decreases |events|
  {
    hide Honest;
    if n == |events| {
      assert events[..n] == events;
    } else {
      assert events[..|events| - 1][..n] == events[..n];
      PrefixIsHonest(w, events[..|events| - 1], payload, n);
    }
  }

  /** The world after the first `n` events. */
  function At(now: int, events: seq<Event>, n: nat): World
    requires n <= |events|
  {
    Run(Start(now), events[..n])
  }

  lemma ReachesInvariant(now: int, events: seq<Event>, payload: nat, n: nat)
    requires payload > 0 && n <= |events| && HonestRun(Start(now), events, payload)
    ensures WorldInv(At(now, events, n), payload)
  {
    StartsInvariant(now, payload);
    PrefixIsHonest(Start(now), events, payload, n);
    RunKeepsWorld(Start(now), events[..n], payload);
  }

  lemma StepsOn(now: int, events: seq<Event>, n: nat)
    requires n < |events|
    ensures At(now, events, n + 1) == Act(At(now, events, n), events[n])
  {
    hide Act;
    assert events[..n + 1][..n] == events[..n] && events[..n + 1][n] == events[n];
  }

  lemma NextEvent(now: int, events: seq<Event>, payload: nat, n: nat)
    requires payload > 0 && n < |events| && HonestRun(Start(now), events, payload)
    ensures At(now, events, n + 1) == Act(At(now, events, n), events[n])
    ensures Honest(At(now, events, n), events[n], payload)
  {
    hide Act, Honest;
    assert events[..n + 1][..n] == events[..n] && events[..n + 1][n] == events[n];
    PrefixIsHonest(Start(now), events, payload, n + 1);
  }

  /** What an id was given, and what was deleted, stays so. */
  lemma {:induction false} HistoryGrows(now: int, events: seq<Event>, payload: nat, m: nat, n: nat)
    requires payload > 0 && m <= n <= |events| && HonestRun(Start(now), events, payload)
    ensures var w, u := At(now, events, m), At(now, events, n);
            && (forall owner | owner in w.given :: owner in u.given && u.given[owner] == w.given[owner])
            && w.s.deleted <= u.s.deleted && Later(w.s.t, u.s.t)
    decreases n
  {
    hide WorldInv, Act, Honest, Run, HonestRun, Later;
    if m == n {
      SameIsLater(At(now, events, n).s.t);
    } else {
      HistoryGrows(now, events, payload, m, n - 1);
      var w := At(now, events, n - 1);
      ReachesInvariant(now, events, payload, n - 1);
      NextEvent(now, events, payload, n - 1);
      GivenGrows(w, events[n - 1], payload);
      EventIsLater(w, events[n - 1]);
      LaterStill(At(now, events, m).s.t, w.s.t, At(now, events, n).s.t);
    }
  }

  lemma SameIsLater(t: Tables)
    ensures Later(t, t)
  {
  }

  lemma LaterStill(t: Tables, u: Tables, v: Tables)
    requires Later(t, u) && Later(u, v)
    ensures Later(t, v)
  {
  }

  lemma EventIsLater(w: World, e: Event)
    ensures Later(w.s.t, Act(w, e).s.t) && w.s.deleted <= Act(w, e).s.deleted
  {
    hide Take;
    if Access(w, e).Some? {
      StepIsLater(w.s, Access(w, e).value);
      StepErases(w.s, Access(w, e).value);
    } else {
      SameIsLater(w.s.t);
    }
  }

  // ---- Leases -----------------------------------------------------------------------------------------------------

  predicate WithinLease(records: seq<Record>, now: int) {
    forall i | 0 <= i < |records| :: now <= records[i].since + LEASE
  }

  /**
   The clock never falls back, what a handler stored or read it links within the hour, and nothing
   a completed upload links is an orphan by then.
   */
  predicate Punctual(w: World, e: Event) {
    && (Access(w, e).Some? ==> Timely(w.s, Access(w, e).value))
    && (e.LinkUpload? && Uploaded(w, e.h) ==> WithinLease(w.handlers[e.h].records, e.now))
    && (e.LinkCopy? && ReadyToCopy(w, e.h) ==> WithinLease(w.handlers[e.h].records, e.now))
    && (e.CompleteUpload? && Joined(w, e.h) ==> Unmarked(w.s.t, Ids(w.handlers[e.h].records)))
  }

  /** Every one of the first `n` events is punctual. */
  ghost predicate PunctualRun(now: int, events: seq<Event>, n: nat)
    requires n <= |events|
  {
    forall j | 0 <= j < n :: Punctual(At(now, events, j), events[j])
  }

  lemma LeasesRun(s: Sys, records: seq<Record>, now: int)
    requires LeaseInv(s) && s.now <= now && WithinLease(records, now) && RecordsOk(s, records)
    ensures (forall id | id in Ids(records) :: Held(s, id, now)) && Exist(s.t, Ids(records))
  {
    hide LeaseInv;
    var ids := Ids(records);
    forall id | id in ids ensures Held(s, id, now) {
      var i :| 0 <= i < |ids| && ids[i] == id;
      assert RecordOk(s, records[i]);
    }
    HeldIsSafe(s, ids, now);
  }

  /** A punctual access keeps the leases, and the segments of what is put or copied exist. */
  lemma KeepsLeases(w: World, e: Event, payload: nat)
    requires payload > 0 && WorldInv(w, payload) && Honest(w, e, payload) && LeaseInv(w.s) && Punctual(w, e)
    ensures LeaseInv(Act(w, e).s)
    ensures (e.LinkUpload? && Uploaded(w, e.h)) || (e.LinkCopy? && ReadyToCopy(w, e.h)) ==>
              Exist(w.s.t, Ids(w.handlers[e.h].records))
  {
    hide LeaseInv, WellLinked, HoldsGiven, RowsGiven, PartsHold, AllGenuine, Take, Held, RecordsOk;
    if (e.LinkUpload? && Uploaded(w, e.h)) || (e.LinkCopy? && ReadyToCopy(w, e.h)) {
      assert HandlerOk(w.s, w.given, w.handlers[e.h]);
      LeasesRun(w.s, w.handlers[e.h].records, e.now);
    }
    if Access(w, e).Some? { StepKeeps(w.s, Access(w, e).value); }
  }

  lemma {:induction false} LeasesInOrder(now: int, events: seq<Event>, payload: nat, n: nat)
    requires payload > 0 && n <= |events| && HonestRun(Start(now), events, payload) && PunctualRun(now, events, n)
    ensures LeaseInv(At(now, events, n).s)
    decreases n
  {
    hide LeaseInv, Act, WorldInv, Punctual, Honest, HonestRun;
    if n == 0 {
      S3Leases.NothingYet(now);
    } else {
      LeasesInOrder(now, events, payload, n - 1);
      ReachesInvariant(now, events, payload, n - 1);
      NextEvent(now, events, payload, n - 1);
      KeepsLeases(At(now, events, n - 1), events[n - 1], payload);
    }
  }

  /** Completing an upload keeps the leases in order exactly if none of the segments read is an orphan. */
  lemma CompleteUploadKeepsIff(w: World, h: nat, now: int)
    requires LeaseInv(w.s) && Joined(w, h) && w.s.now <= now && Exist(w.s.t, Ids(w.handlers[h].records))
    ensures LeaseInv(Act(w, CompleteUpload(h, now)).s) <==> Unmarked(w.s.t, Ids(w.handlers[h].records))
  {
    hide LeaseInv;
    var a := w.handlers[h];
    CompleteKeepsLeasesIff(w.s, a.upload, a.key, SizeOfRows(a.rows), Ids(a.records), now);
  }

  // ---- Sizes --------------------------------------------------------------------------------------------------

  function BytesKnown(a: Handler): nat
    requires a.Uploading? || a.Copying? || a.Joining?
  {
    |Flatten(Plaintexts(a.records))|
  }

  /** What the handler has read is as much as the rows said. */
  ghost predicate HandlerFits(a: Handler) {
    match a
    case Uploading(_, _, _, _) => true
    case Finding(_, _, _) => true
    case Copying(_, _, size, _) => BytesKnown(a) == size
    case Listing(_, _) => true
    case Joining(_, _, _, rows, _, joined) => joined <= |rows| && BytesKnown(a) == SizeOfRows(rows[..joined])
  }

  /** Every object's row says the number of its bytes. */
  ghost predicate Fits(w: World) {
    && (forall owner | owner in w.given :: w.given[owner].size == |w.given[owner].bytes|)
    && (forall h | h in w.handlers :: HandlerFits(w.handlers[h]))
  }

  /** The second query finds the source of a copy, unless that was empty, and a part still there with its size. */
  predicate Untorn(w: World, e: Event) {
    && (e.ReadSource? && Found(w, e.h) ==> w.handlers[e.h].owner in w.s.t.links || w.handlers[e.h].size == 0)
    && (e.JoinPart? && Reading(w, e.h) && w.handlers[e.h].joined < |w.handlers[e.h].rows| ==>
          && NextPart(w, e.h) in w.s.t.parts
          && w.s.t.parts[NextPart(w, e.h)].size == w.handlers[e.h].rows[w.handlers[e.h].joined].size)
  }

  lemma FlattenTwo(a: seq<Record>, b: seq<Record>)
    ensures Flatten(Plaintexts(a + b)) == Flatten(Plaintexts(a)) + Flatten(Plaintexts(b))
  {
    assert Plaintexts(a + b) == Plaintexts(a) + Plaintexts(b);
    FlattenAppend(Plaintexts(a), Plaintexts(b));
  }

  lemma {:induction false} SizeOfRowsSnoc(rows: seq<PartRow>, last: PartRow)
    ensures SizeOfRows(rows + [last]) == SizeOfRows(rows) + last.size
  {
    if rows == [] {
      assert [] + [last] == [last] && [last][1..] == [];
    } else {
      assert (rows + [last])[1..] == rows[1..] + [last];
      SizeOfRowsSnoc(rows[1..], last);
    }
  }

  lemma NoContent(segments: map<nat, Stored>)
    ensures ContentOf([], segments) == []
  {
  }

  /** The bytes a copy has read are as many as the row said exactly if it found the source or that was empty. */
  lemma ReadFitsIff(w: World, h: nat, now: int, payload: nat)
    requires payload > 0 && WorldInv(w, payload) && Fits(w) && Found(w, h)
    ensures var u := Act(w, ReadSource(h, now));
            h in u.handlers && (HandlerFits(u.handlers[h]) <==> Untorn(w, ReadSource(h, now)))
  {
    hide WellLinked, RowsGiven, PartsHold, AllGenuine, ContentOf, RecordsOf, Flatten;
    var a := w.handlers[h];
    assert HandlerOk(w.s, w.given, a);
    RecordsRead(SegmentsOf(w.s.t, a.owner), w.s.t.segments, now);
    NoContent(w.s.t.segments);
  }

  /** The bytes joined are as many as the rows said exactly if the part is still there with its size. */
  lemma JoinFitsIff(w: World, h: nat, now: int, payload: nat)
    requires payload > 0 && WorldInv(w, payload) && Fits(w) && Reading(w, h)
    ensures var u := Act(w, JoinPart(h, now));
            h in u.handlers && (HandlerFits(u.handlers[h]) <==> Untorn(w, JoinPart(h, now)))
  {
    hide WellLinked, HoldsGiven, RowsGiven, AllGenuine, ContentOf, RecordsOf, Flatten, SizeOfRows, RecordsOk;
    var a, ids := w.handlers[h], PartSegments(w.s.t, NextPart(w, h));
    assert HandlerOk(w.s, w.given, a) && HandlerFits(a);
    RecordsRead(ids, w.s.t.segments, now);
    NoContent(w.s.t.segments);
    FlattenTwo(a.records, RecordsOf(ids, w.s.t.segments, now));
    assert a.rows[..a.joined + 1] == a.rows[..a.joined] + [a.rows[a.joined]];
    SizeOfRowsSnoc(a.rows[..a.joined], a.rows[a.joined]);
  }

  /** Whatever is put now says the number of its bytes, if all that handlers know fits. */
  lemma MeantFits(w: World, e: Event, payload: nat)
    requires payload > 0 && WorldInv(w, payload) && Fits(w)
    ensures Meant(w, e).size == |Meant(w, e).bytes|
  {
    hide WellLinked, HoldsGiven, RowsGiven, PartsHold, AllGenuine, Flatten, RecordsOk;
    if e.CompleteUpload? && Joined(w, e.h) {
      var a := w.handlers[e.h];
      assert HandlerOk(w.s, w.given, a) && HandlerFits(a) && a.rows[..a.joined] == a.rows;
    }
    if e.LinkCopy? && ReadyToCopy(w, e.h) { assert HandlerFits(w.handlers[e.h]); }
  }

  lemma OtherFits(w: World, e: Event, h: nat)
    requires Fits(w) && h in HandlersAfter(w, e)
    requires !(Reads(w, e) && h == e.h)
    ensures HandlerFits(HandlersAfter(w, e)[h])
  {
    hide RecordsOf, Flatten;
    if h in w.handlers { assert HandlerFits(w.handlers[h]); }
    NothingRead();
  }

  lemma NothingRead()
    ensures Flatten(Plaintexts([])) == []
  {
  }

  lemma GivenFits(w: World, e: Event, payload: nat)
    requires payload > 0 && WorldInv(w, payload) && Fits(w)
    ensures forall owner | owner in Act(w, e).given :: Act(w, e).given[owner].size == |Act(w, e).given[owner].bytes|
  {
    MeantFits(w, e, payload);
    hide WorldInv, HandlerFits, Meant, StoredPart, After, HandlersAfter;
  }

  /** The handler an event moves on, if that is one that reads in two queries. */
  predicate Reads(w: World, e: Event) {
    (e.ReadSource? && Found(w, e.h)) || (e.JoinPart? && Reading(w, e.h))
  }

  lemma ReaderFitsIff(w: World, e: Event, payload: nat)
    requires payload > 0 && WorldInv(w, payload) && Fits(w) && Reads(w, e)
    ensures e.h in HandlersAfter(w, e) && (HandlerFits(HandlersAfter(w, e)[e.h]) <==> Untorn(w, e))
  {
    if e.ReadSource? { ReadFitsIff(w, e.h, e.now, payload); } else { JoinFitsIff(w, e.h, e.now, payload); }
    hide WorldInv, HandlerFits, HandlersAfter, Untorn, Fits;
  }

  /** Sizes stay right in one access exactly if it is not a torn read. */
  lemma FitsIff(w: World, e: Event, payload: nat)
    requires payload > 0 && WorldInv(w, payload) && Fits(w)
    ensures Fits(Act(w, e)) <==> Untorn(w, e)
  {
    hide WorldInv, HandlerFits, HandlersAfter, Meant, StoredPart, After;
    GivenFits(w, e, payload);
    var handlers := Act(w, e).handlers;
    forall h | h in handlers && !(Reads(w, e) && h == e.h) ensures HandlerFits(handlers[h]) { OtherFits(w, e, h); }
    if Reads(w, e) { ReaderFitsIff(w, e, payload); }
  }

  /** None of the first `n` events is a torn read. */
  ghost predicate UntornRun(now: int, events: seq<Event>, n: nat)
    requires n <= |events|
  {
    forall j | 0 <= j < n :: Untorn(At(now, events, j), events[j])
  }

  lemma {:induction false} AllFits(now: int, events: seq<Event>, payload: nat, n: nat)
    requires payload > 0 && n <= |events| && HonestRun(Start(now), events, payload) && UntornRun(now, events, n)
    ensures Fits(At(now, events, n))
    decreases n
  {
    hide Act, WorldInv, Untorn, Honest, HonestRun, HandlerFits;
    if n > 0 {
      AllFits(now, events, payload, n - 1);
      ReachesInvariant(now, events, payload, n - 1);
      NextEvent(now, events, payload, n - 1);
      FitsIff(At(now, events, n - 1), events[n - 1], payload);
    }
  }

  /** Bytes of the right number mean sizes that add up. */
  lemma FitsMeansSizes(w: World, payload: nat)
    requires payload > 0 && WorldInv(w, payload) && Fits(w)
    ensures SizesOk(w.s.t)
  {
    hide LinksExist, HandlerOk, HandlerFits, ContentOf, Total;
    forall key | key in w.s.t.objects
      ensures w.s.t.objects[key].id in w.s.t.links
      ensures w.s.t.objects[key].size == Total(w.s.t.links[w.s.t.objects[key].id], w.s.t.segments)
    {
      ListOfGenuine(w.s.t.links[w.s.t.objects[key].id], w.s.t.segments, payload);
    }
    forall key | key in w.s.t.parts ensures w.s.t.parts[key].size == Total(w.s.t.parts[key].segments, w.s.t.segments) {
      ListOfGenuine(w.s.t.parts[key].segments, w.s.t.segments, payload);
    }
  }
}
