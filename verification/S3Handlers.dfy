/**
 The handlers that put, copy, upload parts and complete uploads, one catalog access at a time, with
 one another, the other requests and the collector in between. `given` records, as history, what
 each object id stands for: the bytes of the body that was put, or those of the segments a copy or a
 completion had read, and the size that was put on record. Every object holds those bytes and has
 that size for as long as it exists, whatever else handlers and collectors do.
 */
module S3Handlers {
  import opened Basics
  import opened Frames
  import opened Segments
  import opened S3Model
  import opened S3Safety
  import opened S3Leases
  import opened S3Contents
  import opened S3Reads
  import opened S3Service

  datatype Destination = ToObject(key: Key) | ToPart(upload: string, number: nat, etag: string)

  /** A segment as a handler stored or read it, and when. */
  datatype Record = Record(id: nat, segment: Segment, since: int)

  /**
   A handler uploading a body in `pieces`, copying the object with id `owner`, or completing an
   upload from its parts, the rows of which it listed as `rows`.
   */
  datatype Handler =
    | Uploading(dest: Destination, body: Bytes, pieces: seq<Bytes>, records: seq<Record>)
    | Finding(key: Key, owner: nat, size: nat)
    | Copying(key: Key, owner: nat, size: nat, records: seq<Record>)
    | Listing(upload: string, key: Key)
    | Joining(upload: string, key: Key, numbers: seq<nat>, rows: seq<PartRow>, records: seq<Record>, joined: nat)

  /** What an object stands for; `size` is what its row says. */
  datatype Meaning = Meaning(bytes: Bytes, size: nat)

  datatype World = World(s: Sys, handlers: map<nat, Handler>, given: map<nat, Meaning>, partGiven: map<PartKey, Bytes>)

  datatype Event =
    | Receive(h: nat, dest: Destination, body: Bytes, max: nat)
    | StoreNext(h: nat, segment: Segment, now: int)
    | LinkUpload(h: nat, now: int)
    | FindSource(h: nat, source: Key, key: Key)
    | ReadSource(h: nat, now: int)
    | LinkCopy(h: nat, now: int)
    | FindUpload(h: nat, upload: string)
    | ListParts(h: nat, numbers: seq<nat>)
    | JoinPart(h: nat, now: int)
    | CompleteUpload(h: nat, now: int)
    | Other(step: Step)

  // ---- Events ----------------------------------------------------------------------------------

  function Ids(records: seq<Record>): seq<nat> {
    seq(|records|, i requires 0 <= i < |records| => records[i].id)
  }

  function Plaintexts(records: seq<Record>): seq<Bytes> {
    seq(|records|, i requires 0 <= i < |records| => records[i].segment.body)
  }

  function RecordsOf(ids: seq<nat>, segments: map<nat, Stored>, now: int): seq<Record> {
    if ids == [] then []
    else (if ids[0] in segments then [Record(ids[0], segments[ids[0]].segment, now)] else []) + RecordsOf(ids[1..], segments, now)
  }

  /** The handler has a piece left to store. */
  predicate Storing(w: World, h: nat) {
    h in w.handlers && w.handlers[h].Uploading? && |w.handlers[h].records| < |w.handlers[h].pieces|
  }

  predicate Uploaded(w: World, h: nat) {
    h in w.handlers && w.handlers[h].Uploading? && |w.handlers[h].records| >= |w.handlers[h].pieces|
  }

  predicate Found(w: World, h: nat) {
    h in w.handlers && w.handlers[h].Finding?
  }

  predicate ReadyToCopy(w: World, h: nat) {
    h in w.handlers && w.handlers[h].Copying?
  }

  predicate Listed(w: World, h: nat) {
    h in w.handlers && w.handlers[h].Listing?
  }

  /** The handler has parts left whose segments it has not read. */
  predicate Reading(w: World, h: nat) {
    h in w.handlers && w.handlers[h].Joining? && w.handlers[h].joined < |w.handlers[h].numbers|
  }

  predicate Joined(w: World, h: nat) {
    h in w.handlers && w.handlers[h].Joining? && w.handlers[h].joined >= |w.handlers[h].numbers|
  }

  /** The part whose segments are read next. */
  function NextPart(w: World, h: nat): PartKey
    requires Reading(w, h)
  {
    (w.handlers[h].upload, w.handlers[h].numbers[w.handlers[h].joined])
  }

  /** The catalog access an event makes, but for those that read a row and hold nothing. */
  function Access(w: World, e: Event): Option<Step> {
    match e
    case Receive(_, _, _, _) => None
    case StoreNext(h, segment, now) => if Storing(w, h) then Some(Store(segment, now)) else None
    case LinkUpload(h, now) => if Uploaded(w, h) then Some(UploadStep(w.handlers[h], now)) else None
    case FindSource(_, _, _) => None
    case ReadSource(h, now) => if Found(w, h) then Some(Read(w.handlers[h].owner, now)) else None
    case LinkCopy(h, now) => if ReadyToCopy(w, h) then Some(CopyStep(w.handlers[h], now)) else None
    case FindUpload(_, _) => None
    case ListParts(_, _) => None
    case JoinPart(h, now) => if Reading(w, h) then Some(ReadPart(NextPart(w, h).0, NextPart(w, h).1, now)) else None
    case CompleteUpload(h, now) => if Joined(w, h) then Some(CompleteStep(w.handlers[h], now)) else None
    case Other(step) => Some(step)
  }

  /** `put_object` and `upload_part` link what they stored, with the size they counted. */
  function UploadStep(a: Handler, now: int): Step
    requires a.Uploading?
  {
    match a.dest
    case ToObject(key) => Link(key, |a.body|, Ids(a.records), now)
    case ToPart(upload, number, etag) => LinkPart(upload, number, |a.body|, etag, Ids(a.records), now)
  }

  /** `copy_object` links what it read, with the size it read. */
  function CopyStep(a: Handler, now: int): Step
    requires a.Copying?
  {
    Link(a.key, a.size, Ids(a.records), now)
  }

  /** `complete_multipart_upload` links what it read of the parts, with the sum of their sizes. */
  function CompleteStep(a: Handler, now: int): Step
    requires a.Joining?
  {
    Complete(a.upload, a.key, SizeOfRows(a.rows), Ids(a.records), now)
  }

  function RowsListed(t: Tables, upload: string, numbers: seq<nat>): seq<PartRow>
    requires HasParts(t, upload, numbers)
  {
    seq(|numbers|, i requires 0 <= i < |numbers| =>
      assert numbers[i] in numbers;
      t.parts[(upload, numbers[i])])
  }

  function SizeOfRows(rows: seq<PartRow>): nat {
    if rows == [] then 0 else rows[0].size + SizeOfRows(rows[1..])
  }

  function After(w: World, e: Event): Sys {
    var step := Access(w, e);
    if step.Some? then Take(w.s, step.value) else w.s
  }

  /** A new request under `h` takes the place of one that was given up. */
  function HandlersAfter(w: World, e: Event): map<nat, Handler> {
    match e
    case Receive(h, dest, body, max) =>
      if max == 0 && body != [] then w.handlers else w.handlers[h := Uploading(dest, body, Bodies(body, max), [])]
    case StoreNext(h, segment, now) =>
      if !Storing(w, h) then w.handlers
      else if StoreSegment(w.s.t, segment, now).None? then w.handlers - {h}
      else
        var a := w.handlers[h];
        w.handlers[h := Uploading(a.dest, a.body, a.pieces, a.records + [Record(w.s.t.nextSegment, segment, now)])]
    case LinkUpload(h, _) => if Uploaded(w, h) then w.handlers - {h} else w.handlers
    case FindSource(h, source, key) =>
      var row := FindObject(w.s.t, source);
      if row.Some? then w.handlers[h := Finding(key, row.value.id, row.value.size)] else w.handlers - {h}
    case ReadSource(h, now) =>
      if !Found(w, h) then w.handlers
      else
        var a := w.handlers[h];
        w.handlers[h := Copying(a.key, a.owner, a.size, RecordsOf(SegmentsOf(w.s.t, a.owner), w.s.t.segments, now))]
    case LinkCopy(h, _) => if ReadyToCopy(w, h) then w.handlers - {h} else w.handlers
    case FindUpload(h, upload) =>
      if upload in w.s.t.uploads then w.handlers[h := Listing(upload, w.s.t.uploads[upload])] else w.handlers - {h}
    case ListParts(h, numbers) =>
      if !Listed(w, h) then w.handlers
      else if !HasParts(w.s.t, w.handlers[h].upload, numbers) then w.handlers - {h}
      else
        var a := w.handlers[h];
        w.handlers[h := Joining(a.upload, a.key, numbers, RowsListed(w.s.t, a.upload, numbers), [], 0)]
    case JoinPart(h, now) =>
      if !Reading(w, h) then w.handlers
      else
        var a, read := w.handlers[h], RecordsOf(PartSegments(w.s.t, NextPart(w, h)), w.s.t.segments, now);
        w.handlers[h := Joining(a.upload, a.key, a.numbers, a.rows, a.records + read, a.joined + 1)]
    case CompleteUpload(h, _) => if Joined(w, h) then w.handlers - {h} else w.handlers
    case Other(_) => w.handlers
  }

  const NOTHING := Meaning([], 0)

  /** What an object or part this event puts stands for. */
  function Meant(w: World, e: Event): Meaning {
    match e
    case LinkUpload(h, _) => if Uploaded(w, h) then Meaning(w.handlers[h].body, |w.handlers[h].body|) else NOTHING
    case LinkCopy(h, _) =>
      if ReadyToCopy(w, h) then Meaning(Flatten(Plaintexts(w.handlers[h].records)), w.handlers[h].size) else NOTHING
    case CompleteUpload(h, _) =>
      if Joined(w, h) then Meaning(Flatten(Plaintexts(w.handlers[h].records)), SizeOfRows(w.handlers[h].rows)) else NOTHING
    case Receive(_, _, _, _) => NOTHING
    case StoreNext(_, _, _) => NOTHING
    case FindSource(_, _, _) => NOTHING
    case ReadSource(_, _) => NOTHING
    case FindUpload(_, _) => NOTHING
    case ListParts(_, _) => NOTHING
    case JoinPart(_, _) => NOTHING
    case Other(_) => NOTHING
  }

  /** The part this event stores, if its transaction goes through. */
  function StoredPart(w: World, e: Event): Option<PartKey> {
    var step := Access(w, e);
    if step.Some? && step.value.LinkPart? && Replaces(w.s.t, step.value) then Some((step.value.upload, step.value.number)) else None
  }

  predicate Replaces(t: Tables, step: Step)
    requires step.LinkPart?
  {
    ReplacePart(t, step.upload, step.number, step.size, step.etag, step.ids, step.now).Some?
  }

  /** A new object id is given its bytes when its row appears. */
  function Act(w: World, e: Event): World {
    var after, part := After(w, e), StoredPart(w, e);
    World(after, HandlersAfter(w, e),
          if after.t.nextObject > w.s.t.nextObject then w.given[w.s.t.nextObject := Meant(w, e)] else w.given,
          if part.Some? then w.partGiven[part.value := Meant(w, e).bytes] else w.partGiven)
  }

  /**
   All that is taken for granted of a run: a segment is registered as its upload left it, and
   segments are stored and linked by the handlers above alone.
   */
  predicate Honest(w: World, e: Event, payload: nat)
    requires payload > 0
  {
    && (e.StoreNext? ==>
          && Genuine(e.segment, payload)
          && (Storing(w, e.h) ==> e.segment.body == w.handlers[e.h].pieces[|w.handlers[e.h].records|]))
    && (e.Other? ==> !e.step.Store? && !e.step.Link? && !e.step.LinkPart? && !e.step.Complete?)
  }

  function Run(w: World, events: seq<Event>): World {
    if events == [] then w else Act(Run(w, events[..|events| - 1]), events[|events| - 1])
  }

  predicate HonestRun(w: World, events: seq<Event>, payload: nat)
    requires payload > 0
  {
    events == []
    || (HonestRun(w, events[..|events| - 1], payload) && Honest(Run(w, events[..|events| - 1]), events[|events| - 1], payload))
  }

  function Start(now: int): World {
    World(Sys(EMPTY, now, {}, {}, {}), map[], map[], map[])
  }

  // ---- The invariant ----------------------------------------------------------------------------------

  /** Every object holds what its id was given, and its row says the size given. */
  ghost predicate HoldsGiven(t: Tables, given: map<nat, Meaning>) {
    && (forall owner | owner in t.links :: owner in given && ContentOf(t.links[owner], t.segments) == given[owner].bytes)
    && (forall owner | owner in given :: owner < t.nextObject)
  }

  ghost predicate RowsGiven(t: Tables, given: map<nat, Meaning>) {
    forall key | key in t.objects :: t.objects[key].id in given && t.objects[key].size == given[t.objects[key].id].size
  }

  ghost predicate PartsHold(t: Tables, partGiven: map<PartKey, Bytes>) {
    forall key | key in t.parts ::
      && key in partGiven && ContentOf(t.parts[key].segments, t.segments) == partGiven[key]
      && t.parts[key].size == |partGiven[key]|
  }

  /** What a handler knows of a segment stays true of it while it exists. */
  ghost predicate RecordOk(s: Sys, r: Record) {
    && (r.id, r.since) in s.holds && r.id < s.t.nextSegment
    && (r.id in s.t.segments ==> s.t.segments[r.id].segment == r.segment)
  }

  ghost predicate RecordsOk(s: Sys, records: seq<Record>) {
    forall i | 0 <= i < |records| :: RecordOk(s, records[i])
  }

  ghost predicate HandlerOk(s: Sys, given: map<nat, Meaning>, a: Handler) {
    match a
    case Uploading(_, body, pieces, records) =>
      Flatten(pieces) == body && Plaintexts(records) <= pieces && RecordsOk(s, records)
    case Finding(_, owner, size) => owner in given && size == given[owner].size
    case Copying(_, _, _, records) => RecordsOk(s, records)
    case Listing(_, _) => true
    case Joining(_, _, numbers, rows, records, joined) =>
      |rows| == |numbers| >= joined && (forall i | 0 <= i < |rows| :: rows[i].size > 0) && RecordsOk(s, records)
  }

  ghost predicate WorldInv(w: World, payload: nat)
    requires payload > 0
  {
    && WellLinked(w.s.t) && AllGenuine(w.s.t.segments, payload)
    && HoldsGiven(w.s.t, w.given) && RowsGiven(w.s.t, w.given) && PartsHold(w.s.t, w.partGiven)
    && forall h | h in w.handlers :: HandlerOk(w.s, w.given, w.handlers[h])
  }

  // ---- The catalog's steps ----------------------------------------------------------------------------------

  /** A step changes no object's row but the one it makes. */
  lemma StepObjects(s: Sys, step: Step)
    ensures forall key | key in Take(s, step).t.objects ::
              || (key in s.t.objects && Take(s, step).t.objects[key] == s.t.objects[key])
              || ((step.Link? || step.Complete?) && s.t.nextObject < Take(s, step).t.nextObject
                  && Take(s, step).t.objects[key] == ObjectRow(s.t.nextObject, step.size))
  {
    hide Linked, Total, PartIds, PartsSize, HasParts;
  }

  lemma StepKeepsGenuine(s: Sys, step: Step, payload: nat)
    requires payload > 0 && AllGenuine(s.t.segments, payload) && (step.Store? ==> Genuine(step.segment, payload))
    ensures AllGenuine(Take(s, step).t.segments, payload)
  {
    hide Genuine, Linked, Total, PartIds, PartsSize, HasParts;
  }

  /** A step adds at most one object, under the next id. */
  lemma StepOwners(s: Sys, step: Step)
    ensures forall owner | owner in Take(s, step).t.links ::
              owner in s.t.links || (owner == s.t.nextObject < Take(s, step).t.nextObject)
    ensures s.t.nextObject <= Take(s, step).t.nextObject <= s.t.nextObject + 1
    ensures Take(s, step).t.nextObject > s.t.nextObject ==> step.Link? || step.Complete?
  {
    hide Linked, Total, PartIds, PartsSize, HasParts;
  }

  /** A step changes no part but the one it stores. */
  lemma StepParts(s: Sys, step: Step)
    ensures forall key | key in Take(s, step).t.parts ::
              || (key in s.t.parts && Take(s, step).t.parts[key] == s.t.parts[key])
              || (step.LinkPart? && Replaces(s.t, step) && key == (step.upload, step.number)
                  && Take(s, step).t.parts[key].segments == step.ids && Take(s, step).t.parts[key].size == step.size)
    ensures step.LinkPart? && Replaces(s.t, step) ==> SameSegments(s.t.segments, Take(s, step).t.segments)
  {
    hide Linked, Total, PartIds, PartsSize, HasParts;
  }

  lemma StepHolds(s: Sys, step: Step)
    ensures s.holds <= Take(s, step).holds
  {
  }

  // ---- What stays ----------------------------------------------------------------------------------------

  lemma {:induction false} SameListOf(ids: seq<nat>, a: map<nat, Stored>, b: map<nat, Stored>)
    requires forall id | id in ids :: id in a && id in b && a[id].segment == b[id].segment
    ensures ContentOf(ids, a) == ContentOf(ids, b)
  {
    if ids != [] {
      assert ids[0] in ids && forall id | id in ids[1..] :: id in ids;
      SameListOf(ids[1..], a, b);
    }
  }

  /** A list of segments that is linked then and now holds the same bytes. */
  lemma LinkedStays(t: Tables, u: Tables, ids: seq<nat>)
    requires WellLinked(t) && WellLinked(u) && Later(t, u)
    requires forall id | id in ids :: Linked(t, id) && Linked(u, id)
    ensures ContentOf(ids, t.segments) == ContentOf(ids, u.segments)
  {
    hide Linked;
    SameListOf(ids, t.segments, u.segments);
  }

  lemma ObjectsStay(t: Tables, u: Tables, given: map<nat, Meaning>)
    requires WellLinked(t) && WellLinked(u) && Later(t, u) && HoldsGiven(t, given)
    ensures forall owner | owner in u.links && owner < t.nextObject ::
              owner in given && ContentOf(u.links[owner], u.segments) == given[owner].bytes
  {
    hide Linked, ContentOf, WellLinked;
    forall owner | owner in u.links && owner < t.nextObject
      ensures owner in given && ContentOf(u.links[owner], u.segments) == given[owner].bytes
    {
      LinkedOwner(t, owner);
      LinkedOwner(u, owner);
      LinkedStays(t, u, t.links[owner]);
    }
  }

  lemma PartStays(t: Tables, u: Tables, key: PartKey)
    requires WellLinked(t) && WellLinked(u) && Later(t, u) && key in t.parts && key in u.parts && u.parts[key].segments == t.parts[key].segments
    ensures ContentOf(u.parts[key].segments, u.segments) == ContentOf(t.parts[key].segments, t.segments)
  {
    hide Linked, ContentOf, WellLinked;
    LinkedPart(t, key);
    LinkedPart(u, key);
    LinkedStays(t, u, t.parts[key].segments);
  }

  /** Handlers that are not at work know what they knew. */
  lemma HandlerStays(s: Sys, next: Sys, given: map<nat, Meaning>, later: map<nat, Meaning>, a: Handler)
    requires Later(s.t, next.t) && s.holds <= next.holds && HandlerOk(s, given, a)
    requires forall owner | owner in given :: owner in later && later[owner] == given[owner]
    ensures HandlerOk(next, later, a)
  {
    if a.Uploading? || a.Copying? || a.Joining? {
      forall i | 0 <= i < |a.records| ensures RecordOk(next, a.records[i]) { assert RecordOk(s, a.records[i]); }
    }
  }

  // ---- What a handler links --------------------------------------------------------------------------------

  /** Records whose segments exist lead to the bytes the handler knows. */
  lemma RecordsHold(s: Sys, records: seq<Record>)
    requires RecordsOk(s, records) && Exist(s.t, Ids(records))
    ensures ContentOf(Ids(records), s.t.segments) == Flatten(Plaintexts(records))
  {
    hide ContentOf;
    var ids := Ids(records);
    forall i | 0 <= i < |ids| ensures ids[i] in s.t.segments && s.t.segments[ids[i]].segment.body == Plaintexts(records)[i] {
      assert ids[i] in ids && RecordOk(s, records[i]);
    }
    CutContent(ids, s.t.segments, Plaintexts(records));
  }

  /** The segments a step links. */
  function Linking(step: Step): Option<seq<nat>> {
    match step
    case Link(_, _, ids, _) => Some(ids)
    case LinkPart(_, _, _, _, ids, _) => Some(ids)
    case Complete(_, _, _, ids, _) => Some(ids)
    case Store(_, _) => None
    case Read(_, _) => None
    case ReadPart(_, _, _) => None
    case Delete(_, _) => None
    case Begin(_, _) => None
    case Abort(_, _) => None
    case List(_) => None
    case Erase(_) => None
    case Forget(_) => None
  }

  /** A handler is about to link exactly the bytes it means, if they exist, and to record the size it means. */
  lemma LinksItsBytes(w: World, e: Event, payload: nat)
    requires payload > 0 && WorldInv(w, payload) && Honest(w, e, payload)
    requires Access(w, e).Some? && Linking(Access(w, e).value).Some?
    ensures var step := Access(w, e).value;
            && step.size == Meant(w, e).size
            && (Exist(w.s.t, step.ids) ==> ContentOf(step.ids, w.s.t.segments) == Meant(w, e).bytes)
  {
    hide WellLinked, HoldsGiven, RowsGiven, PartsHold, ContentOf, AllGenuine, RecordOk, Flatten;
    var a := w.handlers[e.h];
    assert HandlerOk(w.s, w.given, a);
    if Exist(w.s.t, Ids(a.records)) {
      RecordsHold(w.s, a.records);
      if a.Uploading? { assert Plaintexts(a.records) == a.pieces; }
    }
  }

  // ---- Each event keeps the invariant --------------------------------------------------------------------------

  lemma KeepsCatalog(w: World, e: Event, payload: nat)
    requires payload > 0 && WorldInv(w, payload) && Honest(w, e, payload)
    ensures var s := Act(w, e).s;
            WellLinked(s.t) && AllGenuine(s.t.segments, payload) && Later(w.s.t, s.t) && w.s.holds <= s.holds
  {
    hide WellLinked, HoldsGiven, RowsGiven, PartsHold, AllGenuine, Take, Genuine;
    if Access(w, e).Some? {
      var step := Access(w, e).value;
      StepStays(w.s, step);
      StepKeepsGenuine(w.s, step, payload);
      StepIsLater(w.s, step);
      StepHolds(w.s, step);
    }
  }

  /** An object that appears holds the bytes meant. */
  lemma NewObject(w: World, e: Event, payload: nat)
    requires payload > 0 && WorldInv(w, payload) && Honest(w, e, payload) && After(w, e).t.nextObject > w.s.t.nextObject
    ensures var t, owner := After(w, e).t, w.s.t.nextObject;
            owner in t.links ==> ContentOf(t.links[owner], t.segments) == Meant(w, e).bytes
  {
    hide WellLinked, HoldsGiven, RowsGiven, PartsHold, AllGenuine, ContentOf, Total, HandlerOk;
    var t, step := w.s.t, Access(w, e).value;
    StepOwners(w.s, step);
    LinksItsBytes(w, e, payload);
    LinksInPlace(w.s, step);
  }

  /** The new object lists the segments linked, which are as they were. */
  lemma LinksInPlace(s: Sys, step: Step)
    requires step.Link? || step.Complete?
    requires Take(s, step).t.nextObject > s.t.nextObject
    ensures Exist(s.t, step.ids)
    ensures var t := Take(s, step).t;
            s.t.nextObject in t.links ==> ContentOf(t.links[s.t.nextObject], t.segments) == ContentOf(step.ids, s.t.segments)
  {
    hide Linked, ContentOf, ReplaceObject, CompleteMultipart;
    var t := Take(s, step).t;
    if step.Link? {
      LinkedList(s.t, step.key, step.size, step.ids, step.now);
    } else {
      CompletedList(s.t, step.upload, step.key, step.size, step.ids, step.now);
    }
    SameListOf(step.ids, s.t.segments, t.segments);
  }

  lemma LinkedList(t: Tables, key: Key, size: nat, ids: seq<nat>, now: int)
    ensures ReplaceObject(t, key, size, ids, now).Some? <==> Exist(t, ids)
    ensures Exist(t, ids) ==>
              var u := ReplaceObject(t, key, size, ids, now).value;
              SegmentsOf(u, t.nextObject) == ids && SameSegments(t.segments, u.segments)
  {
    hide Linked;
  }

  lemma CompletedList(t: Tables, upload: string, key: Key, size: nat, ids: seq<nat>, now: int)
    ensures CompleteMultipart(t, upload, key, size, ids, now).Some? <==> Exist(t, ids)
    ensures Exist(t, ids) ==>
              var u := CompleteMultipart(t, upload, key, size, ids, now).value;
              SegmentsOf(u, t.nextObject) == ids && SameSegments(t.segments, u.segments)
  {
    hide Linked;
  }

  /** Old objects and at most a new one, all holding what they were given. */
  lemma GivenOnce(t: Tables, u: Tables, given: map<nat, Meaning>, meant: Meaning)
    requires HoldsGiven(t, given) && t.nextObject <= u.nextObject
    requires forall owner | owner in u.links :: owner in t.links || owner == t.nextObject < u.nextObject
    requires forall owner | owner in u.links && owner < t.nextObject ::
               owner in given && ContentOf(u.links[owner], u.segments) == given[owner].bytes
    requires u.nextObject > t.nextObject && t.nextObject in u.links ==> ContentOf(u.links[t.nextObject], u.segments) == meant.bytes
    ensures HoldsGiven(u, if u.nextObject > t.nextObject then given[t.nextObject := meant] else given)
  {
    hide ContentOf;
  }

  lemma KeepsGiven(w: World, e: Event, payload: nat)
    requires payload > 0 && WorldInv(w, payload) && Honest(w, e, payload)
    ensures HoldsGiven(Act(w, e).s.t, Act(w, e).given)
  {
    hide WellLinked, HoldsGiven, RowsGiven, PartsHold, AllGenuine, ContentOf, HandlerOk, Take, Meant, HandlersAfter, StoredPart, Later, Honest;
    var t, u := w.s.t, After(w, e).t;
    if Access(w, e).Some? {
      KeepsCatalog(w, e, payload);
      StepOwners(w.s, Access(w, e).value);
      ObjectsStay(t, u, w.given);
      if u.nextObject > t.nextObject { NewObject(w, e, payload); }
      GivenOnce(t, u, w.given, Meant(w, e));
    }
  }

  /** The rows say the sizes given. */
  lemma KeepsRows(w: World, e: Event, payload: nat)
    requires payload > 0 && WorldInv(w, payload) && Honest(w, e, payload)
    ensures RowsGiven(Act(w, e).s.t, Act(w, e).given)
  {
    hide WellLinked, PartsHold, AllGenuine, ContentOf, HandlerOk, Take, Meant, HandlersAfter, StoredPart;
    if Access(w, e).Some? {
      var step := Access(w, e).value;
      StepObjects(w.s, step);
      StepOwners(w.s, step);
      if step.Link? || step.Complete? { LinksItsBytes(w, e, payload); }
    }
  }

  lemma KeepsParts(w: World, e: Event, payload: nat)
    requires payload > 0 && WorldInv(w, payload) && Honest(w, e, payload)
    ensures PartsHold(Act(w, e).s.t, Act(w, e).partGiven)
  {
    hide WellLinked, AllGenuine, ContentOf, HandlerOk, Take, Meant, HandlersAfter, HoldsGiven, RowsGiven, Replaces;
    KeepsCatalog(w, e, payload);
    var t, after := w.s.t, Act(w, e).s.t;
    forall key | key in after.parts
      ensures && key in Act(w, e).partGiven && ContentOf(after.parts[key].segments, after.segments) == Act(w, e).partGiven[key]
              && after.parts[key].size == |Act(w, e).partGiven[key]|
    {
      if Access(w, e).Some? { StepParts(w.s, Access(w, e).value); }
      if StoredPart(w, e) == Some(key) {
        NewPart(w, e, payload);
      } else {
        PartStays(t, after, key);
      }
    }
  }

  lemma NewPart(w: World, e: Event, payload: nat)
    requires payload > 0 && WorldInv(w, payload) && Honest(w, e, payload) && StoredPart(w, e).Some?
    ensures var t, key := After(w, e).t, StoredPart(w, e).value;
            && key in t.parts && ContentOf(t.parts[key].segments, t.segments) == Meant(w, e).bytes
            && t.parts[key].size == |Meant(w, e).bytes|
  {
    hide WellLinked, HoldsGiven, RowsGiven, PartsHold, AllGenuine, ContentOf, Total, HandlerOk, Linked;
    var step := Access(w, e).value;
    LinksItsBytes(w, e, payload);
    StepParts(w.s, step);
    assert After(w, e).t.parts[(step.upload, step.number)].segments == step.ids;
    SameListOf(step.ids, w.s.t.segments, After(w, e).t.segments);
  }

  // ---- What handlers know ------------------------------------------------------------------------------

  /** The segments read of a list, in order, as far as they exist. */
  lemma {:induction false} RecordsRead(ids: seq<nat>, segments: map<nat, Stored>, now: int)
    ensures Flatten(Plaintexts(RecordsOf(ids, segments, now))) == ContentOf(ids, segments)
    ensures forall r | r in RecordsOf(ids, segments, now) ::
              r.id in ids && r.id in segments && r.segment == segments[r.id].segment && r.since == now
  {
    if ids != [] {
      RecordsRead(ids[1..], segments, now);
      var rest := RecordsOf(ids[1..], segments, now);
      if ids[0] in segments {
        OneMoreRecord(Record(ids[0], segments[ids[0]].segment, now), rest, SegmentList(ids[1..], segments));
      } else {
        assert [] + rest == rest && [] + SegmentList(ids[1..], segments) == SegmentList(ids[1..], segments);
      }
    }
  }

  lemma OneMoreRecord(r: Record, rest: seq<Record>, list: seq<Segment>)
    requires Flatten(Plaintexts(rest)) == Content(list)
    ensures Flatten(Plaintexts([r] + rest)) == Content([r.segment] + list)
  {
    assert Plaintexts([r] + rest) == [r.segment.body] + Plaintexts(rest);
    assert ([r.segment] + list)[1..] == list;
  }

  /** The handler an event moves on knows only what is so. */
  lemma MovedHandler(w: World, e: Event, payload: nat)
    requires payload > 0 && WorldInv(w, payload) && Honest(w, e, payload) && !e.Other?
    requires e.h in Act(w, e).handlers && (e.h in w.handlers ==> Act(w, e).handlers[e.h] != w.handlers[e.h])
    ensures HandlerOk(Act(w, e).s, Act(w, e).given, Act(w, e).handlers[e.h])
  {
    hide WorldInv, Take, Honest, RecordsOf, Genuine, RecordOk, StoredPart;
    match e
    case Receive(h, dest, body, max) => if max > 0 { CutHoldsBody(body, max); }
    case StoreNext(h, segment, now) =>
      if Storing(w, h) && StoreSegment(w.s.t, segment, now).Some? { StoredHandler(w, h, segment, now, payload); }
    case LinkUpload(h, now) =>
    case FindSource(h, source, key) =>
      if FindObject(w.s.t, source).Some? { FoundHandler(w, source, payload); }
    case ReadSource(h, now) => if Found(w, h) { ReadHandler(w, h, now, payload); }
    case LinkCopy(h, now) =>
    case FindUpload(h, upload) =>
    case ListParts(h, numbers) =>
      if Listed(w, h) && HasParts(w.s.t, w.handlers[h].upload, numbers) { ListedHandler(w, h, numbers, payload); }
    case JoinPart(h, now) => if Reading(w, h) { JoinedHandler(w, h, now, payload); }
    case CompleteUpload(h, now) =>
  }

  lemma StoredHandler(w: World, h: nat, segment: Segment, now: int, payload: nat)
    requires payload > 0 && WorldInv(w, payload) && Honest(w, StoreNext(h, segment, now), payload)
    requires Storing(w, h) && StoreSegment(w.s.t, segment, now).Some?
    ensures var u := Act(w, StoreNext(h, segment, now));
            h in u.handlers && HandlerOk(u.s, u.given, u.handlers[h])
  {
    hide WellLinked, HoldsGiven, RowsGiven, PartsHold, AllGenuine, Flatten, RecordOk, Later;
    var u, a := Act(w, StoreNext(h, segment, now)), w.handlers[h];
    KeepsCatalog(w, StoreNext(h, segment, now), payload);
    assert HandlerOk(w.s, w.given, a);
    HandlerStays(w.s, u.s, w.given, u.given, a);
    var r := Record(w.s.t.nextSegment, segment, now);
    NewRecord(w.s, r);
    ExtendsRecords(a, r);
  }

  lemma NewRecord(s: Sys, r: Record)
    requires r.id == s.t.nextSegment && StoreSegment(s.t, r.segment, r.since).Some?
    ensures RecordOk(Take(s, Store(r.segment, r.since)), r)
  {
  }

  /** One more of the pieces is stored. */
  lemma ExtendsRecords(a: Handler, r: Record)
    requires a.Uploading? && Plaintexts(a.records) <= a.pieces && |a.records| < |a.pieces|
    requires r.segment.body == a.pieces[|a.records|]
    ensures Plaintexts(a.records + [r]) <= a.pieces
  {
    assert Plaintexts(a.records + [r]) == Plaintexts(a.records) + [r.segment.body];
  }

  lemma FoundHandler(w: World, source: Key, payload: nat)
    requires payload > 0 && WorldInv(w, payload) && source in w.s.t.objects
    ensures var row := w.s.t.objects[source]; row.id in w.given && row.size == w.given[row.id].size
  {
  }

  /** Segments read while they are linked are held and known. */
  lemma ReadsKnown(s: Sys, ids: seq<nat>, now: int)
    requires RowsOk(s.t)
    ensures RecordsOk(Hold(s, ids, now), RecordsOf(ids, s.t.segments, now))
  {
    var records := RecordsOf(ids, s.t.segments, now);
    RecordsRead(ids, s.t.segments, now);
    forall i | 0 <= i < |records| ensures RecordOk(Hold(s, ids, now), records[i]) { assert records[i] in records; }
  }

  lemma ReadHandler(w: World, h: nat, now: int, payload: nat)
    requires payload > 0 && WorldInv(w, payload) && Honest(w, ReadSource(h, now), payload) && Found(w, h)
    ensures var u := Act(w, ReadSource(h, now));
            h in u.handlers && HandlerOk(u.s, u.given, u.handlers[h])
  {
    ReadsKnown(w.s, SegmentsOf(w.s.t, w.handlers[h].owner), now);
    hide WorldInv, RecordOk, RecordsOf;
  }

  lemma ListedHandler(w: World, h: nat, numbers: seq<nat>, payload: nat)
    requires payload > 0 && WorldInv(w, payload) && Listed(w, h) && HasParts(w.s.t, w.handlers[h].upload, numbers)
    ensures var u := Act(w, ListParts(h, numbers));
            h in u.handlers && HandlerOk(u.s, u.given, u.handlers[h])
  {
    hide LinksExist, HoldsGiven, RowsGiven, PartsHold, AllGenuine;
    var upload, rows := w.handlers[h].upload, RowsListed(w.s.t, w.handlers[h].upload, numbers);
    forall i | 0 <= i < |rows| ensures rows[i].size > 0 { assert numbers[i] in numbers && (upload, numbers[i]) in w.s.t.parts; }
  }

  lemma JoinedHandler(w: World, h: nat, now: int, payload: nat)
    requires payload > 0 && WorldInv(w, payload) && Honest(w, JoinPart(h, now), payload) && Reading(w, h)
    ensures var u := Act(w, JoinPart(h, now));
            h in u.handlers && HandlerOk(u.s, u.given, u.handlers[h])
  {
    hide LinksExist, HoldsGiven, RowsGiven, PartsHold, AllGenuine, RecordsOf, Later;
    var u, a, ids := Act(w, JoinPart(h, now)), w.handlers[h], PartSegments(w.s.t, NextPart(w, h));
    ReadsKnown(w.s, ids, now);
    KeepsCatalog(w, JoinPart(h, now), payload);
    HandlerStays(w.s, u.s, w.given, u.given, a);
  }

  lemma EventKeeps(w: World, e: Event, payload: nat)
    requires payload > 0 && WorldInv(w, payload) && Honest(w, e, payload)
    ensures WorldInv(Act(w, e), payload)
  {
    hide WellLinked, HoldsGiven, RowsGiven, PartsHold, AllGenuine, HandlerOk, Take, Honest, StoredPart, Later;
    KeepsCatalog(w, e, payload);
    KeepsGiven(w, e, payload);
    KeepsRows(w, e, payload);
    KeepsParts(w, e, payload);
    var u := Act(w, e);
    GivenGrows(w, e, payload);
    forall h | h in u.handlers ensures HandlerOk(u.s, u.given, u.handlers[h]) {
      if h in w.handlers && u.handlers[h] == w.handlers[h] {
        HandlerStays(w.s, u.s, w.given, u.given, u.handlers[h]);
      } else {
        MovedHandler(w, e, payload);
      }
    }
  }

  /** What an id was given never changes. */
  lemma GivenGrows(w: World, e: Event, payload: nat)
    requires payload > 0 && WorldInv(w, payload)
    ensures forall owner | owner in w.given :: owner in Act(w, e).given && Act(w, e).given[owner] == w.given[owner]
  {
    hide WellLinked, RowsGiven, PartsHold, AllGenuine, HandlerOk, Take, StoredPart, Meant;
  }

  lemma {:induction false} RunKeepsWorld(w: World, events: seq<Event>, payload: nat)
    requires payload > 0 && WorldInv(w, payload) && HonestRun(w, events, payload)
    ensures WorldInv(Run(w, events), payload)
  {
    hide WorldInv, Act, Honest;
    if events != [] {
      RunKeepsWorld(w, events[..|events| - 1], payload);
      EventKeeps(Run(w, events[..|events| - 1]), events[|events| - 1], payload);
    }
  }

  lemma StartsInvariant(now: int, payload: nat)
    requires payload > 0
    ensures WorldInv(Start(now), payload)
  {
    S3Leases.NothingYet(now);
  }
}
