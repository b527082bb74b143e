/**
 Stored segments and downloads over a list of them: the scheduler's frames, clipped to the
 request, are the requested bytes of the plaintexts in list order.
 */
module Segments {
  import opened Basics
  import opened Frames
  import opened Uploads
  import opened ByteStreams
  import Model = SessionModel
  import Invariant = SessionInvariant
  import Runs = SessionRuns
  import Liveness = SessionLiveness
  import Delivery = SessionDelivery

  /** What a catalog records of an uploaded object; `body` is history, the plaintext uploaded. */
  datatype Segment = Segment(uri: string, frameCount: nat, size: nat, body: Bytes)

  /** A segment as an upload leaves it. */
  predicate Genuine(s: Segment, payload: nat)
    requires payload > 0
  {
    s.size == |s.body| && s.frameCount == CeilDiv(s.size, payload)
  }

  /** The plaintexts of these segments, one after the other. */
  function Content(objects: seq<Segment>): Bytes {
    if objects == [] then [] else objects[0].body + Content(objects[1..])
  }

  /** The payload frames stored for these segments, one object after the other. */
  function FramesOf(objects: seq<Segment>, payload: nat): seq<Bytes>
    requires payload > 0
  {
    if objects == [] then [] else Padded(objects[0].body, payload) + FramesOf(objects[1..], payload)
  }

  ghost predicate AlignedButLast(objects: seq<Segment>, payload: nat)
    requires payload > 0
  {
    && (forall i | 0 <= i < |objects| :: Genuine(objects[i], payload))
    && (forall i | 0 <= i < |objects| - 1 :: objects[i].size % payload == 0)
  }

  lemma CeilDivExact(n: nat, d: nat)
    requires d > 0 && n % d == 0
    ensures CeilDiv(n, d) * d == n
  {
    var q := n / d;
    assert n == q * d;
    QuotientIs(n + d - 1, d, q);
  }

  /** An aligned body needs no padding. */
  lemma AlignedUnpadded(body: Bytes, payload: nat)
    requires payload > 0 && |body| % payload == 0
    ensures Flatten(Padded(body, payload)) == body
  {
    hide Padded, CeilDiv;
    PaddedHoldsBody(body, payload);
    CeilDivExact(|body|, payload);
  }

  /** Alignment makes frame offsets coincide with byte offsets. */
  lemma {:induction false} FramesHoldContent(objects: seq<Segment>, payload: nat)
    requires payload > 0 && AlignedButLast(objects, payload)
    ensures FullFrames(FramesOf(objects, payload), payload)
    ensures Content(objects) <= Flatten(FramesOf(objects, payload))
  {
    hide Padded, Genuine;
    if objects != [] {
      var body, rest := objects[0].body, objects[1..];
      assert Genuine(objects[0], payload) && forall i | 0 <= i < |rest| :: rest[i] == objects[i + 1];
      FramesHoldContent(rest, payload);
      PaddedShape(body, payload);
      PaddedHoldsBody(body, payload);
      FlattenAppend(Padded(body, payload), FramesOf(rest, payload));
      if rest != [] { GenuineBody(objects[0], payload); AlignedUnpadded(body, payload); }
    }
  }

  lemma GenuineBody(s: Segment, payload: nat)
    requires payload > 0 && Genuine(s, payload)
    ensures s.size == |s.body|
  {
  }

  // ---- The download session over those objects -----------------------------------------------------

  function FrameOf(objects: seq<Segment>, payload: nat, serial: nat, k: nat): Bytes
    requires payload > 0
  {
    if serial < |objects| && k < |Padded(objects[serial].body, payload)| then Padded(objects[serial].body, payload)[k] else []
  }

  function ServeFrom(objects: seq<Segment>, payload: nat): Invariant.Serve
    requires payload > 0
  {
    (serial: nat, k: nat) => FrameOf(objects, payload, serial, k)
  }

  /** The object list handed to the scheduler. */
  function Metas(objects: seq<Segment>): seq<Model.ObjectMeta> {
    seq(|objects|, i requires 0 <= i < |objects| => Model.ObjectMeta(i, objects[i].frameCount))
  }

  lemma {:induction false} FramesSnoc(objects: seq<Segment>, last: Segment, payload: nat)
    requires payload > 0
    ensures FramesOf(objects + [last], payload) == FramesOf(objects, payload) + Padded(last.body, payload)
  {
    if objects == [] {
      assert [] + [last] == [last] && [last][1..] == [];
    } else {
      assert (objects + [last])[1..] == objects[1..] + [last];
      FramesSnoc(objects[1..], last, payload);
    }
  }

  /** The scheduler's global frames are the stored payload frames. */
  lemma {:induction false} GlobalFrames(objects: seq<Segment>, payload: nat, n: nat)
    requires payload > 0 && n <= |objects| && forall i | 0 <= i < |objects| :: Genuine(objects[i], payload)
    ensures Invariant.AllFrames(ServeFrom(objects, payload), Metas(objects)[..n]) == FramesOf(objects[..n], payload)
  {
    if n > 0 {
      var last := n - 1;
      var serve, metas := ServeFrom(objects, payload), Metas(objects);
      GlobalFrames(objects, payload, last);
      assert metas[..n][..last] == metas[..last] && objects[..n] == objects[..last] + [objects[last]];
      FramesSnoc(objects[..last], objects[last], payload);
      assert Genuine(objects[last], payload);
      PaddedShape(objects[last].body, payload);
      var frames := seq(objects[last].frameCount, k requires 0 <= k => serve(last, k));
      assert frames == Padded(objects[last].body, payload);
    }
  }

  lemma {:induction false} FramesPrefix(objects: seq<Segment>, payload: nat, n: nat)
    requires payload > 0 && n <= |objects|
    ensures FramesOf(objects[..n], payload) <= FramesOf(objects, payload)
    decreases |objects| - n
  {
    if n == |objects| {
      assert objects[..n] == objects;
    } else {
      assert objects[..n + 1] == objects[..n] + [objects[n]];
      FramesSnoc(objects[..n], objects[n], payload);
      FramesPrefix(objects, payload, n + 1);
    }
  }

  /** What the download backend yields for a stored object is what the scheduler expects of it. */
  lemma DownloadsServe(c: Cipher, frameSize: nat, objects: seq<Segment>, serial: nat, start: nat, end: nat, response: seq<Bytes>)
    requires frameSize > TAG_SIZE && RoundTrips(c) && serial < |objects|
    requires start <= end <= CeilDiv(|objects[serial].body|, frameSize - TAG_SIZE)
    requires var stored := StoredFrom(c, Padded(objects[serial].body, frameSize - TAG_SIZE), 0);
             && 0 <= start * frameSize <= end * frameSize <= |stored|
             && Flatten(response) == stored[start * frameSize..end * frameSize]
    ensures var d := Downloaded(c, frameSize, start, end, Flatten(response), false);
            && d.failure.None? && |d.frames| == end - start
            && forall k | 0 <= k < |d.frames| :: d.frames[k] == ServeFrom(objects, frameSize - TAG_SIZE)(serial, start + k)
  {
    hide Downloaded, RoundTrips, StoredFrom, Padded;
    CodecRoundTrip(c, frameSize, objects[serial].body, start, end, response);
  }

  /** The source hands over the file's objects in order and ends only after the last. */
  predicate Supplies(objects: seq<Segment>, s: Model.Session) {
    && s.supplied <= Metas(objects)
    && (s.terminated ==> s.supplied == Metas(objects))
  }

  /** A session's output over an aligned list of objects is the range asked for. */
  lemma SessionYieldsRange(objects: seq<Segment>, payload: nat, r: ByteRequest, s: Model.Session, events: seq<Runs.Event>)
    requires payload > 0 && AlignedButLast(objects, payload) && r.start < r.end <= |Content(objects)|
    requires Runs.Fresh(s) && s.first == FirstFrame(r, payload) && s.last == LastFrame(r, payload)
    requires Runs.HonestRun(ServeFrom(objects, payload), events) && Supplies(objects, Runs.Drive(s, events).session)
    ensures var d := Runs.Drive(s, events);
            var bytes := Window(Flatten(d.session.sent), r.start % payload, r.end - r.start);
            && bytes <= Content(objects)[r.start..r.end]
            && (d.phase.Closing? ==> bytes == Content(objects)[r.start..r.end])
  {
    hide Runs.Drive, Runs.HonestRun, Invariant.AllFrames, FramesOf, Content, Window, FirstFrame, LastFrame, Genuine;
    var serve, d, frames := ServeFrom(objects, payload), Runs.Drive(s, events), FramesOf(objects, payload);
    Runs.OrderAndCompleteness(serve, s, events);
    FramesHoldContent(objects, payload);
    ClippedExactly(frames, payload, r, d.session.sent);
    var n := |d.session.supplied|;
    assert Metas(objects)[..n] == d.session.supplied;
    GlobalFrames(objects, payload, n);
    FramesPrefix(objects, payload, n);
    assert objects[..|objects|] == objects;
    RequestedFrames(FramesOf(objects[..n], payload), frames, s.first, s.last);
    assert Flatten(frames)[r.start..r.end] == Content(objects)[r.start..r.end];
  }

  /** The requested part of the frames supplied so far, against that of all frames. */
  lemma RequestedFrames(some: seq<Bytes>, all: seq<Bytes>, first: nat, last: nat)
    requires some <= all && first < last <= |all|
    ensures Runs.Slice(some, first, last) <= all[first..last]
    ensures |Runs.Slice(some, first, last)| == last - first || some == all ==> Runs.Slice(some, first, last) == all[first..last]
  {
  }

  /**
   A session that is answered neither with an error nor with "pending" comes to its close and has
   output the whole range by then.
   */
  lemma SessionDelivers(objects: seq<Segment>, payload: nat, r: ByteRequest, s: Model.Session, events: seq<Runs.Event>)
    requires payload > 0 && AlignedButLast(objects, payload) && r.start < r.end <= |Content(objects)|
    requires Runs.Fresh(s) && s.first == FirstFrame(r, payload) && s.last == LastFrame(r, payload)
    requires Runs.HonestRun(ServeFrom(objects, payload), events) && Delivery.Storable(Metas(objects))
    requires Delivery.FlawlessRun(s, Metas(objects), events) && Liveness.ResponsiveRun(s, events)
    requires Liveness.PollCount(events) > 3 * (s.last - s.first)
    ensures var d := Runs.Drive(s, events);
            && d.phase.Closing?
            && Window(Flatten(d.session.sent), r.start % payload, r.end - r.start) == Content(objects)[r.start..r.end]
  {
    hide Runs.Drive, Runs.HonestRun, Runs.Fresh, Content, Window, FirstFrame, LastFrame, AlignedButLast;
    Delivery.NeverFails(ServeFrom(objects, payload), s, Metas(objects), events);
    Delivery.Delivers(ServeFrom(objects, payload), s, Metas(objects), events);
    SessionYieldsRange(objects, payload, r, s, events);
  }
}
