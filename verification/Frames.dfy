/**
 Physical frames: `tag || ciphertext` under an abstract authenticated cipher, the assembler
 that cuts a response body into frames, and the download that decodes them. What a download
 yields depends on the bytes of the response, never on how they were chunked.
 */
module Frames {
  import opened Basics

  type Bytes = seq<bv8>

  const TAG_SIZE := 16

  datatype FrameError =
    | ZeroFrameSize
    | FrameTooSmall
    | InvalidFrameSize(expected: nat, actual: nat)
    | AuthenticationFailed
    | IncompleteFrame(expected: nat, actual: nat)

  datatype Sealed = Sealed(tag: Bytes, text: Bytes)

  /** The cipher under one object's key; a frame's index is its nonce. */
  datatype Cipher = Cipher(seal: (nat, Bytes) -> Sealed, unseal: (nat, Bytes, Bytes) -> Option<Bytes>)

  /** The one assumption made about it. */
  ghost predicate RoundTrips(c: Cipher) {
    forall index: nat, payload: Bytes ::
      var sealed := c.seal(index, payload);
      && |sealed.tag| == TAG_SIZE && |sealed.text| == |payload|
      && c.unseal(index, sealed.tag, sealed.text) == Some(payload)
  }

  function Zeros(n: nat): (z: Bytes)
    ensures |z| == n
  {
    seq(n, _ => 0)
  }

  /** Some cipher satisfies the assumption. */
  lemma SomeCipherRoundTrips() returns (c: Cipher)
    ensures RoundTrips(c)
  {
    c := Cipher((index, payload) => Sealed(Zeros(TAG_SIZE), payload), (index, tag, text) => Some(text));
  }

  // ---- One frame ------------------------------------------------------------------------

  function SealedFrame(c: Cipher, payload: Bytes, index: nat): Bytes {
    var sealed := c.seal(index, payload);
    sealed.tag + sealed.text
  }

  function EncodeFrame(c: Cipher, size: nat, payload: Bytes, index: nat): Result<Bytes, FrameError>
    requires size > TAG_SIZE
  {
    if |payload| != size - TAG_SIZE then Err(InvalidFrameSize(size - TAG_SIZE, |payload|))
    else Ok(SealedFrame(c, payload, index))
  }

  function DecodeFrame(c: Cipher, size: nat, frame: Bytes, index: nat): Result<Bytes, FrameError>
    requires size > TAG_SIZE
  {
    if |frame| != size then Err(InvalidFrameSize(size, |frame|))
    else
      var payload := c.unseal(index, frame[..TAG_SIZE], frame[TAG_SIZE..]);
      if payload.None? then Err(AuthenticationFailed) else Ok(payload.value)
  }

  /** Decoding undoes encoding at the same index. */
  lemma DecodeUndoesEncode(c: Cipher, size: nat, payload: Bytes, index: nat)
    requires size > TAG_SIZE && RoundTrips(c) && |payload| == size - TAG_SIZE
    ensures EncodeFrame(c, size, payload, index).Ok?
    ensures var frame := EncodeFrame(c, size, payload, index).value;
            |frame| == size && DecodeFrame(c, size, frame, index) == Ok(payload)
  {
    var sealed := c.seal(index, payload);
    assert |sealed.tag| == TAG_SIZE && |sealed.text| == |payload|;
    var frame := sealed.tag + sealed.text;
    assert frame[..TAG_SIZE] == sealed.tag && frame[TAG_SIZE..] == sealed.text;
  }

  // ---- The assembler -----------------------------------------------------------------------

  class FrameAssembler {
    const frameSize: nat
    var pending: Bytes

    constructor (frameSize: nat)
      ensures this.frameSize == frameSize && pending == []
    {
      this.frameSize := frameSize;
      pending := [];
    }

    static method Create(frameSize: nat) returns (r: Result<FrameAssembler, FrameError>)
      ensures r.Err? <==> frameSize == 0
      ensures r.Ok? ==> fresh(r.value) && r.value.frameSize == frameSize && r.value.pending == []
    {
      if frameSize == 0 { return Err(ZeroFrameSize); }
      var assembler := new FrameAssembler(frameSize);
      return Ok(assembler);
    }

    method Push(chunk: Bytes)
      modifies this
      ensures pending == old(pending) + chunk
    {
      pending := pending + chunk;
    }

    /** A whole frame off the front, once there is one; no byte is lost. */
    method NextFrame() returns (frame: Option<Bytes>)
      modifies this
      ensures frame.Some? <==> |old(pending)| >= frameSize
      ensures frame.Some? ==> |frame.value| == frameSize && old(pending) == frame.value + pending
      ensures frame.None? ==> pending == old(pending)
    {
      if |pending| < frameSize { return None; }
      frame := Some(pending[..frameSize]);
      pending := pending[frameSize..];
    }

    method Finish() returns (error: Option<FrameError>)
      ensures error == if pending == [] then None else Some(IncompleteFrame(frameSize, |pending|))
    {
      if pending == [] { return None; }
      return Some(IncompleteFrame(frameSize, |pending|));
    }
  }

  // ---- Downloading a frame range ---------------------------------------------------------------

  datatype DownloadError = Physical(error: FrameError) | RangeOverflow | TooManyBytes | EndedEarly | Transport

  /** Frames decoded so far, the bytes short of a frame, and what stopped the decoding. */
  datatype Fed = Fed(frames: seq<Bytes>, rest: Bytes, failure: Option<DownloadError>)

  /** Decodes every whole frame of `bytes`, the first of which must be frame `index`. */
  function Feed(c: Cipher, size: nat, index: nat, end: nat, bytes: Bytes): Fed
    requires size > TAG_SIZE
    decreases |bytes|
  {
    if |bytes| < size then Fed([], bytes, None)
    else if index >= end then Fed([], bytes, Some(TooManyBytes))
    else
      var frame := DecodeFrame(c, size, bytes[..size], index);
      if frame.Err? then Fed([], bytes, Some(Physical(frame.error)))
      else
        Led(frame.value, Feed(c, size, index + 1, end, bytes[size..]))
  }

  function Led(frame: Bytes, later: Fed): Fed {
    later.(frames := [frame] + later.frames)
  }

  /** The frames a download yields and how it ends. */
  datatype Download = Download(frames: seq<Bytes>, failure: Option<DownloadError>)

  /** A download of frames `[start, end)` whose response is `bytes`, then an error if `broken`. */
  function Downloaded(c: Cipher, size: nat, start: nat, end: nat, bytes: Bytes, broken: bool): Download
    requires size > TAG_SIZE
  {
    var fed := Feed(c, size, start, end, bytes);
    if fed.failure.Some? then Download(fed.frames, fed.failure)
    else if broken then Download(fed.frames, Some(Transport))
    else if fed.rest != [] then Download(fed.frames, Some(Physical(IncompleteFrame(size, |fed.rest|))))
    else if start + |fed.frames| != end then Download(fed.frames, Some(EndedEarly))
    else Download(fed.frames, None)
  }

  /** A good frame at the front is decoded on its own. */
  lemma FeedStep(c: Cipher, size: nat, index: nat, end: nat, bytes: Bytes)
    requires size > TAG_SIZE && |bytes| >= size && index < end && DecodeFrame(c, size, bytes[..size], index).Ok?
    ensures var payload := DecodeFrame(c, size, bytes[..size], index).value;
            Feed(c, size, index, end, bytes) == Led(payload, Feed(c, size, index + 1, end, bytes[size..]))
  {
  }

  lemma FeedStops(c: Cipher, size: nat, index: nat, end: nat, bytes: Bytes)
    requires size > TAG_SIZE && |bytes| >= size
    ensures index >= end ==> Feed(c, size, index, end, bytes) == Fed([], bytes, Some(TooManyBytes))
    ensures index < end && DecodeFrame(c, size, bytes[..size], index).Err? ==>
              Feed(c, size, index, end, bytes) == Fed([], bytes, Some(Physical(DecodeFrame(c, size, bytes[..size], index).error)))
  {
  }

  lemma FeedShort(c: Cipher, size: nat, index: nat, end: nat, bytes: Bytes)
    requires size > TAG_SIZE && |bytes| < size
    ensures Feed(c, size, index, end, bytes) == Fed([], bytes, None)
  {
  }

  function Continue(frames: seq<Bytes>, later: Fed): Fed {
    later.(frames := frames + later.frames)
  }

  /** Bytes that arrive later continue where the earlier ones left off. */
  lemma {:induction false} FeedAppend(c: Cipher, size: nat, index: nat, end: nat, bytes: Bytes, more: Bytes)
    requires size > TAG_SIZE
    ensures var fed, all := Feed(c, size, index, end, bytes), Feed(c, size, index, end, bytes + more);
            && (fed.failure.Some? ==> all.frames == fed.frames && all.failure == fed.failure)
            && (fed.failure.None? ==> all == Continue(fed.frames, Feed(c, size, index + |fed.frames|, end, fed.rest + more)))
    decreases |bytes|
  {
    hide Feed, DecodeFrame;
    if |bytes| < size {
      FeedShort(c, size, index, end, bytes);
    } else {
      assert (bytes + more)[..size] == bytes[..size] && (bytes + more)[size..] == bytes[size..] + more;
      if index < end && DecodeFrame(c, size, bytes[..size], index).Ok? {
        FeedStep(c, size, index, end, bytes);
        FeedStep(c, size, index, end, bytes + more);
        FeedAppend(c, size, index + 1, end, bytes[size..], more);
      } else {
        FeedStops(c, size, index, end, bytes);
        FeedStops(c, size, index, end, bytes + more);
      }
    }
  }

  /** The inner loop: decodes every frame the assembler has complete. */
  method DecodePending(assembler: FrameAssembler, c: Cipher, index: nat, end: nat)
    returns (frames: seq<Bytes>, failure: Option<DownloadError>)
    requires assembler.frameSize > TAG_SIZE
    modifies assembler
    ensures var fed := Feed(c, assembler.frameSize, index, end, old(assembler.pending));
            frames == fed.frames && failure == fed.failure && (failure.None? ==> assembler.pending == fed.rest)
  {
    hide Feed, DecodeFrame;
    frames := [];
    ghost var all := Feed(c, assembler.frameSize, index, end, assembler.pending);
    while |assembler.pending| >= assembler.frameSize
      invariant all == Continue(frames, Feed(c, assembler.frameSize, index + |frames|, end, assembler.pending))
      decreases |assembler.pending|
    {
      ghost var size, bytes := assembler.frameSize, assembler.pending;
      FeedStops(c, size, index + |frames|, end, bytes);
      var frame := assembler.NextFrame();
      assert bytes[..size] == frame.value && bytes[size..] == assembler.pending;
      if index + |frames| >= end { return frames, Some(TooManyBytes); }
      var payload := DecodeFrame(c, assembler.frameSize, frame.value, index + |frames|);
      if payload.Err? { return frames, Some(Physical(payload.error)); }
      FeedStep(c, size, index + |frames|, end, bytes);
      frames := frames + [payload.value];
    }
    FeedShort(c, assembler.frameSize, index + |frames|, end, assembler.pending);
    return frames, None;
  }

  /** One more chunk: either the download fails for good here, or it goes on. */
  lemma FeedChunk(c: Cipher, size: nat, start: nat, end: nat, chunks: seq<Bytes>, i: nat, broken: bool)
    requires size > TAG_SIZE && i < |chunks| && Feed(c, size, start, end, Flatten(chunks[..i])).failure.None?
    ensures var fed := Feed(c, size, start, end, Flatten(chunks[..i]));
            var next := Feed(c, size, start + |fed.frames|, end, fed.rest + chunks[i]);
            && Feed(c, size, start, end, Flatten(chunks[..i + 1])) == Continue(fed.frames, next)
            && (next.failure.Some? ==>
                  Downloaded(c, size, start, end, Flatten(chunks), broken) == Download(fed.frames + next.frames, next.failure))
  {
    hide Feed;
    assert chunks[..i + 1] == chunks[..i] + [chunks[i]] && chunks == chunks[..i + 1] + chunks[i + 1..];
    FlattenSnoc(chunks[..i], chunks[i]);
    FlattenAppend(chunks[..i + 1], chunks[i + 1..]);
    FeedAppend(c, size, start, end, Flatten(chunks[..i]), chunks[i]);
    FeedAppend(c, size, start, end, Flatten(chunks[..i + 1]), Flatten(chunks[i + 1..]));
  }

  /**
   `StreamDownloadBackend::download`: chunks come in, frames go out as soon as they are
   complete. The outcome is a function of the concatenated chunks alone.
   */
  method DownloadFrames(c: Cipher, size: nat, start: nat, end: nat, chunks: seq<Bytes>, broken: bool)
    returns (frames: seq<Bytes>, failure: Option<DownloadError>)
    ensures start * size > U64_MAX || end * size > U64_MAX ==> frames == [] && failure == Some(RangeOverflow)
    ensures start * size <= U64_MAX && end * size <= U64_MAX ==>
              if size <= TAG_SIZE then frames == [] && failure == Some(Physical(FrameTooSmall))
              else Download(frames, failure) == Downloaded(c, size, start, end, Flatten(chunks), broken)
  {
    hide Feed;
    if start * size > U64_MAX || end * size > U64_MAX { return [], Some(RangeOverflow); }
    if size <= TAG_SIZE { return [], Some(Physical(FrameTooSmall)); }
    var assembler := new FrameAssembler(size);
    frames := [];
    assert chunks[..0] == [];
    FeedShort(c, size, start, end, []);
    for i := 0 to |chunks|
      invariant fresh(assembler) && assembler.frameSize == size
      invariant Feed(c, size, start, end, Flatten(chunks[..i])) == Fed(frames, assembler.pending, None)
    {
      FeedChunk(c, size, start, end, chunks, i, broken);
      assembler.Push(chunks[i]);
      var decoded, stopped := DecodePending(assembler, c, start + |frames|, end);
      frames := frames + decoded;
      if stopped.Some? { return frames, stopped; }
    }
    assert chunks[..|chunks|] == chunks;
    if broken { return frames, Some(Transport); }
    var unfinished := assembler.Finish();
    if unfinished.Some? { return frames, Some(Physical(unfinished.value)); }
    if start + |frames| != end { return frames, Some(EndedEarly); }
    return frames, None;
  }

  // ---- Authentic responses --------------------------------------------------------------------------

  predicate FullFrames(payloads: seq<Bytes>, payloadSize: nat) {
    forall i | 0 <= i < |payloads| :: |payloads[i]| == payloadSize
  }

  /** The stored bytes of payloads numbered from `index`. */
  function StoredFrom(c: Cipher, payloads: seq<Bytes>, index: nat): Bytes {
    if payloads == [] then [] else SealedFrame(c, payloads[0], index) + StoredFrom(c, payloads[1..], index + 1)
  }

  lemma SealedFrameSize(c: Cipher, payload: Bytes, index: nat)
    requires RoundTrips(c)
    ensures |SealedFrame(c, payload, index)| == TAG_SIZE + |payload|
  {
  }

  lemma {:induction false} StoredLength(c: Cipher, size: nat, payloads: seq<Bytes>, index: nat)
    requires size > TAG_SIZE && RoundTrips(c) && FullFrames(payloads, size - TAG_SIZE)
    ensures |StoredFrom(c, payloads, index)| == |payloads| * size
  {
    hide RoundTrips;
    if payloads != [] {
      SealedFrameSize(c, payloads[0], index);
      assert |payloads| * size == size + |payloads[1..]| * size;
      StoredLength(c, size, payloads[1..], index + 1);
    }
  }

  lemma StoredTail(c: Cipher, size: nat, payloads: seq<Bytes>, index: nat)
    requires size > TAG_SIZE && RoundTrips(c) && FullFrames(payloads, size - TAG_SIZE) && payloads != []
    ensures |StoredFrom(c, payloads, index)| >= size
    ensures StoredFrom(c, payloads, index)[size..] == StoredFrom(c, payloads[1..], index + 1)
  {
    hide RoundTrips, SealedFrame;
    SealedFrameSize(c, payloads[0], index);
  }

  lemma DropAgain(bytes: Bytes, a: nat, b: nat)
    requires a + b <= |bytes|
    ensures bytes[a..][b..] == bytes[a + b..]
  {
  }

  /** An object's bytes from frame `from` on are those of its later payloads. */
  lemma {:induction false} StoredSuffix(c: Cipher, size: nat, payloads: seq<Bytes>, index: nat, from: nat)
    requires size > TAG_SIZE && RoundTrips(c) && FullFrames(payloads, size - TAG_SIZE) && from <= |payloads|
    ensures |StoredFrom(c, payloads, index)| == |payloads| * size
    ensures 0 <= from * size <= |payloads| * size
    ensures StoredFrom(c, payloads, index)[from * size..] == StoredFrom(c, payloads[from..], index + from)
  {
    hide RoundTrips, StoredFrom;
    StoredLength(c, size, payloads, index);
    MulLe(from, |payloads|, size);
    if from == 0 {
      assert payloads[0..] == payloads;
    } else {
      StoredTail(c, size, payloads, index);
      StoredSuffix(c, size, payloads[1..], index + 1, from - 1);
      assert payloads[1..][from - 1..] == payloads[from..];
      DropAgain(StoredFrom(c, payloads, index), size, (from - 1) * size);
      assert from * size == size + (from - 1) * size;
    }
  }

  /** The bytes of a whole stored frame, then those of the later ones. */
  lemma StoredFront(c: Cipher, size: nat, payloads: seq<Bytes>, index: nat, n: nat)
    requires size > TAG_SIZE && RoundTrips(c) && FullFrames(payloads, size - TAG_SIZE)
    requires size <= n <= |StoredFrom(c, payloads, index)|
    ensures payloads != [] && n - size <= |StoredFrom(c, payloads[1..], index + 1)|
    ensures var bytes := StoredFrom(c, payloads, index)[..n];
            && DecodeFrame(c, size, bytes[..size], index) == Ok(payloads[0])
            && bytes[size..] == StoredFrom(c, payloads[1..], index + 1)[..n - size]
  {
    DecodeUndoesEncode(c, size, payloads[0], index);
    hide DecodeFrame, RoundTrips;
    var stored := StoredFrom(c, payloads, index);
    var frame := SealedFrame(c, payloads[0], index);
    assert stored == frame + StoredFrom(c, payloads[1..], index + 1);
    assert stored[..n][..size] == frame;
  }

  /** Feeding the first `n` bytes of authentic frames: whole frames come back as stored. */
  lemma {:induction false} FeedAuthentic(c: Cipher, size: nat, payloads: seq<Bytes>, index: nat, end: nat, n: nat, whole: nat)
    requires size > TAG_SIZE && RoundTrips(c) && FullFrames(payloads, size - TAG_SIZE)
    requires index <= end && n <= |StoredFrom(c, payloads, index)| && whole * size <= n < whole * size + size
    ensures whole <= |payloads|
    ensures var fed := Feed(c, size, index, end, StoredFrom(c, payloads, index)[..n]);
            && fed.frames == payloads[..Min(whole, end - index)]
            && fed.failure == (if whole > end - index then Some(TooManyBytes) else None)
            && (fed.failure.None? ==> |fed.rest| == n - whole * size)
    decreases whole
  {
    hide Feed, DecodeFrame, RoundTrips, StoredFrom;
    StoredSuffix(c, size, payloads, index, 0);
    MulCancel(whole, |payloads|, size);
    var bytes := StoredFrom(c, payloads, index)[..n];
    if whole == 0 {
      FeedShort(c, size, index, end, bytes);
    } else {
      assert whole * size == (whole - 1) * size + size && 0 <= (whole - 1) * size;
      StoredFront(c, size, payloads, index, n);
      if index < end {
        FeedStep(c, size, index, end, bytes);
        FeedAuthentic(c, size, payloads[1..], index + 1, end, n - size, whole - 1);
        assert payloads[..Min(whole, end - index)] == [payloads[0]] + payloads[1..][..Min(whole - 1, end - index - 1)];
      } else {
        FeedStops(c, size, index, end, bytes);
      }
    }
  }

  /**
   Whatever its chunking, a response of authentic stored bytes from the start of the range
   succeeds exactly when it is as long as the range, and then yields the stored payloads;
   too short or too long, it still yields no wrong frame.
   */
  lemma AuthenticDownload(c: Cipher, size: nat, payloads: seq<Bytes>, start: nat, end: nat, response: Bytes)
    requires size > TAG_SIZE && RoundTrips(c) && FullFrames(payloads, size - TAG_SIZE)
    requires start <= end <= |payloads|
    requires 0 <= start * size <= |StoredFrom(c, payloads, 0)| && response <= StoredFrom(c, payloads, 0)[start * size..]
    ensures var d := Downloaded(c, size, start, end, response, false);
            && d.frames <= payloads[start..end]
            && (d.failure.None? <==> |response| == (end - start) * size)
            && (d.failure.None? ==> d.frames == payloads[start..end])
  {
    hide Feed, RoundTrips, StoredFrom;
    StoredSuffix(c, size, payloads, 0, start);
    var tail, n, count := payloads[start..], |response|, end - start;
    var whole := WholeFrames(n, size, count);
    assert response == StoredFrom(c, tail, start)[..n];
    FeedAuthentic(c, size, tail, start, end, n, whole);
    assert tail[..Min(whole, count)] == payloads[start..end][..Min(whole, count)];
    assert payloads[start..end][..count] == payloads[start..end];
  }

  /** How many whole frames `n` bytes hold, compared with `count` of them exactly. */
  lemma WholeFrames(n: nat, size: nat, count: nat) returns (whole: nat)
    requires size > 0
    ensures whole * size <= n < whole * size + size
    ensures n == count * size <==> whole == count && n - whole * size == 0
  {
    whole := n / size;
    assert whole * size <= n < whole * size + size;
    if n == count * size { QuotientIs(n, size, count); }
  }
}
