/**
 Uploading one object: a body in arbitrary chunks becomes full payload frames padded with
 zeros, numbered and encrypted. What is stored depends on the body, not on its chunks.
 */
module Uploads {
  import opened Basics
  import opened Frames

  datatype UploadError =
    | FrameTooSmall
    | ZeroCapacity
    | Empty
    | TooLarge(maxBytes: nat)
    | TooManyFrames(maxFrames: nat)
    | LengthMismatch(expected: nat, actual: nat)
    | Incomplete
    | BadFrame(error: FrameError)
    | BodyFailed
    | StoreFailed

  function CeilDiv(n: nat, d: nat): nat
    requires d > 0
  {
    (n + d - 1) / d
  }

  /** A body cut into payloads, the last one padded with zeros. */
  function Padded(body: Bytes, payload: nat): seq<Bytes>
    requires payload > 0
    decreases |body|
  {
    if body == [] then []
    else if |body| < payload then [body + Zeros(payload - |body|)]
    else [body[..payload]] + Padded(body[payload..], payload)
  }

  lemma CeilDivStep(n: nat, d: nat)
    requires d > 0
    ensures 0 < n <= d ==> CeilDiv(n, d) == 1
    ensures n >= d ==> CeilDiv(n, d) == 1 + CeilDiv(n - d, d)
    ensures n <= CeilDiv(n, d) * d < n + d
  {
    var q := CeilDiv(n, d);
    assert q * d <= n + d - 1 < q * d + d;
    if n >= d {
      var r := CeilDiv(n - d, d);
      assert r * d <= n - 1 < r * d + d;
      assert (r + 1) * d == r * d + d;
      QuotientIs(n + d - 1, d, r + 1);
    } else if n > 0 {
      QuotientIs(n + d - 1, d, 1);
    }
  }

  lemma {:induction false} PaddedShape(body: Bytes, payload: nat)
    requires payload > 0
    ensures FullFrames(Padded(body, payload), payload)
    ensures |Padded(body, payload)| == CeilDiv(|body|, payload)
    decreases |body|
  {
    CeilDivStep(|body|, payload);
    if body == [] {
      QuotientIs(payload - 1, payload, 0);
    } else if |body| >= payload {
      hide CeilDiv;
      PaddedShape(body[payload..], payload);
    }
  }

  lemma {:induction false} FlattenFull(frames: seq<Bytes>, payload: nat)
    requires FullFrames(frames, payload)
    ensures |Flatten(frames)| == |frames| * payload
  {
    if frames != [] {
      FlattenFull(frames[1..], payload);
      assert |frames| * payload == payload + |frames[1..]| * payload;
    }
  }

  /** The body comes back from its payloads, followed only by padding. */
  lemma {:induction false} PaddedHoldsBody(body: Bytes, payload: nat)
    requires payload > 0
    ensures |Flatten(Padded(body, payload))| == CeilDiv(|body|, payload) * payload >= |body|
    ensures Flatten(Padded(body, payload)) == body + Zeros(|Flatten(Padded(body, payload))| - |body|)
    decreases |body|
  {
    PaddedShape(body, payload);
    FlattenFull(Padded(body, payload), payload);
    CeilDivStep(|body|, payload);
    hide CeilDiv, FullFrames;
    if body == [] {
    } else if |body| >= payload {
      PaddedHoldsBody(body[payload..], payload);
      var padded := Flatten(Padded(body[payload..], payload));
      assert Flatten(Padded(body, payload)) == body[..payload] + padded;
      Associative(body[..payload], body[payload..], Zeros(|padded| - (|body| - payload)));
      assert body == body[..payload] + body[payload..];
    } else {
      assert Padded(body, payload) == [body + Zeros(payload - |body|)];
    }
  }

  /** Full frames followed by a short remainder are the payloads of their concatenation. */
  lemma {:induction false} PaddedIs(frames: seq<Bytes>, pending: Bytes, payload: nat)
    requires FullFrames(frames, payload) && |pending| < payload
    ensures Padded(Flatten(frames) + pending, payload)
         == frames + if pending == [] then [] else [pending + Zeros(payload - |pending|)]
  {
    if frames == [] {
      assert Flatten(frames) + pending == pending;
      if pending != [] { assert Padded(pending, payload) == [pending + Zeros(payload - |pending|)]; }
    } else {
      var body := Flatten(frames) + pending;
      assert |frames[0]| == payload && body[..payload] == frames[0];
      assert body[payload..] == Flatten(frames[1..]) + pending;
      PaddedIs(frames[1..], pending, payload);
    }
  }

  // ---- Cutting the body into frames ---------------------------------------------------------

  /** The inner loop: fills the pending payload from one chunk, emitting it whenever it is full. */
  method CutChunk(pending: Bytes, chunk: Bytes, payload: nat) returns (frames: seq<Bytes>, rest: Bytes)
    requires |pending| < payload
    ensures FullFrames(frames, payload) && |rest| < payload
    ensures Flatten(frames) + rest == pending + chunk
  {
    frames, rest := [], pending;
    var offset := 0;
    while offset < |chunk|
      invariant offset <= |chunk| && |rest| < payload && FullFrames(frames, payload)
      invariant Flatten(frames) + rest == pending + chunk[..offset]
    {
      var take := Min(payload - |rest|, |chunk| - offset);
      var piece := chunk[offset..offset + take];
      assert chunk[..offset + take] == chunk[..offset] + piece;
      Associative(pending, chunk[..offset], piece);
      Associative(Flatten(frames), rest, piece);
      rest := rest + piece;
      offset := offset + take;
      if |rest| == payload {
        FlattenSnoc(frames, rest);
        frames, rest := frames + [rest], [];
      }
    }
    assert chunk[..offset] == chunk;
  }

  /** What the upload remembers of a body it consumed to the end; `hashed` went into the checksum. */
  datatype Summary = Summary(size: nat, frameCount: nat, hashed: Bytes)

  /** The frame stream of an upload whose body arrives as `chunks`, then fails if `broken`. */
  method CutBody(payload: nat, maxFrames: nat, chunks: seq<Bytes>, broken: bool)
    returns (frames: seq<Bytes>, summary: Result<Summary, UploadError>)
    requires payload > 0
    ensures var body, maxBytes := Flatten(chunks), maxFrames * payload;
            && summary == (if |body| > maxBytes then Err(TooLarge(maxBytes))
                           else if broken then Err(BodyFailed)
                           else if body == [] then Err(Empty)
                           else Ok(Summary(|body|, CeilDiv(|body|, payload), body)))
            && (summary.Ok? ==> frames == Padded(body, payload))
  {
    var pending: Bytes, hashed: Bytes := [], [];
    var maxBytes := maxFrames * payload;
    var size := 0;
    frames := [];
    assert chunks[..0] == [];
    for i := 0 to |chunks|
      invariant size == |hashed| <= maxBytes && hashed == Flatten(chunks[..i])
      invariant FullFrames(frames, payload) && |pending| < payload && hashed == Flatten(frames) + pending
    {
      assert chunks[..i + 1] == chunks[..i] + [chunks[i]] && chunks == chunks[..i + 1] + chunks[i + 1..];
      FlattenSnoc(chunks[..i], chunks[i]);
      FlattenAppend(chunks[..i + 1], chunks[i + 1..]);
      size := size + |chunks[i]|;
      if size > maxBytes { return frames, Err(TooLarge(maxBytes)); }
      hashed := hashed + chunks[i];
      var more, rest := CutChunk(pending, chunks[i], payload);
      FlattenAppend(frames, more);
      Associative(Flatten(frames), pending, chunks[i]);
      Associative(Flatten(frames), Flatten(more), rest);
      frames, pending := frames + more, rest;
    }
    assert chunks[..|chunks|] == chunks;
    if broken { return frames, Err(BodyFailed); }
    PaddedIs(frames, pending, payload);
    PaddedShape(hashed, payload);
    if pending == [] && frames == [] { return frames, Err(Empty); }
    if frames != [] { assert Flatten(frames) == frames[0] + Flatten(frames[1..]) && |frames[0]| == payload; }
    if pending != [] { frames := frames + [pending + Zeros(payload - |pending|)]; }
    return frames, Ok(Summary(size, |frames|, hashed));
  }

  // ---- Numbering and encrypting -----------------------------------------------------------------

  function MaxFrames(maxPhysicalBytes: nat, frameSize: nat): nat
    requires frameSize > 0
  {
    Min(maxPhysicalBytes / frameSize, U32_MAX)
  }

  lemma {:induction false} StoredSnoc(c: Cipher, payloads: seq<Bytes>, index: nat, last: Bytes)
    ensures StoredFrom(c, payloads + [last], index) == StoredFrom(c, payloads, index) + SealedFrame(c, last, index + |payloads|)
  {
    if payloads == [] {
      assert [] + [last] == [last];
    } else {
      assert (payloads + [last])[1..] == payloads[1..] + [last];
      StoredSnoc(c, payloads[1..], index + 1, last);
    }
  }

  /** `StreamUploadBackend::upload`: frame `k` is encrypted under nonce `k`, up to the limit. */
  method EncodeFrames(c: Cipher, frameSize: nat, maxFrames: nat, frames: seq<Bytes>)
    returns (bytes: Bytes, failure: Option<UploadError>)
    requires frameSize > TAG_SIZE
    ensures FullFrames(frames, frameSize - TAG_SIZE) ==>
              failure == if |frames| > maxFrames then Some(TooManyFrames(maxFrames)) else None
    ensures failure.None? ==> FullFrames(frames, frameSize - TAG_SIZE) && bytes == StoredFrom(c, frames, 0)
  {
    bytes := [];
    for index := 0 to |frames|
      invariant index <= maxFrames && FullFrames(frames[..index], frameSize - TAG_SIZE)
      invariant bytes == StoredFrom(c, frames[..index], 0)
    {
      if index >= maxFrames { return bytes, Some(TooManyFrames(maxFrames)); }
      var encrypted := EncodeFrame(c, frameSize, frames[index], index);
      if encrypted.Err? { return bytes, Some(BadFrame(encrypted.error)); }
      assert frames[..index + 1] == frames[..index] + [frames[index]];
      StoredSnoc(c, frames[..index], 0, frames[index]);
      bytes := bytes + encrypted.value;
    }
    assert frames[..|frames|] == frames;
    return bytes, None;
  }

  // ---- ByteUpload::upload -------------------------------------------------------------------------

  /** The lowest layer stores the stream to its end, stops before the end, or fails. */
  datatype StoreAnswer = Stores | StopsEarly | Refuses

  /** Sizes an upload accepts before reading any of the body. */
  predicate Announced(contentLength: Option<nat>, maxBytes: nat) {
    contentLength.Some? ==> 0 < contentLength.value <= maxBytes
  }

  /** What an upload leaves stored: nothing, the whole stream, or what a store made of part of it. */
  datatype Left = Nothing | Whole(bytes: Bytes) | Partial

  /** Refusals before anything is read of the body. */
  predicate Accepted(frameSize: nat, maxPhysicalBytes: nat, contentLength: Option<nat>) {
    && frameSize > TAG_SIZE && MaxFrames(maxPhysicalBytes, frameSize) > 0
    && Announced(contentLength, MaxFrames(maxPhysicalBytes, frameSize) * (frameSize - TAG_SIZE))
  }

  /**
   Uploads a body. A body of another length than announced is deleted again, which may itself
   fail; a store that failed, or stopped before the end of the stream, is left as it is.
   */
  method Upload(c: Cipher, frameSize: nat, maxPhysicalBytes: nat, chunks: seq<Bytes>, broken: bool,
                contentLength: Option<nat>, answer: StoreAnswer, deletes: bool)
    returns (r: Result<Summary, UploadError>, left: Left)
    ensures frameSize <= TAG_SIZE ==> r == Err(UploadError.FrameTooSmall)
    ensures frameSize > TAG_SIZE ==>
              var body, payload := Flatten(chunks), frameSize - TAG_SIZE;
              var maxFrames := MaxFrames(maxPhysicalBytes, frameSize);
              && (r.Ok? <==> maxFrames > 0 && !broken && answer.Stores? && 0 < |body| <= maxFrames * payload
                             && (contentLength.Some? ==> contentLength.value == |body|))
              && (r.Ok? ==> r.value == Summary(|body|, CeilDiv(|body|, payload), body))
              && (maxFrames > 0 && contentLength.Some? && !Announced(contentLength, maxFrames * payload) ==>
                    r == Err(if contentLength.value == 0 then Empty else TooLarge(maxFrames * payload)))
              && (maxFrames > 0 && contentLength.Some? && Announced(contentLength, maxFrames * payload) && answer.Stores?
                  && !broken && 0 < |body| <= maxFrames * payload && contentLength.value != |body| ==>
                    r == Err(LengthMismatch(contentLength.value, |body|)))
              && (var mismatch := r.Err? && r.error.LengthMismatch?;
                  left == if !Accepted(frameSize, maxPhysicalBytes, contentLength) || (mismatch && deletes) then Nothing
                          else if r.Ok? || mismatch then Whole(StoredFrom(c, Padded(body, payload), 0))
                          else Partial)
    ensures frameSize <= TAG_SIZE ==> left.Nothing?
  {
    left := Nothing;
    if frameSize <= TAG_SIZE { return Err(UploadError.FrameTooSmall), left; }
    var payload, maxFrames := frameSize - TAG_SIZE, MaxFrames(maxPhysicalBytes, frameSize);
    if maxFrames == 0 { return Err(ZeroCapacity), left; }
    var maxBytes := maxFrames * payload;
    if contentLength == Some(0) { return Err(Empty), left; }
    if contentLength.Some? && contentLength.value > maxBytes { return Err(TooLarge(maxBytes)), left; }
    if contentLength.Some? {
      // The frame count announced to the backend is therefore never refused.
      HintFits(contentLength.value, payload, maxFrames);
      assert CeilDiv(contentLength.value, payload) <= maxFrames;
    }
    left := Partial;
    if answer.Refuses? { return Err(StoreFailed), left; }
    if answer.StopsEarly? { return Err(Incomplete), left; }
    var frames, summary := CutBody(payload, maxFrames, chunks, broken);
    if summary.Err? { return Err(summary.error), left; }
    PaddedShape(Flatten(chunks), payload);
    HintFits(summary.value.size, payload, maxFrames);
    var bytes, failure := EncodeFrames(c, frameSize, maxFrames, frames);
    // Neither a frame too many nor one of the wrong size can reach the encoder.
    assert failure.None?;
    left := Whole(bytes);
    if contentLength.Some? && contentLength.value != summary.value.size {
      if deletes { left := Nothing; }
      return Err(LengthMismatch(contentLength.value, summary.value.size)), left;
    }
    return Ok(summary.value), left;
  }

  /** A size within the byte limit never asks for more frames than the limit. */
  lemma HintFits(size: nat, payload: nat, maxFrames: nat)
    requires payload > 0 && size <= maxFrames * payload
    ensures CeilDiv(size, payload) <= maxFrames
  {
    CeilDivStep(size, payload);
    MulCancel(CeilDiv(size, payload), maxFrames, payload);
  }

  /**
   Codec round trip. However the body was chunked on the way in and the response on the way
   out, downloading any frame range of the stored object yields those padded payloads.
   */
  lemma CodecRoundTrip(c: Cipher, frameSize: nat, body: Bytes, start: nat, end: nat, response: seq<Bytes>)
    requires frameSize > TAG_SIZE && RoundTrips(c)
    requires start <= end <= CeilDiv(|body|, frameSize - TAG_SIZE)
    requires 0 <= start * frameSize <= end * frameSize <= |StoredFrom(c, Padded(body, frameSize - TAG_SIZE), 0)|
    requires Flatten(response) == StoredFrom(c, Padded(body, frameSize - TAG_SIZE), 0)[start * frameSize..end * frameSize]
    ensures |Padded(body, frameSize - TAG_SIZE)| == CeilDiv(|body|, frameSize - TAG_SIZE)
    ensures Downloaded(c, frameSize, start, end, Flatten(response), false)
         == Download(Padded(body, frameSize - TAG_SIZE)[start..end], None)
  {
    hide Downloaded, RoundTrips, StoredFrom, Padded;
    PaddedShape(body, frameSize - TAG_SIZE);
    var stored := StoredFrom(c, Padded(body, frameSize - TAG_SIZE), 0);
    assert stored[start * frameSize..end * frameSize] <= stored[start * frameSize..];
    assert (end - start) * frameSize == end * frameSize - start * frameSize;
    AuthenticDownload(c, frameSize, Padded(body, frameSize - TAG_SIZE), start, end, Flatten(response));
  }
}
