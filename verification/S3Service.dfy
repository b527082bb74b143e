/**
 The S3 gateway's body handling: cutting an upload into segments, choosing the parts of a
 multipart upload, and streaming a range of an object whose segments need not be aligned.
 */
module S3Service {
  import opened Basics
  import opened Frames
  import opened Uploads
  import opened ByteStreams
  import opened Segments
  import opened S3Model

  datatype Error =
    | ZeroSegmentCapacity
    | EntityTooLarge
    | EntityTooSmall
    | BodyBroken
    | BadDigest
    | SegmentRefused
    | InvalidPart
    | InvalidPartOrder

  // ---- upload_body ------------------------------------------------------------------------------

  /** A body cut after every `max` bytes. */
  function Cut(body: Bytes, max: nat): seq<Bytes>
    requires max > 0
    decreases |body|
  {
    if body == [] then []
    else if |body| < max then [body]
    else [body[..max]] + Cut(body[max..], max)
  }

  /** Nothing is lost, and every segment fits an upload. */
  lemma {:induction false} CutHoldsBody(body: Bytes, max: nat)
    requires max > 0
    ensures Flatten(Cut(body, max)) == body
    ensures forall i | 0 <= i < |Cut(body, max)| :: 0 < |Cut(body, max)[i]| <= max
    decreases |body|
  {
    if |body| >= max {
      CutHoldsBody(body[max..], max);
      assert body == body[..max] + body[max..];
    }
  }

  /** Full segments followed by a short remainder are the cut of their concatenation. */
  lemma {:induction false} CutIs(segments: seq<Bytes>, pending: Bytes, max: nat)
    requires FullFrames(segments, max) && |pending| < max
    ensures Cut(Flatten(segments) + pending, max) == segments + if pending == [] then [] else [pending]
  {
    if segments == [] {
      assert Flatten(segments) + pending == pending;
    } else {
      var body := Flatten(segments) + pending;
      assert |segments[0]| == max && body[..max] == segments[0];
      assert body[max..] == Flatten(segments[1..]) + pending;
      CutIs(segments[1..], pending, max);
    }
  }

  /** Uploads and registers segments in turn until one fails. */
  method UploadSegments(first: nat, count: nat, accepts: nat -> bool) returns (done: nat)
    ensures done <= count && (forall k | first <= k < first + done :: accepts(k))
    ensures done < count ==> !accepts(first + done)
  {
    done := 0;
    while done < count
      invariant done <= count && forall k | first <= k < first + done :: accepts(k)
    {
      if !accepts(first + done) { return; }
      done := done + 1;
    }
  }

  lemma NothingYet(chunks: seq<Bytes>)
    ensures Flatten(chunks[..0]) == [] && Flatten<bv8>([]) == []
  {
  }

  lemma PrefixOfPrefix(a: seq<Bytes>, b: seq<Bytes>, n: nat, all: seq<Bytes>)
    requires n <= |b| && a + b <= all
    ensures a + b[..n] <= all
  {
    assert a + b[..n] <= a + b;
  }

  /** The segments a body is stored in; without a body there is nothing to cut. */
  function Bodies(body: Bytes, max: nat): seq<Bytes> {
    if max == 0 then [] else Cut(body, max)
  }

  /**
   `upload_body` over a body that arrives as `chunks`, if the request has one at all: what was
   uploaded, segment by segment, however the body was chunked, and how many bytes it had.
   `accepts(k)` says whether the k-th segment's upload and registration succeed, `digest` is the
   body's MD5.
   */
  method UploadBody(chunks: Option<seq<Bytes>>, broken: bool, max: nat, maxObjectSize: nat,
                    expected: Option<Bytes>, digest: Bytes -> Bytes, accepts: nat -> bool)
    returns (segments: seq<Bytes>, size: nat, error: Option<Error>)
    ensures var body := if chunks.Some? then Flatten(chunks.value) else [];
            && (error.None? <==>
                  && (chunks.Some? ==> max > 0 && !broken && |body| <= maxObjectSize)
                  && (forall k | 0 <= k < |Bodies(body, max)| :: accepts(k))
                  && (expected.Some? ==> expected.value == digest(body)))
            && (error.None? ==> segments == Bodies(body, max) && Flatten(segments) == body && size == |body|)
            && segments <= Bodies(body, max)
  {
    if chunks.None? {
      if expected.Some? && expected.value != digest([]) { return [], 0, Some(BadDigest); }
      return [], 0, None;
    }
    if max == 0 { return [], 0, Some(ZeroSegmentCapacity); }
    CutHoldsBody(Flatten(chunks.value), max);
    segments, size, error := UploadChunks(chunks.value, broken, max, maxObjectSize, expected, digest, accepts);
  }

  /** The loops of `upload_body`. */
  method UploadChunks(chunks: seq<Bytes>, broken: bool, max: nat, maxObjectSize: nat,
                      expected: Option<Bytes>, digest: Bytes -> Bytes, accepts: nat -> bool)
    returns (segments: seq<Bytes>, size: nat, error: Option<Error>)
    requires max > 0
    ensures var body := Flatten(chunks);
            && (error.None? <==>
                  && !broken && |body| <= maxObjectSize
                  && (forall k | 0 <= k < |Cut(body, max)| :: accepts(k))
                  && (expected.Some? ==> expected.value == digest(body)))
            && (error.None? ==> segments == Cut(body, max) && size == |body|)
            && segments <= Cut(body, max)
  {
    hide Cut, Flatten;
    segments := [];
    NothingYet(chunks);
    var pending: Bytes, hashed: Bytes := [], [];
    size := 0;
    for i := 0 to |chunks|
      invariant size == |hashed| <= maxObjectSize && hashed == Flatten(chunks[..i])
      invariant FullFrames(segments, max) && |pending| < max && hashed == Flatten(segments) + pending
      invariant forall k | 0 <= k < |segments| :: accepts(k)
    {
      StillToCome(chunks, i, segments, pending, max);
      size := size + |chunks[i]|;
      if size > maxObjectSize { return segments, size, Some(EntityTooLarge); }
      hashed := hashed + chunks[i];
      var more, rest := CutChunk(pending, chunks[i], max);
      AfterChunk(chunks, i, segments, pending, more, rest, max);
      var done := UploadSegments(|segments|, |more|, accepts);
      if done < |more| {
        PrefixOfPrefix(segments, more, done, Cut(Flatten(chunks), max));
        return segments + more[..done], size, Some(SegmentRefused);
      }
      segments, pending := segments + more, rest;
    }
    assert chunks[..|chunks|] == chunks;
    CutIs(segments, pending, max);
    if broken { return segments, size, Some(BodyBroken); }
    if pending != [] {
      if !accepts(|segments|) { return segments, size, Some(SegmentRefused); }
      segments := segments + [pending];
    }
    if expected.Some? && expected.value != digest(hashed) { return segments, size, Some(BadDigest); }
    return segments, size, None;
  }

  /** What is uploaded so far begins the cut of the whole body. */
  lemma StillToCome(chunks: seq<Bytes>, i: nat, segments: seq<Bytes>, pending: Bytes, max: nat)
    requires i < |chunks| && FullFrames(segments, max) && |pending| < max
    requires Flatten(chunks[..i]) == Flatten(segments) + pending
    ensures segments <= Cut(Flatten(chunks), max)
    ensures |Flatten(chunks[..i])| + |chunks[i]| <= |Flatten(chunks)|
  {
    assert chunks == chunks[..i] + chunks[i..] && chunks[i..] == [chunks[i]] + chunks[i + 1..];
    FlattenAppend(chunks[..i], chunks[i..]);
    FlattenAppend([chunks[i]], chunks[i + 1..]);
    Associative(Flatten(segments), pending, Flatten(chunks[i..]));
    CutPrefix(segments, pending + Flatten(chunks[i..]), max);
  }

  lemma AfterChunk(chunks: seq<Bytes>, i: nat, segments: seq<Bytes>, pending: Bytes, more: seq<Bytes>, rest: Bytes, max: nat)
    requires i < |chunks| && FullFrames(segments, max) && FullFrames(more, max) && |rest| < max
    requires Flatten(chunks[..i]) == Flatten(segments) + pending && Flatten(more) + rest == pending + chunks[i]
    ensures Flatten(chunks[..i + 1]) == Flatten(chunks[..i]) + chunks[i] == Flatten(segments + more) + rest
    ensures segments + more <= Cut(Flatten(chunks), max)
  {
    assert chunks[..i + 1] == chunks[..i] + [chunks[i]];
    FlattenSnoc(chunks[..i], chunks[i]);
    FlattenAppend(segments, more);
    Associative(Flatten(segments), pending, chunks[i]);
    Associative(Flatten(segments), Flatten(more), rest);
    assert chunks == chunks[..i + 1] + chunks[i + 1..];
    FlattenAppend(chunks[..i + 1], chunks[i + 1..]);
    Associative(Flatten(segments + more), rest, Flatten(chunks[i + 1..]));
    CutPrefix(segments + more, rest + Flatten(chunks[i + 1..]), max);
  }

  lemma {:induction false} CutPrefix(segments: seq<Bytes>, rest: Bytes, max: nat)
    requires max > 0 && FullFrames(segments, max)
    ensures segments <= Cut(Flatten(segments) + rest, max)
  {
    if segments != [] {
      var body := Flatten(segments) + rest;
      assert |segments[0]| == max && body[..max] == segments[0];
      assert body[max..] == Flatten(segments[1..]) + rest;
      CutPrefix(segments[1..], rest, max);
    }
  }

  /** Every segment of a cut body is accepted by the upload it goes through. */
  lemma CutIsAnnounced(body: Bytes, frameSize: nat, maxPhysicalBytes: nat, k: nat)
    requires frameSize > TAG_SIZE
    requires var max := MaxFrames(maxPhysicalBytes, frameSize) * (frameSize - TAG_SIZE);
             max > 0 && k < |Cut(body, max)|
    ensures var max := MaxFrames(maxPhysicalBytes, frameSize) * (frameSize - TAG_SIZE);
            Announced(Some(|Cut(body, max)[k]|), max)
  {
    CutHoldsBody(body, MaxFrames(maxPhysicalBytes, frameSize) * (frameSize - TAG_SIZE));
  }

  // ---- complete_multipart_upload ------------------------------------------------------------------------

  const MIN_MULTIPART_PART := 5 * 1024 * 1024

  /** A part as the client lists it. */
  datatype Wanted = Wanted(number: Option<int>, etag: Option<string>)

  /** Why an entry is refused after one with number `previous`. */
  function EntryError(t: Tables, upload: string, w: Wanted, previous: nat): Option<Error> {
    if w.number.None? then Some(InvalidPart)
    else if w.number.value <= previous then Some(InvalidPartOrder)
    else if (upload, w.number.value) !in t.parts then Some(InvalidPart)
    else if w.etag != Some(t.parts[(upload, w.number.value)].etag) then Some(InvalidPart)
    else None
  }

  function Number(w: Wanted): nat {
    if w.number.Some? then Max(w.number.value, 0) else 0
  }

  function Numbers(requested: seq<Wanted>): seq<nat> {
    seq(|requested|, i requires 0 <= i < |requested| => Number(requested[i]))
  }

  /** The first refusal at or after entry `i`. */
  function FirstEntryError(t: Tables, upload: string, requested: seq<Wanted>, i: nat, previous: nat): Option<Error>
    requires i <= |requested|
    decreases |requested| - i
  {
    if i == |requested| then None
    else
      var error := EntryError(t, upload, requested[i], previous);
      if error.Some? then error else FirstEntryError(t, upload, requested, i + 1, Number(requested[i]))
  }

  /** The entry names a stored part by number and entity tag. */
  predicate Names(t: Tables, upload: string, w: Wanted) {
    && w.number.Some? && w.number.value > 0 && (upload, w.number.value) in t.parts
    && w.etag == Some(t.parts[(upload, w.number.value)].etag)
  }

  predicate Increasing(numbers: seq<nat>) {
    forall i, j | 0 <= i < j < |numbers| :: numbers[i] < numbers[j]
  }

  /** No entry is refused exactly if all name stored parts, in strictly increasing order. */
  lemma {:induction false} EntriesAccepted(t: Tables, upload: string, requested: seq<Wanted>, i: nat, previous: nat)
    requires i <= |requested|
    ensures FirstEntryError(t, upload, requested, i, previous).None?
       <==> && (forall j | i <= j < |requested| :: Names(t, upload, requested[j]) && previous < Number(requested[j]))
            && (forall j, k | i <= j < k < |requested| :: Number(requested[j]) < Number(requested[k]))
    decreases |requested| - i
  {
    if i < |requested| {
      EntriesAccepted(t, upload, requested, i + 1, Number(requested[i]));
    }
  }

  /** All but the last part are large enough. */
  predicate LargeEnough(t: Tables, upload: string, numbers: seq<nat>)
    requires HasParts(t, upload, numbers)
  {
    forall i | 0 <= i < |numbers| - 1 :: t.parts[(upload, numbers[i])].size >= MIN_MULTIPART_PART
  }

  lemma {:induction false} PartsSizeSnoc(t: Tables, upload: string, numbers: seq<nat>, last: nat)
    requires HasParts(t, upload, numbers) && (upload, last) in t.parts
    ensures HasParts(t, upload, numbers + [last])
    ensures PartsSize(t, upload, numbers + [last]) == PartsSize(t, upload, numbers) + t.parts[(upload, last)].size
  {
    if numbers == [] {
      assert [] + [last] == [last] && [last][1..] == [];
    } else {
      assert (numbers + [last])[1..] == numbers[1..] + [last] && numbers[0] in numbers;
      assert HasParts(t, upload, numbers[1..]) by { assert forall n | n in numbers[1..] :: n in numbers; }
      PartsSizeSnoc(t, upload, numbers[1..], last);
    }
  }

  /** What the store makes of the list: a refusal, or the parts exactly as listed. */
  function Selection(t: Tables, upload: string, requested: seq<Wanted>, maxObjectSize: nat): Result<seq<nat>, Error> {
    var error := FirstEntryError(t, upload, requested, 0, 0);
    var numbers := Numbers(requested);
    if error.Some? then Err(error.value)
    else if !HasParts(t, upload, numbers) then Err(InvalidPart)
    else if !LargeEnough(t, upload, numbers) then Err(EntityTooSmall)
    else if PartsSize(t, upload, numbers) > maxObjectSize then Err(EntityTooLarge)
    else Ok(numbers)
  }

  /** Stored parts, listed by number and tag in strictly increasing order. */
  predicate WellListed(t: Tables, upload: string, requested: seq<Wanted>) {
    && (forall j | 0 <= j < |requested| :: Names(t, upload, requested[j]))
    && Increasing(Numbers(requested))
    && HasParts(t, upload, Numbers(requested))
  }

  /** A list is honoured exactly if it is well listed, with parts large enough but for the last and not too large together. */
  lemma SelectsExactly(t: Tables, upload: string, requested: seq<Wanted>, maxObjectSize: nat)
    ensures Selection(t, upload, requested, maxObjectSize).Ok?
       <==> && WellListed(t, upload, requested)
            && LargeEnough(t, upload, Numbers(requested)) && PartsSize(t, upload, Numbers(requested)) <= maxObjectSize
  {
    hide LargeEnough, PartsSize, FirstEntryError;
    ListedIff(t, upload, requested);
  }

  function PreviousOf(requested: seq<Wanted>, i: nat): nat
    requires i <= |requested|
  {
    if i == 0 then 0 else Number(requested[i - 1])
  }

  /** The entries before `i` name stored parts in strictly increasing order. */
  ghost predicate NamedBefore(t: Tables, upload: string, requested: seq<Wanted>, i: nat) {
    i <= |requested| && forall j | 0 <= j < i :: Names(t, upload, requested[j]) && PreviousOf(requested, j) < Number(requested[j])
  }

  /** The first bad entry has a number that is not beyond the one before. */
  ghost predicate OutOfOrderAt(t: Tables, upload: string, requested: seq<Wanted>, i: nat) {
    && i < |requested| && NamedBefore(t, upload, requested, i)
    && requested[i].number.Some? && requested[i].number.value <= PreviousOf(requested, i)
  }

  /** The first bad entry is in order, as far as it has a number, but names no stored part by number and tag. */
  ghost predicate UnnamedAt(t: Tables, upload: string, requested: seq<Wanted>, i: nat) {
    && i < |requested| && NamedBefore(t, upload, requested, i)
    && (requested[i].number.Some? ==> requested[i].number.value > PreviousOf(requested, i))
    && !Names(t, upload, requested[i])
  }

  /** Given that those before are named, what is wrong with an entry. */
  lemma EntryIs(t: Tables, upload: string, requested: seq<Wanted>, i: nat)
    requires i < |requested| && NamedBefore(t, upload, requested, i)
    ensures var error := EntryError(t, upload, requested[i], PreviousOf(requested, i));
            && (error == Some(InvalidPartOrder) <==> OutOfOrderAt(t, upload, requested, i))
            && (error == Some(InvalidPart) <==> UnnamedAt(t, upload, requested, i))
            && (error == None <==> NamedBefore(t, upload, requested, i + 1))
            && (error.Some? ==> error.value.InvalidPartOrder? || error.value.InvalidPart?)
  {
  }

  lemma NamedPrefix(t: Tables, upload: string, requested: seq<Wanted>, i: nat, j: nat)
    requires i <= j && NamedBefore(t, upload, requested, j)
    ensures NamedBefore(t, upload, requested, i)
  {
  }

  /** Only one entry is the first bad one. */
  lemma NotBadElsewhere(t: Tables, upload: string, requested: seq<Wanted>, i: nat, j: nat)
    requires i <= |requested| && NamedBefore(t, upload, requested, i) && i != j
    requires i < |requested| ==> !NamedBefore(t, upload, requested, i + 1)
    ensures !OutOfOrderAt(t, upload, requested, j) && !UnnamedAt(t, upload, requested, j)
  {
    if j < i {
      NamedPrefix(t, upload, requested, j, i);
      NamedPrefix(t, upload, requested, j + 1, i);
      EntryIs(t, upload, requested, j);
    } else if j < |requested| && NamedBefore(t, upload, requested, j) {
      NamedPrefix(t, upload, requested, i + 1, j);
    }
    hide Names, EntryError, Number;
  }

  lemma {:induction false} FirstRefusal(t: Tables, upload: string, requested: seq<Wanted>, i: nat)
    requires i <= |requested| && NamedBefore(t, upload, requested, i)
    ensures var error := FirstEntryError(t, upload, requested, i, PreviousOf(requested, i));
            && (error == Some(InvalidPartOrder) <==> exists j: nat :: OutOfOrderAt(t, upload, requested, j))
            && (error == Some(InvalidPart) <==> exists j: nat :: UnnamedAt(t, upload, requested, j))
            && (error.Some? ==> error.value.InvalidPartOrder? || error.value.InvalidPart?)
    decreases |requested| - i
  {
    hide OutOfOrderAt, UnnamedAt, NamedBefore, EntryError, Number;
    if i < |requested| { EntryIs(t, upload, requested, i); }
    if i < |requested| && EntryError(t, upload, requested[i], PreviousOf(requested, i)).None? {
      FirstRefusal(t, upload, requested, i + 1);
    } else {
      forall j: nat | j != i ensures !OutOfOrderAt(t, upload, requested, j) && !UnnamedAt(t, upload, requested, j) {
        NotBadElsewhere(t, upload, requested, i, j);
      }
      PastTheEnd(t, upload, requested);
    }
  }

  lemma PastTheEnd(t: Tables, upload: string, requested: seq<Wanted>)
    ensures !OutOfOrderAt(t, upload, requested, |requested|) && !UnnamedAt(t, upload, requested, |requested|)
  {
  }

  /** Why a list is refused: the first bad entry decides, then the sizes of the single parts, then that of all. */
  lemma RefusesExactly(t: Tables, upload: string, requested: seq<Wanted>, maxObjectSize: nat)
    ensures var r, numbers := Selection(t, upload, requested, maxObjectSize), Numbers(requested);
            && (r == Err(InvalidPartOrder) <==> exists i: nat :: OutOfOrderAt(t, upload, requested, i))
            && (r == Err(InvalidPart) <==> exists i: nat :: UnnamedAt(t, upload, requested, i))
            && (r == Err(EntityTooSmall) <==> WellListed(t, upload, requested) && !LargeEnough(t, upload, numbers))
            && (r == Err(EntityTooLarge) <==>
                  && WellListed(t, upload, requested) && LargeEnough(t, upload, numbers)
                  && PartsSize(t, upload, numbers) > maxObjectSize)
  {
    hide LargeEnough, PartsSize, FirstEntryError, OutOfOrderAt, UnnamedAt;
    FirstRefusal(t, upload, requested, 0);
    ListedIff(t, upload, requested);
  }

  /** No entry is refused exactly if the list is well listed. */
  lemma ListedIff(t: Tables, upload: string, requested: seq<Wanted>)
    ensures FirstEntryError(t, upload, requested, 0, 0).None? <==> WellListed(t, upload, requested)
  {
    hide FirstEntryError;
    var numbers := Numbers(requested);
    EntriesAccepted(t, upload, requested, 0, 0);
    assert forall j | 0 <= j < |requested| :: numbers[j] == Number(requested[j]);
    if FirstEntryError(t, upload, requested, 0, 0).None? {
      forall j, k | 0 <= j < k < |numbers| ensures numbers[j] < numbers[k] {
        assert Number(requested[j]) < Number(requested[k]);
      }
      forall n | n in numbers ensures (upload, n) in t.parts {
        var j :| 0 <= j < |numbers| && numbers[j] == n;
        assert Names(t, upload, requested[j]);
      }
    }
  }

  /** The loops of `complete_multipart_upload` over the client's list. */
  method SelectParts(t: Tables, upload: string, requested: seq<Wanted>, maxObjectSize: nat) returns (r: Result<seq<nat>, Error>)
    ensures r == Selection(t, upload, requested, maxObjectSize)
  {
    var selected: seq<nat> := [];
    var previous: nat, size: nat := 0, 0;
    for i := 0 to |requested|
      invariant FirstEntryError(t, upload, requested, 0, 0) == FirstEntryError(t, upload, requested, i, previous)
      invariant selected == Numbers(requested[..i]) && HasParts(t, upload, selected)
      invariant size == PartsSize(t, upload, selected)
    {
      var w := requested[i];
      if w.number.None? { return Err(InvalidPart); }
      if w.number.value <= previous { return Err(InvalidPartOrder); }
      previous := w.number.value;
      if (upload, previous) !in t.parts { return Err(InvalidPart); }
      if w.etag != Some(t.parts[(upload, previous)].etag) { return Err(InvalidPart); }
      PartsSizeSnoc(t, upload, selected, previous);
      assert Numbers(requested[..i + 1]) == Numbers(requested[..i]) + [previous];
      size := size + t.parts[(upload, previous)].size;
      selected := selected + [previous];
    }
    assert requested[..|requested|] == requested;
    for i := 0 to Max(|selected| - 1, 0)
      invariant forall j | 0 <= j < i :: t.parts[(upload, selected[j])].size >= MIN_MULTIPART_PART
    {
      if t.parts[(upload, selected[i])].size < MIN_MULTIPART_PART { return Err(EntityTooSmall); }
    }
    if size > maxObjectSize { return Err(EntityTooLarge); }
    return Ok(selected);
  }

  // ---- body_for ---------------------------------------------------------------------------------------------

  /** A stretch of one segment, streamed by its own session. */
  datatype Piece = Piece(index: nat, range: ByteRequest)

  /** The stretch of one segment, if the range touches it. */
  function PieceOf(start: nat, stop: nat, logical: nat, end: nat, index: nat): seq<Piece>
    requires logical <= end && start < stop && logical < stop
  {
    var from, to := Max(start, logical), Min(stop, end);
    if from < to then [Piece(index, ByteRequest(from - logical, to - logical))] else []
  }

  /** The stretches of the segments from `index` on, the first of which begins at byte `logical`. */
  function Pieces(segments: seq<Segment>, start: nat, stop: nat, logical: nat, index: nat): seq<Piece>
    requires index <= |segments| && start < stop && logical < stop
    decreases |segments| - index
  {
    if index == |segments| then []
    else
      var end := logical + segments[index].size;
      PieceOf(start, stop, logical, end, index) + if end >= stop then [] else Pieces(segments, start, stop, end, index + 1)
  }

  lemma PiecesStep(segments: seq<Segment>, start: nat, stop: nat, logical: nat, index: nat, before: seq<Piece>)
    requires index < |segments| && start < stop && logical < stop
    ensures var end := logical + segments[index].size;
            var through := before + PieceOf(start, stop, logical, end, index);
            before + Pieces(segments, start, stop, logical, index)
              == through + if end >= stop then [] else Pieces(segments, start, stop, end, index + 1)
  {
    hide PieceOf;
    var end := logical + segments[index].size;
    var later := if end >= stop then [] else Pieces(segments, start, stop, end, index + 1);
    Associative(before, PieceOf(start, stop, logical, end, index), later);
  }

  /** `body_for`: walks the segments, starting a stream over each one the range touches. */
  method BodyFor(segments: seq<Segment>, start: nat, stop: nat) returns (pieces: seq<Piece>)
    ensures pieces == if start >= stop then [] else Pieces(segments, start, stop, 0, 0)
  {
    hide Pieces, PieceOf;
    pieces := [];
    if start >= stop { return; }
    var logical: nat, index: nat := 0, 0;
    ghost var all := Pieces(segments, start, stop, 0, 0);
    while index < |segments|
      invariant index <= |segments| && logical < stop
      invariant all == pieces + Pieces(segments, start, stop, logical, index)
    {
      var end := logical + segments[index].size;
      PiecesStep(segments, start, stop, logical, index, pieces);
      pieces := pieces + PieceOf(start, stop, logical, end, index);
      if end >= stop { return; }
      logical, index := end, index + 1;
    }
    PiecesEnd(segments, start, stop, logical);
  }

  lemma PiecesEnd(segments: seq<Segment>, start: nat, stop: nat, logical: nat)
    requires start < stop && logical < stop
    ensures Pieces(segments, start, stop, logical, |segments|) == []
  {
  }

  /** Every piece is a non-empty range within its segment. */
  predicate PieceOk(segments: seq<Segment>, p: Piece) {
    p.index < |segments| && p.range.start < p.range.end <= |segments[p.index].body|
  }

  /** The bytes the pieces stand for. */
  function Output(segments: seq<Segment>, pieces: seq<Piece>): Bytes
    requires forall p | p in pieces :: PieceOk(segments, p)
  {
    if pieces == [] then []
    else
      assert PieceOk(segments, pieces[0]);
      segments[pieces[0].index].body[pieces[0].range.start..pieces[0].range.end] + Output(segments, pieces[1..])
  }

  lemma {:induction false} OutputAppend(segments: seq<Segment>, a: seq<Piece>, b: seq<Piece>)
    requires (forall p | p in a :: PieceOk(segments, p)) && (forall p | p in b :: PieceOk(segments, p))
    ensures forall p | p in a + b :: PieceOk(segments, p)
    ensures Output(segments, a + b) == Output(segments, a) + Output(segments, b)
  {
    if a == [] {
      assert a + b == b;
    } else {
      assert (a + b)[1..] == a[1..] + b && (a + b)[0] == a[0];
      OutputAppend(segments, a[1..], b);
    }
  }

  /** The pieces make up exactly the range, whether or not segments are aligned. */
  lemma {:induction false} PiecesAreRange(segments: seq<Segment>, start: nat, stop: nat, logical: nat, index: nat)
    requires forall i | 0 <= i < |segments| :: segments[i].size == |segments[i].body|
    requires index <= |segments| && start < stop && logical < stop
    ensures forall p | p in Pieces(segments, start, stop, logical, index) :: PieceOk(segments, p)
    ensures Output(segments, Pieces(segments, start, stop, logical, index))
         == Between(Content(segments[index..]), start - logical, stop - logical)
    decreases |segments| - index
  {
    hide Between, PieceOf, PieceOk, Output, Content;
    ContentTail(segments, index);
    if index == |segments| {
      BetweenNothing(start - logical, stop - logical);
      OutputOfNothing(segments);
    } else {
      var body, tail := segments[index].body, Content(segments[index + 1..]);
      var end := logical + |body|;
      var later := if end >= stop then [] else Pieces(segments, start, stop, end, index + 1);
      if end < stop { PiecesAreRange(segments, start, stop, end, index + 1); } else { OutputOfNothing(segments); }
      var piece := PieceOf(start, stop, logical, end, index);
      OutputOfPiece(segments, start, stop, logical, index);
      OutputAppend(segments, piece, later);
      BetweenSplits(body, tail, start - logical, stop - logical);
    }
  }

  /** Bytes `[i, j)` of a sequence, as far as it has them. */
  function Between(all: Bytes, i: int, j: int): Bytes
    requires i <= j
  {
    all[Clamp(i, |all|)..Clamp(j, |all|)]
  }

  function Clamp(i: int, n: nat): nat {
    Min(Max(i, 0), n)
  }

  lemma BetweenNothing(i: int, j: int)
    requires i <= j
    ensures Between([], i, j) == []
  {
  }

  lemma OutputOfNothing(segments: seq<Segment>)
    ensures Output(segments, []) == []
  {
  }

  lemma ContentTail(segments: seq<Segment>, index: nat)
    requires index <= |segments|
    ensures Content(segments[index..])
         == if index == |segments| then [] else segments[index].body + Content(segments[index + 1..])
  {
    if index < |segments| { assert segments[index..][1..] == segments[index + 1..]; }
  }

  lemma OutputOfPiece(segments: seq<Segment>, start: nat, stop: nat, logical: nat, index: nat)
    requires index < |segments| && start < stop && logical < stop
    ensures var body := segments[index].body;
            var piece := PieceOf(start, stop, logical, logical + |body|, index);
            && (forall p | p in piece :: PieceOk(segments, p))
            && Output(segments, piece) == Between(body, start - logical, stop - logical)
  {
  }

  lemma ClampSplits(i: int, a: nat, b: nat)
    ensures Min(Clamp(i, a + b), a) == Clamp(i, a) && Max(Clamp(i, a + b) - a, 0) == Clamp(i - a, b)
  {
  }

  /** A range over a body and what follows it, in two pieces. */
  lemma BetweenSplits(body: Bytes, tail: Bytes, i: int, j: int)
    requires i < j && 0 < j
    ensures Between(body + tail, i, j)
         == Between(body, i, j) + if |body| < j then Between(tail, i - |body|, j - |body|) else []
  {
    hide Clamp;
    ClampSplits(i, |body|, |tail|);
    ClampSplits(j, |body|, |tail|);
    ClampOrdered(i, j, |body| + |tail|);
    SliceOfConcat(body, tail, Clamp(i, |body| + |tail|), Clamp(j, |body| + |tail|));
    if |body| >= j {
      ClampBelow(i - |body|, |tail|);
      ClampBelow(j - |body|, |tail|);
    }
  }

  lemma ClampOrdered(i: int, j: int, n: nat)
    requires i <= j
    ensures Clamp(i, n) <= Clamp(j, n) <= n
  {
  }

  lemma ClampBelow(i: int, n: nat)
    requires i <= 0
    ensures Clamp(i, n) == 0
  {
  }
}
