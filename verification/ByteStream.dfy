/**
 Byte ranges over the frame scheduler: which frames a range asks for, and the sink that
 clips their payloads back to the range.
 */
module ByteStreams {
  import opened Basics
  import opened Frames
  import opened Uploads

  /** A non-empty byte range `[start, end)`. */
  datatype ByteRequest = ByteRequest(start: nat, end: nat)

  /** The frames a request covers. */
  function FirstFrame(r: ByteRequest, payload: nat): nat
    requires payload > 0
  {
    r.start / payload
  }

  function LastFrame(r: ByteRequest, payload: nat): nat
    requires payload > 0
  {
    CeilDiv(r.end, payload)
  }

  /** The bytes of `all` after the first `skip`, `length` of them if there are as many. */
  function Window(all: Bytes, skip: nat, length: nat): Bytes {
    all[Min(skip, |all|)..Min(skip + length, |all|)]
  }

  /** Forwards each frame cut to what is left of the range. */
  class ClippingSink {
    const firstSkip: nat
    const length: nat
    var skip: nat
    var remaining: nat
    var output: seq<Bytes>
    ghost var received: Bytes

    /** What has been forwarded is the window over everything received. */
    ghost predicate Valid()
      reads this
    {
      && Flatten(output) == Window(received, firstSkip, length)
      && skip == Max(firstSkip - |received|, 0)
      && remaining == length - |Flatten(output)|
    }

    constructor (skip: nat, length: nat)
      ensures Valid() && firstSkip == skip && this.length == length && received == [] && output == []
    {
      firstSkip, this.length := skip, length;
      this.skip, remaining := skip, length;
      output, received := [], [];
    }

    method StartSend(frame: Bytes)
      requires Valid()
      modifies this
      ensures Valid() && received == old(received) + frame
      ensures |output| == |old(output)| + 1 && output[..|old(output)|] == old(output)
    {
      var start := Min(skip, |frame|);
      var end := start + Min(remaining, |frame| - start);
      WindowGrows(received, frame, firstSkip, length);
      FlattenSnoc(output, frame[start..end]);
      skip := skip - start;
      remaining := remaining - (end - start);
      output := output + [frame[start..end]];
      received := received + frame;
    }
  }

  /** A slice of a concatenation, piece by piece. */
  lemma SliceOfConcat(a: Bytes, b: Bytes, i: nat, j: nat)
    requires i <= j <= |a| + |b|
    ensures (a + b)[i..j] == a[Min(i, |a|)..Min(j, |a|)] + b[Max(i - |a|, 0)..Max(j - |a|, 0)]
  {
    var left, right := a[Min(i, |a|)..Min(j, |a|)], b[Max(i - |a|, 0)..Max(j - |a|, 0)];
    var whole := (a + b)[i..j];
    assert |whole| == |left| + |right|;
    forall k | 0 <= k < |whole| ensures whole[k] == (left + right)[k] {
      assert whole[k] == (a + b)[i + k];
      if i + k < |a| {
        assert left[k] == a[i + k];
      } else {
        assert right[k - |left|] == b[i + k - |a|];
      }
    }
    assert whole == left + right;
  }

  /** The window over more bytes, piece by piece. */
  lemma WindowGrows(all: Bytes, more: Bytes, skip: nat, length: nat)
    ensures var start := Min(Max(skip - |all|, 0), |more|);
            var end := start + Min(length - |Window(all, skip, length)|, |more| - start);
            0 <= start <= end <= |more| && Window(all + more, skip, length) == Window(all, skip, length) + more[start..end]
  {
    SliceOfConcat(all, more, Min(skip, |all| + |more|), Min(skip + length, |all| + |more|));
  }

  /** Full frames `[from, to)` hold the bytes between their offsets. */
  lemma {:induction false} FullSlice(frames: seq<Bytes>, payload: nat, from: nat, to: nat)
    requires FullFrames(frames, payload) && from <= to <= |frames|
    ensures 0 <= from * payload <= to * payload <= |Flatten(frames)|
    ensures Flatten(frames[from..to]) == Flatten(frames)[from * payload..to * payload]
  {
    hide Flatten;
    var left, middle, right := frames[..from], frames[from..to], frames[to..];
    FlattenRun(frames, from, to);
    FlattenFull(left, payload);
    FlattenFull(middle, payload);
    MiddleOf(Flatten(left), Flatten(middle), Flatten(right));
    assert (to - from) * payload == to * payload - from * payload;
  }

  lemma MiddleOf(a: Bytes, b: Bytes, c: Bytes)
    ensures (a + (b + c))[|a|..|a| + |b|] == b
  {
  }

  /** A longer input only extends the window. */
  lemma WindowMonotone(all: Bytes, more: Bytes, skip: nat, length: nat)
    requires all <= more
    ensures Window(all, skip, length) <= Window(more, skip, length)
  {
    var n := |Window(all, skip, length)|;
    assert more[..|all|] == all;
    assert Window(more, skip, length)[..n] == Window(all, skip, length);
  }

  lemma RequestFrames(r: ByteRequest, payload: nat)
    requires payload > 0 && r.start < r.end
    ensures FirstFrame(r, payload) < LastFrame(r, payload)
    ensures 0 <= FirstFrame(r, payload) * payload <= r.start
    ensures r.start == FirstFrame(r, payload) * payload + r.start % payload
    ensures r.end <= LastFrame(r, payload) * payload < r.end + payload
  {
    var first, last := FirstFrame(r, payload), LastFrame(r, payload);
    assert r.start == first * payload + r.start % payload;
    CeilDivStep(r.end, payload);
    assert (first + 1) * payload == first * payload + payload;
    if first >= last { MulLe(last, first, payload); }
  }

  /**
   Clipping the payloads of the requested frames yields exactly the requested bytes; frames
   short of them yield a prefix.
   */
  lemma ClippedExactly(frames: seq<Bytes>, payload: nat, r: ByteRequest, sent: seq<Bytes>)
    requires payload > 0 && FullFrames(frames, payload) && r.start < r.end <= |Flatten(frames)|
    ensures FirstFrame(r, payload) < LastFrame(r, payload) <= |frames|
    ensures var requested := frames[FirstFrame(r, payload)..LastFrame(r, payload)];
            var bytes := Window(Flatten(sent), r.start % payload, r.end - r.start);
            && (sent <= requested ==> bytes <= Flatten(frames)[r.start..r.end])
            && (sent == requested ==> bytes == Flatten(frames)[r.start..r.end])
  {
    hide Flatten, FirstFrame, LastFrame;
    var first, last := FirstFrame(r, payload), LastFrame(r, payload);
    RequestFrames(r, payload);
    FlattenFull(frames, payload);
    MulCancel(last, |frames|, payload);
    FullSlice(frames, payload, first, last);
    hide FullFrames;
    var requested := frames[first..last];
    SliceOfSlice(Flatten(frames), first * payload, last * payload, r.start % payload, r.end - r.start);
    if sent <= requested {
      assert requested == sent + requested[|sent|..];
      FlattenAppend(sent, requested[|sent|..]);
      WindowMonotone(Flatten(sent), Flatten(requested), r.start % payload, r.end - r.start);
    }
  }

  lemma SliceOfSlice(all: Bytes, from: nat, to: nat, skip: nat, length: nat)
    requires from + skip + length <= to <= |all|
    ensures Window(all[from..to], skip, length) == all[from + skip..from + skip + length]
  {
    var part := all[from..to];
    assert |part| == to - from && Min(skip, |part|) == skip && Min(skip + length, |part|) == skip + length;
    var left, right := part[skip..skip + length], all[from + skip..from + skip + length];
    forall k | 0 <= k < length ensures left[k] == right[k] {
      assert left[k] == part[skip + k] && right[k] == all[from + skip + k];
    }
    assert left == right;
  }
}
