/** Cutting a chunked byte stream with any scanner whose verdicts never change once reached. */
module Chunking {
  import opened Bytes

  datatype FrameError = NoBeginTag | NoBodyLength | BadLength | TooLarge

  /** A scanner's verdict on the head of a buffer. */
  datatype Next = Complete(frame: bytes, consumed: nat) | Incomplete | Malformed(error: FrameError)

  /** A scanner that cuts a non-empty prefix or nothing. */
  type Scanner = scan: bytes -> Next |
    forall b :: scan(b).Complete? ==> 0 < scan(b).consumed <= |b| && scan(b).frame == b[..scan(b).consumed]
    witness (b: bytes) => Incomplete

  /** More bytes leave a verdict alone, and a buffer beyond the limit never yields a frame. */
  ghost predicate Stable(scan: Scanner, maxSize: int)
  {
    && (forall b, more :: !scan(b).Incomplete? ==> scan(b + more) == scan(b))
    && (forall b, more :: scan(b).Incomplete? && |b| > maxSize ==> !scan(b + more).Complete?)
  }

  /** What one feed leaves behind: the frames cut, the bytes kept, and the error if any. */
  datatype Cut = Cut(frames: seq<bytes>, rest: bytes, error: Option<FrameError>)

  /** The cutting loop as a function of the whole buffer. */
  function CutFrames(scan: Scanner, buffer: bytes, maxSize: int): (r: Cut)
    decreases |buffer|
  {
    match scan(buffer)
    case Malformed(e) => Cut([], buffer, Some(e))
    case Incomplete => Cut([], buffer, if |buffer| > maxSize then Some(TooLarge) else None)
    case Complete(frame, consumed) =>
      var tail := CutFrames(scan, buffer[consumed..], maxSize);
      Cut([frame] + tail.frames, tail.rest, tail.error)
  }

  /** A cut that comes after frames already emitted. */
  function Behind(frames: seq<bytes>, cut: Cut): Cut { Cut(frames + cut.frames, cut.rest, cut.error) }

  lemma BehindBoth(a: seq<bytes>, b: seq<bytes>, cut: Cut)
    ensures Behind(a, Behind(b, cut)) == Behind(a + b, cut)
  {
    assert a + (b + cut.frames) == (a + b) + cut.frames;
  }

  lemma BehindNothing(cut: Cut)
    ensures Behind([], cut) == cut
  {
  }

  /** One turn of the loop: a complete head moves behind the frames emitted. */
  lemma CutHead(scan: Scanner, buffer: bytes, maxSize: int)
    requires scan(buffer).Complete?
    ensures CutFrames(scan, buffer, maxSize) == Behind([scan(buffer).frame], CutFrames(scan, buffer[scan(buffer).consumed..], maxSize))
  {
  }

  lemma CutOne(scan: Scanner, frame: bytes, rest: bytes, maxSize: int)
    requires scan(frame + rest) == Complete(frame, |frame|)
    ensures var tail := CutFrames(scan, rest, maxSize);
            CutFrames(scan, frame + rest, maxSize) == Cut([frame] + tail.frames, tail.rest, tail.error)
  {
    assert (frame + rest)[|frame|..] == rest;
  }

  /** The scanner cuts this frame off, whatever follows it. */
  ghost predicate Recognises(scan: Scanner, frame: bytes)
  {
    forall rest :: scan(frame + rest) == Complete(frame, |frame|)
  }

  /** Frames that the scanner recognises are cut out of their concatenation, exactly. */
  lemma {:induction false} CutAll(scan: Scanner, frames: seq<bytes>, maxSize: nat)
    requires scan([]) == Incomplete
    requires forall i :: 0 <= i < |frames| ==> Recognises(scan, frames[i])
    ensures CutFrames(scan, Flatten(frames), maxSize) == Cut(frames, [], None)
  {
    if frames == [] {
    } else {
      assert Recognises(scan, frames[0]);
      CutAll(scan, frames[1..], maxSize);
      CutOne(scan, frames[0], Flatten(frames[1..]), maxSize);
      assert frames == [frames[0]] + frames[1..];
    }
  }

  /** The frames emitted, followed by the bytes kept, are the bytes fed. */
  lemma {:induction false} CutConserves(scan: Scanner, buffer: bytes, maxSize: int)
    ensures var r := CutFrames(scan, buffer, maxSize); Flatten(r.frames) + r.rest == buffer
    decreases |buffer|
  {
    var next := scan(buffer);
    if next.Complete? {
      var tail := CutFrames(scan, buffer[next.consumed..], maxSize);
      CutConserves(scan, buffer[next.consumed..], maxSize);
      CutHead(scan, buffer, maxSize);
      Joined(next.frame, tail.frames, tail.rest, buffer, next.consumed);
    }
  }

  lemma Joined(frame: bytes, frames: seq<bytes>, rest: bytes, buffer: bytes, k: nat)
    requires k <= |buffer| && frame == buffer[..k] && Flatten(frames) + rest == buffer[k..]
    ensures Flatten([frame] + frames) + rest == buffer
  {
    FlattenCons(frame, frames, rest);
  }

  lemma FlattenCons(head: bytes, tail: seq<bytes>, rest: bytes)
    ensures Flatten([head] + tail) + rest == head + (Flatten(tail) + rest)
  {
    assert ([head] + tail)[1..] == tail;
    ConcatAssoc(head, Flatten(tail), rest);
  }

  /** Feeding `buffer` and later `more` is the same as feeding them at once: the same frames, the same
      bytes kept, an error in the one exactly when in the other, and no frame after an error. */
  lemma {:induction false} FeedInTwo(scan: Scanner, buffer: bytes, more: bytes, maxSize: int)
    requires Stable(scan, maxSize)
    ensures var first := CutFrames(scan, buffer, maxSize);
            var second := CutFrames(scan, first.rest + more, maxSize);
            && CutFrames(scan, buffer + more, maxSize) == Behind(first.frames, second)
            && (first.error.Some? ==> second.error.Some? && second.frames == [])
    decreases |buffer|
  {
    var next := scan(buffer);
    match next {
      case Malformed(e) =>
        assert scan(buffer + more) == scan(buffer);
      case Incomplete =>
        var second := CutFrames(scan, buffer + more, maxSize);
        assert [] + second.frames == second.frames;
        if |buffer| > maxSize {
          assert !scan(buffer + more).Complete?;
        }
      case Complete(frame, consumed) =>
        assert scan(buffer + more) == scan(buffer);
        FeedInTwo(scan, buffer[consumed..], more, maxSize);
        HeadThenRest(scan, buffer, more, maxSize);
    }
  }

  /** The two-chunk law passes from the bytes behind a frame to the bytes that start with it. */
  lemma HeadThenRest(scan: Scanner, buffer: bytes, more: bytes, maxSize: int)
    requires scan(buffer).Complete? && scan(buffer + more) == scan(buffer)
    requires var tail := CutFrames(scan, buffer[scan(buffer).consumed..], maxSize);
             CutFrames(scan, buffer[scan(buffer).consumed..] + more, maxSize) == Behind(tail.frames, CutFrames(scan, tail.rest + more, maxSize))
    ensures var first := CutFrames(scan, buffer, maxSize);
            CutFrames(scan, buffer + more, maxSize) == Behind(first.frames, CutFrames(scan, first.rest + more, maxSize))
  {
    var frame, consumed := scan(buffer).frame, scan(buffer).consumed;
    var tail := CutFrames(scan, buffer[consumed..], maxSize);
    assert (buffer + more)[consumed..] == buffer[consumed..] + more;
    CutHead(scan, buffer, maxSize);
    CutHead(scan, buffer + more, maxSize);
    BehindBoth([frame], tail.frames, CutFrames(scan, tail.rest + more, maxSize));
  }

  /** Feeding a list of chunks one by one, stopping at the first error as `Run` does. */
  function FeedAll(scan: Scanner, buffer: bytes, chunks: seq<bytes>, maxSize: int): (r: Cut)
    decreases |chunks|
  {
    if chunks == [] then Cut([], buffer, None)
    else
      var head := CutFrames(scan, buffer + chunks[0], maxSize);
      if head.error.Some? then head
      else
        var tail := FeedAll(scan, head.rest, chunks[1..], maxSize);
        Cut(head.frames + tail.frames, tail.rest, tail.error)
  }

  /** A buffer that has been through the loop without error holds no complete frame. */
  lemma {:induction false} Settled(scan: Scanner, buffer: bytes, maxSize: int)
    requires CutFrames(scan, buffer, maxSize).error.None?
    ensures CutFrames(scan, CutFrames(scan, buffer, maxSize).rest, maxSize) == Cut([], CutFrames(scan, buffer, maxSize).rest, None)
    decreases |buffer|
  {
    var next := scan(buffer);
    if next.Complete? {
      Settled(scan, buffer[next.consumed..], maxSize);
    }
  }

  /** However a byte stream is cut into chunks, the frames and the verdict are those of the whole stream. */
  lemma {:induction false} ChunkingInvisible(scan: Scanner, buffer: bytes, chunks: seq<bytes>, maxSize: int)
    requires Stable(scan, maxSize)
    requires CutFrames(scan, buffer, maxSize) == Cut([], buffer, None)
    ensures var whole := CutFrames(scan, buffer + Flatten(chunks), maxSize);
            var fed := FeedAll(scan, buffer, chunks, maxSize);
            && fed.frames == whole.frames
            && (fed.error.Some? <==> whole.error.Some?)
            && (whole.error.None? ==> fed == whole)
            && Flatten(fed.frames) + fed.rest <= buffer + Flatten(chunks)
    decreases |chunks|
  {
    if chunks == [] {
      assert buffer + [] == buffer;
    } else {
      var head := CutFrames(scan, buffer + chunks[0], maxSize);
      var rest := Flatten(chunks[1..]);
      ConcatAssoc(buffer, chunks[0], rest);
      FeedInTwo(scan, buffer + chunks[0], rest, maxSize);
      var second := CutFrames(scan, head.rest + rest, maxSize);
      if head.error.Some? {
        CutConserves(scan, buffer + chunks[0], maxSize);
        assert head.frames + [] == head.frames;
      } else {
        Settled(scan, buffer + chunks[0], maxSize);
        ChunkingInvisible(scan, head.rest, chunks[1..], maxSize);
        var fed := FeedAll(scan, head.rest, chunks[1..], maxSize);
        CutConserves(scan, buffer + chunks[0], maxSize);
        FlattenConcat(head.frames, fed.frames);
        PrefixUnder(Flatten(head.frames), Flatten(fed.frames), fed.rest, head.rest + rest);
        ConcatAssoc(Flatten(head.frames), head.rest, rest);
      }
    }
  }

  /** So a stream that is cut whole into `frames` is cut into them from any chunks. */
  lemma ChunksOfFrames(scan: Scanner, chunks: seq<bytes>, frames: seq<bytes>, maxSize: int)
    requires Stable(scan, maxSize) && Flatten(chunks) == Flatten(frames)
    requires CutFrames(scan, Flatten(frames), maxSize) == Cut(frames, [], None) && CutFrames(scan, [], maxSize) == Cut([], [], None)
    ensures FeedAll(scan, [], chunks, maxSize) == Cut(frames, [], None)
  {
    assert [] + Flatten(chunks) == Flatten(frames);
    ChunkingInvisible(scan, [], chunks, maxSize);
  }

  lemma PrefixUnder(a: bytes, b: bytes, c: bytes, whole: bytes)
    requires b + c <= whole
    ensures (a + b) + c <= a + whole
  {
    ConcatAssoc(a, b, c);
  }

  lemma {:induction false} FlattenConcat(a: seq<bytes>, b: seq<bytes>)
    ensures Flatten(a + b) == Flatten(a) + Flatten(b)
  {
    if a == [] {
      assert a + b == b;
    } else {
      FlattenConcat(a[1..], b);
      assert (a + b)[1..] == a[1..] + b;
      ConcatAssoc(a[0], Flatten(a[1..]), Flatten(b));
    }
  }
}
