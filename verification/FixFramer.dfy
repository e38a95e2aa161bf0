/** The framer: it cuts an arbitrarily chunked byte stream into FIX frames. */
module FixFramer {
  import opened Bytes
  import opened Chunking
  import opened FixCodec

  const TRAILER_SIZE := 7 // "10=000" and SOH
  const DEFAULT_MAX_SIZE: GoInt := 0x10_0000

  /** `bytes.HasPrefix(s, "8=")` and the like, for a one-digit tag. */
  predicate TagAt(s: bytes, k: int, digit: byte) { 0 <= k <= |s| - 2 && s[k] == digit && s[k + 1] == EQUALS }

  /** `bytes.HasPrefix(s[k:], "10=")`. */
  predicate CheckSumTagAt(s: bytes, k: int) { 0 <= k < |s| && s[k] == 49 && TagAt(s, k + 1, 48) }

  /** `nextFrame` once both delimiters are found: the end of the frame that the header declares. */
  function DeclaredEnd(buffer: bytes, firstEnd: nat, secondEnd: nat): (r: Result<int, FrameError>)
    requires firstEnd < secondEnd < |buffer|
    ensures r.Ok? ==> r.value >= secondEnd + 1 + TRAILER_SIZE
  {
    if secondEnd < firstEnd + 3 || !TagAt(buffer, firstEnd + 1, 57) then Err(NoBodyLength)
    else
      var length := Atoi(buffer[firstEnd + 3..secondEnd]);
      if length.None? || length.value < 0 then Err(BadLength)
      else Ok(secondEnd + 1 + length.value + TRAILER_SIZE)
  }

  /** The positions of the two delimiters that end BeginString and BodyLength. */
  function Delimiters(buffer: bytes): (r: Option<(nat, nat)>)
    ensures r.Some? ==> r.value.0 < r.value.1 < |buffer|
  {
    var firstEnd := IndexByte(buffer, SOH);
    if firstEnd < 0 then None
    else
      var secondEnd := IndexFrom(buffer, SOH, firstEnd + 1);
      if secondEnd < 0 then None else Some((firstEnd, secondEnd))
  }

  function Judge(buffer: bytes, firstEnd: nat, secondEnd: nat, maxSize: int): (r: Next)
    requires firstEnd < secondEnd < |buffer|
    ensures r.Complete? ==> 0 < r.consumed <= |buffer| && r.consumed <= maxSize && r.frame == buffer[..r.consumed]
  {
    var declared := DeclaredEnd(buffer, firstEnd, secondEnd);
    if declared.Err? then Malformed(declared.error)
    else
      var frameEnd := declared.value;
      if frameEnd > maxSize then Malformed(TooLarge)
      else if |buffer| < frameEnd then Incomplete
      else if !CheckSumTagAt(buffer, frameEnd - TRAILER_SIZE) || buffer[frameEnd - 1] != SOH then Malformed(BadLength)
      else Complete(buffer[..frameEnd], frameEnd)
  }

  function NextFrame(buffer: bytes, maxSize: int): (r: Next)
    ensures r.Complete? ==> 0 < r.consumed <= |buffer| && r.consumed <= maxSize && r.frame == buffer[..r.consumed]
  {
    if |buffer| < 2 then Incomplete
    else if !TagAt(buffer, 0, 56) then Malformed(NoBeginTag)
    else
      match Delimiters(buffer)
      case None => Incomplete
      case Some((firstEnd, secondEnd)) => Judge(buffer, firstEnd, secondEnd, maxSize)
  }

  /** `nextFrame` for one size limit. */
  function Scan(maxSize: int): Scanner { (buffer: bytes) => NextFrame(buffer, maxSize) }

  class Framer {
    var buffer: bytes
    var maxSize: GoInt

    constructor (maxSize: GoInt)
      ensures buffer == [] && this.maxSize == maxSize
    {
      buffer := [];
      this.maxSize := maxSize;
    }

    /** `Feed`: emits every frame that the bytes so far complete and keeps the rest. */
    method Feed(data: bytes) returns (frames: seq<bytes>, error: Option<FrameError>)
      modifies this
      ensures maxSize == if old(maxSize) <= 0 then 1_048_576 else old(maxSize)
      ensures Cut(frames, buffer, error) == CutFrames(Scan(maxSize), old(buffer) + data, maxSize)
    {
      if maxSize <= 0 { maxSize := DEFAULT_MAX_SIZE; }
      buffer := buffer + data;
      frames, error := Drain(Scan(maxSize));
    }

    /** The cutting loop of `Feed`. */
    method Drain(scan: Scanner) returns (frames: seq<bytes>, error: Option<FrameError>)
      modifies this`buffer
      ensures Cut(frames, buffer, error) == CutFrames(scan, old(buffer), maxSize)
    {
      frames := [];
      BehindNothing(CutFrames(scan, buffer, maxSize));
      while true
        invariant maxSize == old(maxSize)
        invariant CutFrames(scan, old(buffer), maxSize) == Behind(frames, CutFrames(scan, buffer, maxSize))
        decreases |buffer|
      {
        match scan(buffer) {
          case Malformed(e) => return frames, Some(e);
          case Incomplete =>
            if |buffer| > maxSize { return frames, Some(TooLarge); }
            return frames, None;
          case Complete(frame, consumed) =>
            CutHead(scan, buffer, maxSize);
            BehindBoth(frames, [frame], CutFrames(scan, buffer[consumed..], maxSize));
            frames := frames + [frame];
            buffer := buffer[consumed..];
        }
      }
    }
  }

  // ------------------------------------------------------------- what a frame is

  /** "8=", a begin string, SOH, "9=", the length of the body in digits, SOH, the body, "10=", three bytes, SOH. */
  ghost predicate FrameOf(frame: bytes, begin: bytes, digits: bytes, body: bytes, check: bytes)
  {
    && frame == ([56, 61] + begin + [1]) + ([57, 61] + digits + [1]) + body + ([49, 48, 61] + check + [1])
    && 1 !in begin && 1 !in digits && Atoi(digits) == Some(|body|) && |check| == 3
  }

  lemma Wrapped(s: bytes, p: nat, q: nat, prefix: bytes)
    requires p + |prefix| < q <= |s| && s[p..p + |prefix|] == prefix && s[q - 1] == 1
    ensures s[p..q] == prefix + s[p + |prefix|..q - 1] + [1]
  {
  }

  lemma Tagged(s: bytes, p: nat, q: nat, digit: byte)
    requires p + 2 < q <= |s| && TagAt(s, p, digit) && s[q - 1] == 1
    ensures s[p..q] == [digit, 61] + s[p + 2..q - 1] + [1]
  {
    assert s[p..p + 2] == [digit, 61];
    Wrapped(s, p, q, [digit, 61]);
  }

  lemma CheckTagged(s: bytes, end: nat)
    requires 7 <= end <= |s| && CheckSumTagAt(s, end - 7) && s[end - 1] == 1
    ensures s[end - 7..end] == [49, 48, 61] + s[end - 4..end - 1] + [1]
  {
    assert s[end - 7..end - 4] == [49, 48, 61];
    Wrapped(s, end - 7, end, [49, 48, 61]);
  }

  lemma Quartered(s: bytes, a: nat, b: nat, c: nat, d: nat)
    requires a <= b <= c <= d <= |s|
    ensures s[..d] == s[..a] + s[a..b] + s[b..c] + s[c..d]
  {
  }

  /** Whatever the framer cuts has that shape. */
  lemma CutIsFrame(buffer: bytes, maxSize: int) returns (begin: bytes, digits: bytes, body: bytes, check: bytes)
    requires NextFrame(buffer, maxSize).Complete?
    ensures FrameOf(NextFrame(buffer, maxSize).frame, begin, digits, body, check) && |NextFrame(buffer, maxSize).frame| <= maxSize
  {
    var (i, j) := Delimiters(buffer).value;
    var end := NextFrame(buffer, maxSize).consumed;
    assert forall k :: 0 <= k < i ==> buffer[k] != SOH;
    assert forall k :: i + 1 <= k < j ==> buffer[k] != SOH;
    begin, digits, body, check := buffer[2..i], buffer[i + 3..j], buffer[j + 1..end - 7], buffer[end - 4..end - 1];
    FrameParts(buffer, i, j, end);
  }

  lemma FrameParts(s: bytes, i: nat, j: nat, end: nat)
    requires 2 <= i && i + 3 <= j && j + 8 <= end <= |s| && s[i] == 1 && s[j] == 1 && s[end - 1] == 1
    requires TagAt(s, 0, 56) && TagAt(s, i + 1, 57) && CheckSumTagAt(s, end - 7)
    ensures s[..end] == ([56, 61] + s[2..i] + [1]) + ([57, 61] + s[i + 3..j] + [1]) + s[j + 1..end - 7] + ([49, 48, 61] + s[end - 4..end - 1] + [1])
  {
    Tagged(s, 0, i + 1, 56);
    Tagged(s, i + 1, j + 1, 57);
    CheckTagged(s, end);
    Quartered(s, i + 1, j + 1, end - 7, end);
    assert s[0..i + 1] == s[..i + 1];
  }

  lemma Joined4(a: bytes, b: bytes, c: bytes, d: bytes)
    ensures var s := a + b + c + d;
            && s[..|a|] == a && s[|a|..|a| + |b|] == b && s[|a| + |b|..|a| + |b| + |c|] == c && s[|a| + |b| + |c|..] == d
  {
  }

  /** Every text of that shape within the size limit is cut, whatever follows it. */
  lemma FrameIsCut(frame: bytes, begin: bytes, digits: bytes, body: bytes, check: bytes, more: bytes, maxSize: int)
    requires FrameOf(frame, begin, digits, body, check) && |frame| <= maxSize
    ensures NextFrame(frame + more, maxSize) == Complete(frame, |frame|)
  {
    var head, length, trailer := [56, 61] + begin + [1], [57, 61] + digits + [1], [49, 48, 61] + check + [1];
    Joined4(head, length, body, trailer);
    PartsAreCut(frame, head, length, trailer, begin, digits, body, maxSize);
    VerdictStable(frame, more, maxSize);
  }

  lemma PartsAreCut(frame: bytes, head: bytes, length: bytes, trailer: bytes, begin: bytes, digits: bytes, body: bytes, maxSize: int)
    requires |frame| == |head| + |length| + |body| + 7 && |trailer| == 7 && |frame| <= maxSize
    requires frame[..|head|] == head && frame[|head|..|head| + |length|] == length && frame[|head| + |length| + |body|..] == trailer
    requires head == [56, 61] + begin + [1] && length == [57, 61] + digits + [1] && 1 !in begin && 1 !in digits
    requires trailer[0] == 49 && trailer[1] == 48 && trailer[2] == 61 && trailer[6] == 1 && Atoi(digits) == Some(|body|)
    ensures NextFrame(frame, maxSize) == Complete(frame, |frame|)
  {
    HeadIndexes(frame, head, length);
    TrailerIndexes(frame, trailer);
    DelimitersAt(frame, head, length, begin, digits);
    LengthText(frame, head, length, digits);
    JudgeCuts(frame, |head| - 1, |head| + |length| - 1, |body|, maxSize);
  }

  lemma HeadIndexes(frame: bytes, head: bytes, length: bytes)
    requires |frame| >= |head| + |length| && frame[..|head|] == head && frame[|head|..|head| + |length|] == length
    ensures forall k :: 0 <= k < |head| ==> frame[k] == head[k]
    ensures forall k :: |head| <= k < |head| + |length| ==> frame[k] == length[k - |head|]
  {
    SliceAt(frame, 0, |head|);
    SliceAt(frame, |head|, |head| + |length|);
  }

  lemma TrailerIndexes(frame: bytes, trailer: bytes)
    requires |frame| >= 7 && |trailer| == 7 && frame[|frame| - 7..] == trailer
    ensures var c := |frame| - 7;
            frame[c] == trailer[0] && frame[c + 1] == trailer[1] && frame[c + 2] == trailer[2] && frame[c + 6] == trailer[6]
  {
    SliceAt(frame, |frame| - 7, |frame|);
  }

  lemma SliceAt(s: bytes, p: nat, q: nat)
    requires p <= q <= |s|
    ensures forall k :: p <= k < q ==> s[k] == s[p..q][k - p]
  {
  }

  lemma LengthText(frame: bytes, head: bytes, length: bytes, digits: bytes)
    requires |frame| >= |head| + |length| && frame[|head|..|head| + |length|] == length && length == [57, 61] + digits + [1]
    ensures frame[|head| + 2..|head| + |length| - 1] == digits
  {
    assert length[2..|digits| + 2] == digits;
    SliceOfSlice(frame, |head|, |head| + |length|, 2, |digits| + 2);
  }

  lemma SliceOfSlice(s: bytes, p: nat, q: nat, a: nat, b: nat)
    requires p <= q <= |s| && a <= b <= q - p
    ensures s[p..q][a..b] == s[p + a..p + b]
  {
    var left, right := s[p..q][a..b], s[p + a..p + b];
    forall k | 0 <= k < |left| ensures left[k] == right[k] { assert left[k] == s[p..q][a + k]; }
  }

  lemma JudgeCuts(frame: bytes, i: nat, j: nat, n: nat, maxSize: int)
    requires i + 3 <= j && |frame| == j + 1 + n + 7 && |frame| <= maxSize && TagAt(frame, i + 1, 57)
    requires Atoi(frame[i + 3..j]) == Some(n) && CheckSumTagAt(frame, |frame| - 7) && frame[|frame| - 1] == SOH
    ensures Judge(frame, i, j, maxSize) == Complete(frame, |frame|)
  {
    assert frame[..|frame|] == frame;
  }

  lemma DelimitersAt(frame: bytes, head: bytes, length: bytes, begin: bytes, digits: bytes)
    requires |frame| >= |head| + |length| && head == [56, 61] + begin + [1] && length == [57, 61] + digits + [1] && 1 !in begin && 1 !in digits
    requires forall k :: 0 <= k < |head| ==> frame[k] == head[k]
    requires forall k :: |head| <= k < |head| + |length| ==> frame[k] == length[k - |head|]
    ensures Delimiters(frame) == Some((|head| - 1, |head| + |length| - 1))
  {
    var i, j := |head| - 1, |head| + |length| - 1;
    forall k | 0 <= k < i ensures frame[k] != SOH { assert frame[k] == head[k]; }
    forall k | i + 1 <= k < j ensures frame[k] != SOH { assert frame[k] == length[k - |head|]; }
    assert frame[j] == length[|length| - 1] == 1;
    IndexFromIs(frame, SOH, 0, i);
    IndexFromIs(frame, SOH, i + 1, j);
  }

  // ------------------------------------------------------------- chunking law

  /** Delimiters once found stay; those found only with more bytes lie beyond the old ones. */
  lemma DelimitersGrow(buffer: bytes, more: bytes)
    ensures Delimiters(buffer).Some? ==> Delimiters(buffer + more) == Delimiters(buffer)
    ensures Delimiters(buffer).None? && Delimiters(buffer + more).Some? ==> Delimiters(buffer + more).value.1 >= |buffer|
  {
    IndexFromGrows(buffer, more, SOH, 0);
    var firstEnd := IndexByte(buffer, SOH);
    if firstEnd >= 0 {
      IndexFromGrows(buffer, more, SOH, firstEnd + 1);
    }
  }

  lemma JudgeStable(buffer: bytes, more: bytes, firstEnd: nat, secondEnd: nat, maxSize: int)
    requires firstEnd < secondEnd < |buffer|
    requires !Judge(buffer, firstEnd, secondEnd, maxSize).Incomplete?
    ensures Judge(buffer + more, firstEnd, secondEnd, maxSize) == Judge(buffer, firstEnd, secondEnd, maxSize)
  {
    var all := buffer + more;
    if firstEnd + 3 <= secondEnd {
      assert all[firstEnd + 3..secondEnd] == buffer[firstEnd + 3..secondEnd];
    }
    var declared := DeclaredEnd(buffer, firstEnd, secondEnd);
    if declared.Ok? && declared.value <= maxSize {
      var frameEnd := declared.value;
      assert all[..frameEnd] == buffer[..frameEnd];
    }
  }

  /** A verdict on a buffer survives more bytes: a cut frame stays cut, a malformed head stays malformed. */
  lemma VerdictStable(buffer: bytes, more: bytes, maxSize: int)
    requires !NextFrame(buffer, maxSize).Incomplete?
    ensures NextFrame(buffer + more, maxSize) == NextFrame(buffer, maxSize)
  {
    if TagAt(buffer, 0, 56) {
      DelimitersGrow(buffer, more);
      var (firstEnd, secondEnd) := Delimiters(buffer).value;
      JudgeStable(buffer, more, firstEnd, secondEnd, maxSize);
    }
  }

  /** A buffer beyond the size limit that holds no frame will never yield one. */
  lemma OversizeNeverCompletes(buffer: bytes, more: bytes, maxSize: int)
    requires NextFrame(buffer, maxSize).Incomplete? && |buffer| > maxSize && maxSize > 0
    ensures !NextFrame(buffer + more, maxSize).Complete?
  {
    assert Delimiters(buffer).None?;
    DelimitersGrow(buffer, more);
  }

  /** The framer's scanner is stable, so the chunking law holds for it. */
  lemma ScanStable(maxSize: int)
    requires maxSize > 0
    ensures Stable(Scan(maxSize), maxSize)
  {
    var scan := Scan(maxSize);
    forall b, more | !scan(b).Incomplete?
      ensures scan(b + more) == scan(b)
    {
      VerdictStable(b, more, maxSize);
    }
    forall b, more | scan(b).Incomplete? && |b| > maxSize
      ensures !scan(b + more).Complete?
    {
      OversizeNeverCompletes(b, more, maxSize);
    }
  }

  /** `Feed(a)` then `Feed(b)` equals `Feed(a + b)` on every byte stream, malformed or oversized ones
      included, and what was emitted followed by what is buffered is always what was fed. */
  lemma FeedTwice(buffer: bytes, a: bytes, b: bytes, maxSize: int)
    requires maxSize > 0
    ensures var first := CutFrames(Scan(maxSize), buffer + a, maxSize);
            var second := CutFrames(Scan(maxSize), first.rest + b, maxSize);
            var whole := CutFrames(Scan(maxSize), buffer + (a + b), maxSize);
            && whole.frames == first.frames + second.frames
            && whole.rest == second.rest
            && (whole.error.Some? <==> first.error.Some? || second.error.Some?)
            && Flatten(whole.frames) + whole.rest == buffer + (a + b)
  {
    ScanStable(maxSize);
    ConcatAssoc(buffer, a, b);
    FeedInTwo(Scan(maxSize), buffer + a, b, maxSize);
    CutConserves(Scan(maxSize), buffer + (a + b), maxSize);
  }
}
