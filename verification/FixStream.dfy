/** The wire layer end to end: printed messages survive any chunking of the byte stream. */
module FixStream {
  import opened Bytes
  import opened Chunking
  import opened FixCodec
  import opened FixFramer

  /** A message handed to `Encode`. */
  datatype Outgoing = Outgoing(begin: bytes, fields: seq<Field>)

  predicate Sendable(m: Outgoing, maxSize: int)
  {
    Legal(m.fields) && SOH !in m.begin && |Wire(m.begin, m.fields)| <= maxSize
  }

  predicate AllLegal(messages: seq<Outgoing>)
  {
    forall i :: 0 <= i < |messages| ==> Legal(messages[i].fields)
  }

  predicate AllSendable(messages: seq<Outgoing>, maxSize: int)
    ensures AllSendable(messages, maxSize) ==> AllLegal(messages)
  {
    forall i :: 0 <= i < |messages| ==> Sendable(messages[i], maxSize)
  }

  function Wires(messages: seq<Outgoing>): (wires: seq<bytes>)
    requires AllLegal(messages)
    ensures |wires| == |messages|
  {
    seq(|messages|, i requires 0 <= i < |messages| => Wire(messages[i].begin, messages[i].fields))
  }

  lemma DeclaredEndOfParts(first: bytes, n: nat, tail: bytes)
    requires SOH !in first && n < INT_LIMIT
    ensures var raw := first + [SOH] + (LengthPart(n) + [SOH] + tail);
            var secondEnd := |first| + 1 + |LengthPart(n)|;
            && Delimiters(raw) == Some((|first|, secondEnd))
            && DeclaredEnd(raw, |first|, secondEnd) == Ok(secondEnd + 1 + n + TRAILER_SIZE)
  {
    var second := LengthPart(n);
    var raw := first + [SOH] + (second + [SOH] + tail);
    TwoDelimiters(first, second, tail);
    assert raw[|first| + 3..|first| + 1 + |second|] == FormatNat(n);
    AtoiOfFormat(n);
  }

  lemma TrailerAt(prefix: bytes, text: bytes)
    requires |text| == 6 && CheckSumTagAt(text, 0)
    ensures var raw := prefix + text + [SOH]; CheckSumTagAt(raw, |raw| - TRAILER_SIZE) && raw[|raw| - 1] == SOH
  {
  }

  lemma LeadAt(first: bytes, rest: bytes)
    requires TagAt(first, 0, 56)
    ensures TagAt(first + [SOH] + rest, 0, 56)
  {
  }

  lemma WellFramed(raw: bytes, firstEnd: nat, secondEnd: nat, maxSize: GoInt)
    requires TagAt(raw, 0, 56) && Delimiters(raw) == Some((firstEnd, secondEnd))
    requires DeclaredEnd(raw, firstEnd, secondEnd) == Ok(|raw|) && |raw| <= maxSize
    requires CheckSumTagAt(raw, |raw| - TRAILER_SIZE) && raw[|raw| - 1] == SOH
    ensures NextFrame(raw, maxSize) == Complete(raw, |raw|)
  {
    assert raw[..|raw|] == raw;
  }

  lemma NextFrameOfParts(first: bytes, body: bytes, text: bytes, maxSize: GoInt)
    requires SOH !in first && TagAt(first, 0, 56)
    requires |text| == 6 && CheckSumTagAt(text, 0)
    requires |first| + 1 + |LengthPart(|body|)| + 1 + |body| + TRAILER_SIZE <= maxSize
    ensures var raw := first + [SOH] + (LengthPart(|body|) + [SOH] + (body + (text + [SOH])));
            NextFrame(raw, maxSize) == Complete(raw, |raw|)
  {
    var second := LengthPart(|body|);
    var rest := second + [SOH] + (body + (text + [SOH]));
    LeadAt(first, rest);
    DeclaredEndOfParts(first, |body|, body + (text + [SOH]));
    Reassociate(first + [SOH], second + [SOH], body, text, [SOH]);
    TrailerAt(((first + [SOH]) + (second + [SOH])) + body, text);
    WellFramed(first + [SOH] + rest, |first|, |first| + 1 + |second|, maxSize);
  }

  /** The framer recognises a printed message, whatever follows it. */
  lemma NextFrameOfWire(begin: bytes, fields: seq<Field>, more: bytes, maxSize: GoInt)
    requires Sendable(Outgoing(begin, fields), maxSize)
    ensures NextFrame(Wire(begin, fields) + more, maxSize) == Complete(Wire(begin, fields), |Wire(begin, fields)|)
  {
    WireShape(begin, fields);
    NextFrameOfParts(BeginPart(begin), Body(fields), CheckSumPart(Covered(begin, fields)), maxSize);
    VerdictStable(Wire(begin, fields), more, maxSize);
  }

  lemma CutOfWires(messages: seq<Outgoing>, maxSize: GoInt)
    requires maxSize > 0
    requires AllSendable(messages, maxSize)
    ensures CutFrames(Scan(maxSize), Flatten(Wires(messages)), maxSize) == Cut(Wires(messages), [], None)
  {
    var wires := Wires(messages);
    forall i | 0 <= i < |wires|
      ensures Recognises(Scan(maxSize), wires[i])
    {
      var m := messages[i];
      forall rest
        ensures Scan(maxSize)(Wire(m.begin, m.fields) + rest) == Complete(Wire(m.begin, m.fields), |Wire(m.begin, m.fields)|)
      {
        NextFrameOfWire(m.begin, m.fields, rest, maxSize);
      }
    }
    CutAll(Scan(maxSize), wires, maxSize);
  }

  /** Strict parsing of the frame succeeds and gives the message that was sent. */
  predicate Delivers(frame: bytes, sent: Outgoing)
  {
    var parsed := Parsed(frame, STRICT);
    && parsed.Ok? && parsed.value.fields == sent.fields
    && parsed.value.beginString == if sent.begin == [] then [70, 73, 88, 46, 52, 46, 52] else sent.begin // FIX.4.4 by default
  }

  lemma WireDelivers(m: Outgoing, maxSize: GoInt)
    requires Sendable(m, maxSize)
    ensures Delivers(Wire(m.begin, m.fields), m)
  {
    WireShape(m.begin, m.fields);
    ParseOfWire(m.begin, m.fields);
  }

  lemma WiresDeliver(messages: seq<Outgoing>, maxSize: GoInt)
    requires AllSendable(messages, maxSize)
    ensures forall i :: 0 <= i < |messages| ==> Delivers(Wires(messages)[i], messages[i])
  {
    forall i | 0 <= i < |messages|
      ensures Delivers(Wires(messages)[i], messages[i])
    {
      WireDelivers(messages[i], maxSize);
    }
  }

  /** Encode a list of legal messages, join the bytes, cut them anywhere, feed the chunks and parse the
      frames strictly: exactly the original messages come back, in order, with nothing left over. */
  lemma StreamRoundTrip(messages: seq<Outgoing>, chunks: seq<bytes>, maxSize: GoInt)
    requires maxSize > 0
    requires AllSendable(messages, maxSize)
    requires Flatten(chunks) == Flatten(Wires(messages))
    ensures var fed := FeedAll(Scan(maxSize), [], chunks, maxSize);
            && fed.error.None? && fed.rest == []
            && |fed.frames| == |messages|
            && forall i :: 0 <= i < |messages| ==> Delivers(fed.frames[i], messages[i])
  {
    ScanStable(maxSize);
    CutOfWires(messages, maxSize);
    ChunksOfFrames(Scan(maxSize), chunks, Wires(messages), maxSize);
    WiresDeliver(messages, maxSize);
  }
}
