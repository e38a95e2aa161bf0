/** The tag=value codec: printing with BodyLength and CheckSum, and strict or lenient parsing. */
module FixCodec {
  import opened Bytes

  datatype Field = Field(tag: GoInt, value: bytes)

  datatype Message = Message(beginString: bytes, bodyLength: int, checkSum: int, fields: seq<Field>, raw: bytes)

  datatype CodecError =
    | FirstFieldNotMsgType | InvalidBodyTag(tag: int) | ValueContainsSOH(tag: int)
    | NoTrailingSOH | TooFewFields | MalformedField | InvalidTag
    | BeginStringNotFirst | BodyLengthNotSecond | MsgTypeNotThird | CheckSumNotLast
    | BadBodyLength | BadCheckSum | MissingDelimiter | MissingCheckSum

  datatype ParseOptions = ParseOptions(validateBodyLength: bool, validateCheckSum: bool)

  const STRICT := ParseOptions(true, true)

  const DEFAULT_BEGIN: bytes := [70, 73, 88, 46, 52, 46, 52] // FIX.4.4
  const BEGIN_TAG: bytes := [56, 61]                         // 8=
  const LENGTH_TAG: bytes := [57, 61]                        // 9=
  const CHECKSUM_TAG: bytes := [49, 48, 61]                  // 10=

  // ------------------------------------------------------------ field access

  /** The value of the first field with the given tag. */
  function Lookup(fields: seq<Field>, tag: int): (r: Option<bytes>)
  {
    if fields == [] then None
    else if fields[0].tag == tag then Some(fields[0].value)
    else Lookup(fields[1..], tag)
  }

  /** A field that no earlier field shadows is the one looked up. */
  lemma {:induction false} LookupIs(fields: seq<Field>, tag: int, k: nat)
    requires k < |fields| && fields[k].tag == tag && forall j :: 0 <= j < k ==> fields[j].tag != tag
    ensures Lookup(fields, tag) == Some(fields[k].value)
  {
    if k == 0 {
    } else {
      assert fields[0].tag != tag;
      LookupIs(fields[1..], tag, k - 1);
    }
  }

  /** Nothing is found exactly when no field has the tag. */
  lemma {:induction false} LookupNone(fields: seq<Field>, tag: int)
    ensures Lookup(fields, tag).None? <==> forall j :: 0 <= j < |fields| ==> fields[j].tag != tag
  {
    if fields == [] {
    } else {
      LookupNone(fields[1..], tag);
      assert forall j :: 1 <= j < |fields| ==> fields[j] == fields[1..][j - 1];
    }
  }

  /** `Message.Get`. */
  method Get(fields: seq<Field>, tag: int) returns (value: bytes, found: bool)
    ensures found == Lookup(fields, tag).Some?
    ensures value == if found then Lookup(fields, tag).value else []
  {
    for i := 0 to |fields|
      invariant Lookup(fields, tag) == Lookup(fields[i..], tag)
    {
      assert fields[i..][0] == fields[i];
      assert fields[i..][1..] == fields[i + 1..];
      if fields[i].tag == tag { return fields[i].value, true; }
    }
    return [], false;
  }

  // ---------------------------------------------------------------- checksum

  function Sum(data: bytes): nat
  {
    if data == [] then 0 else Sum(data[..|data| - 1]) + data[|data| - 1]
  }

  function CheckSumOf(data: bytes): (r: nat)
    ensures r < 256
  {
    Sum(data) % 256
  }

  method CheckSum(data: bytes) returns (r: nat)
    ensures r == CheckSumOf(data)
  {
    var sum: int := 0;
    for i := 0 to |data|
      invariant sum == Sum(data[..i])
    {
      assert data[..i + 1][..i] == data[..i];
      sum := sum + data[i];
    }
    assert data[..|data|] == data;
    return sum % 256;
  }

  /** The checksum of a byte is the byte, and checksums add up modulo 256. */
  lemma {:induction false} CheckSumAdds(a: bytes, b: bytes, x: byte)
    ensures CheckSumOf([]) == 0 && CheckSumOf([x]) == x
    ensures CheckSumOf(a + b) == (CheckSumOf(a) + CheckSumOf(b)) % 256
  {
    assert [x][..0] == [];
    SumAdds(a, b);
    ModAdds(Sum(a), Sum(b));
  }

  lemma ModAdds(x: nat, y: nat)
    ensures (x + y) % 256 == (x % 256 + y % 256) % 256
  {
  }

  lemma {:induction false} SumAdds(a: bytes, b: bytes)
    ensures Sum(a + b) == Sum(a) + Sum(b)
  {
    if b == [] {
      assert a + b == a;
    } else {
      SumAdds(a, b[..|b| - 1]);
      assert (a + b)[..|a + b| - 1] == a + b[..|b| - 1];
    }
  }

  // ---------------------------------------------------------------- encoding

  predicate LegalField(f: Field)
  {
    f.tag > 0 && f.tag != 8 && f.tag != 9 && f.tag != 10 && SOH !in f.value
  }

  /** What `Encode` accepts: MsgType first, no framing tags, no SOH in a value. */
  predicate Legal(fields: seq<Field>)
  {
    |fields| > 0 && fields[0].tag == 35 && forall i :: 0 <= i < |fields| ==> LegalField(fields[i])
  }

  function EffectiveBegin(begin: bytes): bytes { if begin == [] then DEFAULT_BEGIN else begin }

  function FieldPart(f: Field): bytes
    requires f.tag > 0
  {
    FormatNat(f.tag) + [EQUALS] + f.value
  }

  function Parts(fields: seq<Field>): (parts: seq<bytes>)
    requires forall i :: 0 <= i < |fields| ==> fields[i].tag > 0
    ensures |parts| == |fields|
  {
    seq(|fields|, i requires 0 <= i < |fields| => FieldPart(fields[i]))
  }

  function Body(fields: seq<Field>): bytes
    requires forall i :: 0 <= i < |fields| ==> fields[i].tag > 0
  {
    Terminated(Parts(fields))
  }

  function BeginPart(begin: bytes): bytes { BEGIN_TAG + EffectiveBegin(begin) }

  function LengthPart(n: nat): bytes { LENGTH_TAG + FormatNat(n) }

  function CheckSumPart(data: bytes): bytes { CHECKSUM_TAG + Pad3(CheckSumOf(data)) }

  /** Everything the checksum covers. */
  function Covered(begin: bytes, fields: seq<Field>): bytes
    requires Legal(fields)
  {
    Terminated([BeginPart(begin), LengthPart(|Body(fields)|)]) + Body(fields)
  }

  function Wire(begin: bytes, fields: seq<Field>): bytes
    requires Legal(fields)
  {
    Covered(begin, fields) + CheckSumPart(Covered(begin, fields)) + [SOH]
  }

  function FieldError(f: Field): Option<CodecError>
  {
    if f.tag <= 0 || f.tag == 8 || f.tag == 9 || f.tag == 10 then Some(InvalidBodyTag(f.tag))
    else if SOH in f.value then Some(ValueContainsSOH(f.tag))
    else None
  }

  /** Encoding succeeds exactly on legal fields; otherwise the first offending field is reported. */
  method Encode(beginString: bytes, fields: seq<Field>) returns (r: Result<bytes, CodecError>)
    ensures r.Ok? <==> Legal(fields)
    ensures r.Ok? <==> && fields != [] && fields[0].tag == 35
                       && forall i :: 0 <= i < |fields| ==> fields[i].tag > 0 && fields[i].tag !in {8, 9, 10} && SOH !in fields[i].value
    ensures r.Ok? ==> r.value == Wire(beginString, fields)
    ensures r == Err(FirstFieldNotMsgType) <==> (fields == [] || fields[0].tag != 35)
    ensures r.Err? && r.error != FirstFieldNotMsgType ==>
              exists k :: 0 <= k < |fields| && FieldError(fields[k]) == Some(r.error)
                          && forall j :: 0 <= j < k ==> LegalField(fields[j])
  {
    var begin := if beginString == [] then DEFAULT_BEGIN else beginString;
    if |fields| == 0 || fields[0].tag != 35 { return Err(FirstFieldNotMsgType); }
    var body: bytes := [];
    for i := 0 to |fields|
      invariant forall j :: 0 <= j < i ==> LegalField(fields[j])
      invariant body == Body(fields[..i])
    {
      var field := fields[i];
      if field.tag <= 0 || field.tag == 8 || field.tag == 9 || field.tag == 10 {
        assert FieldError(fields[i]) == Some(InvalidBodyTag(field.tag));
        return Err(InvalidBodyTag(field.tag));
      }
      if SOH in field.value {
        assert FieldError(fields[i]) == Some(ValueContainsSOH(field.tag));
        return Err(ValueContainsSOH(field.tag));
      }
      BodyGrows(fields, i);
      body := body + (FormatNat(field.tag) + [EQUALS] + field.value + [SOH]);
    }
    assert fields[..|fields|] == fields;
    HeaderText(begin, |body|);
    var message := BEGIN_TAG + begin + [SOH] + LENGTH_TAG + FormatNat(|body|) + [SOH];
    message := message + body;
    var checksum := CheckSum(message);
    return Ok(message + (CHECKSUM_TAG + Pad3(checksum)) + [SOH]);
  }

  lemma HeaderText(begin: bytes, n: nat)
    requires begin != []
    ensures BEGIN_TAG + begin + [SOH] + LENGTH_TAG + FormatNat(n) + [SOH] == Terminated([BeginPart(begin), LengthPart(n)])
  {
    var parts: seq<bytes> := [BeginPart(begin), LengthPart(n)];
    assert parts[1..] == [LengthPart(n)];
    var tail: seq<bytes> := parts[1..];
    assert |tail[1..]| == 0;
    assert Terminated(parts[1..]) == LengthPart(n) + [SOH] + [];
  }

  lemma BodyGrows(fields: seq<Field>, i: nat)
    requires i < |fields|
    requires forall j :: 0 <= j <= i ==> fields[j].tag > 0
    ensures Body(fields[..i + 1]) == Body(fields[..i]) + (FieldPart(fields[i]) + [SOH])
  {
    var last := [FieldPart(fields[i])];
    assert Parts(fields[..i + 1]) == Parts(fields[..i]) + last;
    TerminatedConcat(Parts(fields[..i]), last);
    assert |last[1..]| == 0;
    assert Terminated(last) == FieldPart(fields[i]) + [SOH] + [];
  }

  // ----------------------------------------------------------------- parsing

  function ParseField(part: bytes): Result<Field, CodecError>
  {
    var separator := IndexByte(part, EQUALS);
    if separator <= 0 then Err(MalformedField)
    else
      match Atoi(part[..separator])
      case None => Err(InvalidTag)
      case Some(tag) => if tag <= 0 then Err(InvalidTag) else Ok(Field(tag, part[separator + 1..]))
  }

  function ParseFields(parts: seq<bytes>): (r: Result<seq<Field>, CodecError>)
    ensures r.Ok? ==> |r.value| == |parts|
  {
    if parts == [] then Ok([])
    else
      var init := ParseFields(parts[..|parts| - 1]);
      if init.Err? then init
      else
        match ParseField(parts[|parts| - 1])
        case Err(e) => Err(e)
        case Ok(f) => Ok(init.value + [f])
  }

  const MARKER: bytes := [SOH] + CHECKSUM_TAG

  /** `frameOffsets`: where the body and the checksum field start. */
  function FrameOffsets(raw: bytes): (r: Result<(int, int), CodecError>)
    ensures r.Ok? ==> 0 <= r.value.1 <= |raw|
  {
    var firstEnd := IndexByte(raw, SOH);
    if firstEnd < 0 then Err(MissingDelimiter)
    else
      var secondEnd := IndexFrom(raw, SOH, firstEnd + 1);
      if secondEnd < 0 then Err(MissingDelimiter)
      else
        var markerAt := LastIndex(raw, MARKER);
        if markerAt < 0 then Err(MissingCheckSum)
        else Ok((secondEnd + 1, markerAt + 1))
  }

  /** The checks that follow field splitting, in the order they are made. */
  function Assemble(raw: bytes, parsed: seq<Field>, options: ParseOptions): (r: Result<Message, CodecError>)
    requires |parsed| >= 4
  {
    var last := parsed[|parsed| - 1];
    if parsed[0].tag != 8 then Err(BeginStringNotFirst)
    else if parsed[1].tag != 9 then Err(BodyLengthNotSecond)
    else if parsed[2].tag != 35 then Err(MsgTypeNotThird)
    else if last.tag != 10 then Err(CheckSumNotLast)
    else
      var bodyLength := Atoi(parsed[1].value);
      if bodyLength.None? || bodyLength.value < 0 then Err(BadBodyLength)
      else
        var checksum := Atoi(last.value);
        if checksum.None? || |last.value| != 3 || checksum.value < 0 || checksum.value > 255 then Err(BadCheckSum)
        else
          var offsets := FrameOffsets(raw);
          if offsets.Err? then Err(offsets.error)
          else
            var (bodyStart, checksumStart) := offsets.value;
            if options.validateBodyLength && checksumStart - bodyStart != bodyLength.value then Err(BadBodyLength)
            else if options.validateCheckSum && CheckSumOf(raw[..checksumStart]) != checksum.value then Err(BadCheckSum)
            else Ok(Message(parsed[0].value, bodyLength.value, checksum.value, parsed[2..|parsed| - 1], raw))
  }

  function Parsed(raw: bytes, options: ParseOptions): (r: Result<Message, CodecError>)
  {
    if raw == [] || raw[|raw| - 1] != SOH then Err(NoTrailingSOH)
    else
      var parts := Split(raw[..|raw| - 1], SOH);
      if |parts| < 4 then Err(TooFewFields)
      else
        var parsed := ParseFields(parts);
        if parsed.Err? then Err(parsed.error) else Assemble(raw, parsed.value, options)
  }

  /** The error of a parse, if any. */
  function ErrorOf(r: Result<Message, CodecError>): Option<CodecError> { if r.Ok? then None else Some(r.error) }

  /** How far the message gets filled in: its parts appear in this order, each only if all checks before it passed. */
  function Filled(raw: bytes, parsed: seq<Field>): Message
    requires |parsed| >= 4
  {
    var empty, last := Message([], 0, 0, [], raw), parsed[|parsed| - 1];
    if parsed[0].tag != 8 || parsed[1].tag != 9 || parsed[2].tag != 35 || last.tag != 10 then empty
    else
      var begun, bodyLength, checksum := empty.(beginString := parsed[0].value), Atoi(parsed[1].value), Atoi(last.value);
      if bodyLength.None? || bodyLength.value < 0 then begun
      else if checksum.None? || |last.value| != 3 || checksum.value < 0 || checksum.value > 255 then begun.(bodyLength := bodyLength.value)
      else Message(parsed[0].value, bodyLength.value, checksum.value, parsed[2..|parsed| - 1], raw)
  }

  /** The message that `Parse` returns, beside an error or not; the options have no say in it. */
  function BestEffort(raw: bytes): Message
  {
    var empty := Message([], 0, 0, [], raw);
    if raw == [] || raw[|raw| - 1] != SOH then empty
    else
      var parts := Split(raw[..|raw| - 1], SOH);
      if |parts| < 4 then empty
      else
        var parsed := ParseFields(parts);
        if parsed.Err? then empty else Filled(raw, parsed.value)
  }

  /** Without an error it is the parsed message. */
  lemma BestEffortOfParsed(raw: bytes, options: ParseOptions)
    requires Parsed(raw, options).Ok?
    ensures Parsed(raw, options).value == BestEffort(raw)
  {
  }

  method Parse(raw: bytes, options: ParseOptions) returns (message: Message, error: Option<CodecError>)
    ensures message == BestEffort(raw) && error == ErrorOf(Parsed(raw, options))
    ensures error.None? ==> Parsed(raw, options) == Ok(message)
  {
    message := Message([], 0, 0, [], raw);
    if |raw| == 0 || raw[|raw| - 1] != SOH { return message, Some(NoTrailingSOH); }
    var parts := Split(raw[..|raw| - 1], SOH);
    if |parts| < 4 { return message, Some(TooFewFields); }
    var parsed := SplitFields(parts);
    if parsed.Err? { return message, Some(parsed.error); }
    message, error := Complete(raw, parsed.value, options);
  }

  /** The field loop of `Parse`. */
  method SplitFields(parts: seq<bytes>) returns (r: Result<seq<Field>, CodecError>)
    ensures r == ParseFields(parts)
  {
    var parsed: seq<Field> := [];
    for i := 0 to |parts|
      invariant ParseFields(parts[..i]) == Ok(parsed)
    {
      var part := parts[i];
      assert parts[..i + 1][..i] == parts[..i];
      var separator := IndexByte(part, EQUALS);
      if separator <= 0 {
        FirstBadPart(parts, i);
        return Err(MalformedField);
      }
      var tag := Atoi(part[..separator]);
      if tag.None? || tag.value <= 0 {
        FirstBadPart(parts, i);
        return Err(InvalidTag);
      }
      parsed := parsed + [Field(tag.value, part[separator + 1..])];
    }
    assert parts[..|parts|] == parts;
    return Ok(parsed);
  }

  /** The part of `Parse` after the fields are split. */
  method Complete(raw: bytes, parsed: seq<Field>, options: ParseOptions) returns (message: Message, error: Option<CodecError>)
    requires |parsed| >= 4
    ensures message == Filled(raw, parsed) && error == ErrorOf(Assemble(raw, parsed, options))
  {
    message := Message([], 0, 0, [], raw);
    var last := parsed[|parsed| - 1];
    if parsed[0].tag != 8 { return message, Some(BeginStringNotFirst); }
    if parsed[1].tag != 9 { return message, Some(BodyLengthNotSecond); }
    if parsed[2].tag != 35 { return message, Some(MsgTypeNotThird); }
    if last.tag != 10 { return message, Some(CheckSumNotLast); }
    message := message.(beginString := parsed[0].value);
    var bodyLength := Atoi(parsed[1].value);
    if bodyLength.None? || bodyLength.value < 0 { return message, Some(BadBodyLength); }
    message := message.(bodyLength := bodyLength.value);
    var checksum := Atoi(last.value);
    if checksum.None? || |last.value| != 3 || checksum.value < 0 || checksum.value > 255 { return message, Some(BadCheckSum); }
    message := message.(checkSum := checksum.value, fields := parsed[2..|parsed| - 1]);
    var offsets := FrameOffsets(raw);
    if offsets.Err? { return message, Some(offsets.error); }
    var (bodyStart, checksumStart) := offsets.value;
    if options.validateBodyLength && checksumStart - bodyStart != bodyLength.value { return message, Some(BadBodyLength); }
    var actual := CheckSum(raw[..checksumStart]);
    if options.validateCheckSum && actual != checksum.value { return message, Some(BadCheckSum); }
    return message, None;
  }

  /** Parsing stops at the first bad part, with that part's error. */
  lemma {:induction false} FirstBadPart(parts: seq<bytes>, i: nat)
    requires i < |parts|
    requires ParseFields(parts[..i]).Ok? && ParseField(parts[i]).Err?
    ensures ParseFields(parts) == Err(ParseField(parts[i]).error)
  {
    if i == |parts| - 1 {
    } else {
      var init := parts[..|parts| - 1];
      assert init[..i] == parts[..i];
      FirstBadPart(init, i);
    }
  }

  // -------------------------------------------------------- what parsing accepts

  /** `all` are the fields of a message: begin string, body length, type, the rest of the body and the checksum. */
  ghost predicate Framed(all: seq<Field>, m: Message)
  {
    && |all| >= 4 && all[0].tag == 8 && all[1].tag == 9 && all[2].tag == 35 && all[|all| - 1].tag == 10
    && m.beginString == all[0].value && m.fields == all[2..|all| - 1]
    && Atoi(all[1].value) == Some(m.bodyLength) && m.bodyLength >= 0
    && |all[|all| - 1].value| == 3 && Atoi(all[|all| - 1].value) == Some(m.checkSum) && 0 <= m.checkSum <= 255
  }

  /** `i` and `j` are where the first and the second SOH stand. */
  ghost predicate FirstTwo(raw: bytes, i: int, j: int)
  {
    && 0 <= i < j < |raw| && raw[i] == 1 && raw[j] == 1
    && (forall k :: 0 <= k < i ==> raw[k] != 1) && (forall k :: i < k < j ==> raw[k] != 1)
  }

  /** The body starts behind the second SOH of `raw`, the checksum field at `end`, behind the last SOH before a "10=". */
  ghost predicate BodyAt(raw: bytes, start: int, end: int)
  {
    && (exists i, j :: FirstTwo(raw, i, j) && start == j + 1)
    && OccursAt(raw, [1, 49, 48, 61], end - 1) && (forall k :: end <= k ==> !OccursAt(raw, [1, 49, 48, 61], k))
  }

  /** A message is accepted only with all its framing in place; strictly, only with the declared length and checksum. */
  lemma ParseAccepts(raw: bytes, options: ParseOptions, m: Message)
    requires Parsed(raw, options) == Ok(m)
    ensures m.raw == raw && raw != [] && raw[|raw| - 1] == 1
    ensures exists all :: ParseFields(Split(raw[..|raw| - 1], 1)) == Ok(all) && Framed(all, m)
    ensures exists start, end :: && BodyAt(raw, start, end) && end <= |raw|
                                 && (options.validateBodyLength ==> m.bodyLength == end - start)
                                 && (options.validateCheckSum ==> end >= 0 && m.checkSum == CheckSumOf(raw[..end]))
  {
    var all := ParseFields(Split(raw[..|raw| - 1], 1)).value;
    assert Framed(all, m);
    var (start, end) := FrameOffsets(raw).value;
    OffsetsAre(raw);
  }

  lemma OffsetsAre(raw: bytes)
    requires FrameOffsets(raw).Ok?
    ensures BodyAt(raw, FrameOffsets(raw).value.0, FrameOffsets(raw).value.1)
  {
    var i := IndexByte(raw, SOH);
    var j := IndexFrom(raw, SOH, i + 1);
    assert MARKER == [1, 49, 48, 61];
    assert FirstTwo(raw, i, j);
  }

  // -------------------------------------------------------------- round trip

  lemma ParseFieldOfPart(f: Field)
    requires f.tag > 0
    ensures ParseField(FieldPart(f)) == Ok(f)
  {
    var tagText := FormatNat(f.tag);
    var part := FieldPart(f);
    assert part[..|tagText|] == tagText;
    assert part[|tagText|] == EQUALS;
    assert EQUALS !in tagText;
    IndexFromIs(part, EQUALS, 0, |tagText|);
    assert part[|tagText| + 1..] == f.value;
    AtoiOfFormat(f.tag);
  }

  lemma {:induction false} ParseFieldsOfParts(fields: seq<Field>)
    requires forall i :: 0 <= i < |fields| ==> fields[i].tag > 0
    ensures ParseFields(Parts(fields)) == Ok(fields)
  {
    if fields == [] {
    } else {
      var init := fields[..|fields| - 1];
      ParseFieldsOfParts(init);
      var parts := Parts(fields);
      assert parts[..|parts| - 1] == Parts(init);
      ParseFieldOfPart(fields[|fields| - 1]);
      assert fields == init + [fields[|fields| - 1]];
    }
  }

  /** The complete field list of a printed message, framing fields included. */
  function FramedFields(begin: bytes, fields: seq<Field>): (all: seq<Field>)
    requires Legal(fields)
    ensures |all| == |fields| + 3
  {
    [Field(8, EffectiveBegin(begin)), Field(9, FormatNat(|Body(fields)|))] + fields
      + [Field(10, Pad3(CheckSumOf(Covered(begin, fields))))]
  }

  function HeaderParts(begin: bytes, fields: seq<Field>): seq<bytes>
    requires Legal(fields)
  {
    [BeginPart(begin), LengthPart(|Body(fields)|)]
  }

  lemma FramingParts(begin: bytes, n: nat, data: bytes)
    ensures FieldPart(Field(8, EffectiveBegin(begin))) == BeginPart(begin)
    ensures FieldPart(Field(9, FormatNat(n))) == LengthPart(n)
    ensures FieldPart(Field(10, Pad3(CheckSumOf(data)))) == CheckSumPart(data)
  {
    assert FormatNat(8) == [56] && FormatNat(9) == [57];
    assert FormatNat(10 / 10) == [49];
    assert FormatNat(10) == [49, 48];
    assert [49, 48] + [EQUALS] == CHECKSUM_TAG;
  }

  lemma FramedFieldParts(begin: bytes, fields: seq<Field>)
    requires Legal(fields)
    ensures forall i :: 0 <= i < |fields| + 3 ==> FramedFields(begin, fields)[i].tag > 0
    ensures Parts(FramedFields(begin, fields))
         == HeaderParts(begin, fields) + Parts(fields) + [CheckSumPart(Covered(begin, fields))]
  {
    var header := [Field(8, EffectiveBegin(begin)), Field(9, FormatNat(|Body(fields)|))];
    var trailer := [Field(10, Pad3(CheckSumOf(Covered(begin, fields))))];
    FramingParts(begin, |Body(fields)|, Covered(begin, fields));
    PartsConcat(header, fields);
    PartsConcat(header + fields, trailer);
    assert Parts(header) == HeaderParts(begin, fields);
    assert Parts(trailer) == [CheckSumPart(Covered(begin, fields))];
  }

  lemma PartsConcat(a: seq<Field>, b: seq<Field>)
    requires forall i :: 0 <= i < |a| ==> a[i].tag > 0
    requires forall i :: 0 <= i < |b| ==> b[i].tag > 0
    ensures forall i :: 0 <= i < |a + b| ==> (a + b)[i].tag > 0
    ensures Parts(a + b) == Parts(a) + Parts(b)
  {
  }

  lemma TerminatedFramedFields(begin: bytes, fields: seq<Field>)
    requires Legal(fields)
    ensures Terminated(HeaderParts(begin, fields) + Parts(fields) + [CheckSumPart(Covered(begin, fields))]) == Wire(begin, fields)
  {
    var header := HeaderParts(begin, fields);
    var trailer := [CheckSumPart(Covered(begin, fields))];
    TerminatedConcat(header + Parts(fields), trailer);
    TerminatedConcat(header, Parts(fields));
    assert |trailer[1..]| == 0;
    assert Terminated(trailer) == CheckSumPart(Covered(begin, fields)) + [SOH];
  }

  lemma PartsFreeOfSOH(fields: seq<Field>)
    requires forall i :: 0 <= i < |fields| ==> fields[i].tag > 0 && SOH !in fields[i].value
    ensures forall part :: part in Parts(fields) ==> SOH !in part
  {
  }

  lemma FramedFieldsFreeOfSOH(begin: bytes, fields: seq<Field>)
    requires Legal(fields)
    requires SOH !in begin
    ensures forall f :: f in FramedFields(begin, fields) ==> SOH !in f.value
  {
  }

  /** The body starts after two delimiters and the last CheckSum marker is the real one. */
  lemma TwoDelimiters(first: bytes, second: bytes, tail: bytes)
    requires SOH !in first && SOH !in second
    ensures var raw := first + [SOH] + (second + [SOH] + tail);
            && IndexByte(raw, SOH) == |first|
            && IndexFrom(raw, SOH, |first| + 1) == |first| + 1 + |second|
  {
    var raw := first + [SOH] + (second + [SOH] + tail);
    IndexFromIs(raw, SOH, 0, |first|);
    IndexFromIs(raw, SOH, |first| + 1, |first| + 1 + |second|);
  }

  lemma Reassociate(a: bytes, b: bytes, c: bytes, d: bytes, e: bytes)
    ensures ((((a + b) + c) + d) + e) == a + (b + (c + (d + e)))
  {
  }

  /** A printed message is its begin part, its length part, its body and its checksum field. */
  lemma WireShape(begin: bytes, fields: seq<Field>)
    requires Legal(fields)
    ensures Wire(begin, fields)
         == BeginPart(begin) + [SOH]
            + (LengthPart(|Body(fields)|) + [SOH] + (Body(fields) + (CheckSumPart(Covered(begin, fields)) + [SOH])))
    ensures |Covered(begin, fields)| == |BeginPart(begin)| + 1 + |LengthPart(|Body(fields)|)| + 1 + |Body(fields)|
  {
    var first, second, body := BeginPart(begin), LengthPart(|Body(fields)|), Body(fields);
    var parts: seq<bytes> := [first, second];
    var tail: seq<bytes> := parts[1..];
    assert tail == [second] && |tail[1..]| == 0;
    assert Terminated(tail) == second + [SOH] + [];
    assert Terminated(parts) == (first + [SOH]) + (second + [SOH]);
    Reassociate(first + [SOH], second + [SOH], body, CheckSumPart(Covered(begin, fields)), [SOH]);
  }

  lemma LastMarker(covered: bytes, text: bytes)
    requires |covered| > 0 && covered[|covered| - 1] == SOH
    requires |text| == 6 && text[..3] == CHECKSUM_TAG && SOH !in text
    ensures LastIndex(covered + text + [SOH], MARKER) == |covered| - 1
  {
    var raw := covered + text + [SOH];
    var at := |covered| - 1;
    assert raw[at..at + 4] == [SOH] + text[..3];
    assert OccursAt(raw, MARKER, at);
    forall k | at < k
      ensures !OccursAt(raw, MARKER, k)
    {
      if k + 4 <= |raw| {
        assert raw[k] == text[k - at - 1];
        assert raw[k..k + 4][0] == raw[k];
      }
    }
  }

  lemma OffsetsOfWire(begin: bytes, fields: seq<Field>)
    requires Legal(fields)
    requires SOH !in begin
    ensures FrameOffsets(Wire(begin, fields)) == Ok((|Covered(begin, fields)| - |Body(fields)|, |Covered(begin, fields)|))
  {
    WireShape(begin, fields);
    TwoDelimiters(BeginPart(begin), LengthPart(|Body(fields)|), Body(fields) + (CheckSumPart(Covered(begin, fields)) + [SOH]));
    LastMarker(Covered(begin, fields), CheckSumPart(Covered(begin, fields)));
  }

  lemma SplitOfWire(begin: bytes, fields: seq<Field>)
    requires Legal(fields)
    requires SOH !in begin
    ensures var raw := Wire(begin, fields); ParseFields(Split(raw[..|raw| - 1], SOH)) == Ok(FramedFields(begin, fields))
  {
    var all := FramedFields(begin, fields);
    FramedFieldParts(begin, fields);
    TerminatedFramedFields(begin, fields);
    FramedFieldsFreeOfSOH(begin, fields);
    PartsFreeOfSOH(all);
    SplitTerminated(Parts(all));
    ParseFieldsOfParts(all);
  }

  lemma AssembleOfWire(begin: bytes, fields: seq<Field>)
    requires Legal(fields)
    requires SOH !in begin
    requires |Body(fields)| < INT_LIMIT
    ensures Assemble(Wire(begin, fields), FramedFields(begin, fields), STRICT)
         == Ok(Message(EffectiveBegin(begin), |Body(fields)|, CheckSumOf(Covered(begin, fields)), fields, Wire(begin, fields)))
  {
    var all := FramedFields(begin, fields);
    AtoiOfFormat(|Body(fields)|);
    AtoiOfPad3(CheckSumOf(Covered(begin, fields)));
    OffsetsOfWire(begin, fields);
    assert Wire(begin, fields)[..|Covered(begin, fields)|] == Covered(begin, fields);
    assert all[2] == fields[0];
    assert all[2..|all| - 1] == fields;
  }

  /** Strict parsing of a printed message gives back exactly its fields. */
  lemma ParseOfWire(begin: bytes, fields: seq<Field>)
    requires Legal(fields)
    requires SOH !in begin
    requires |Body(fields)| < INT_LIMIT
    ensures Parsed(Wire(begin, fields), STRICT)
         == Ok(Message(EffectiveBegin(begin), |Body(fields)|, CheckSumOf(Covered(begin, fields)), fields, Wire(begin, fields)))
  {
    SplitOfWire(begin, fields);
    AssembleOfWire(begin, fields);
  }
}
