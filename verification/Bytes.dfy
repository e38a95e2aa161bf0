/** Byte strings and the few library routines on them that the FIX code calls:
    searching, splitting, and decimal printing and parsing. */
module Bytes {

  type byte = x: int | 0 <= x < 256
  type bytes = seq<byte>

  const SOH: byte := 1
  const EQUALS: byte := 61
  const ZERO: byte := 48

  /** The range of Go's `int` on a 64-bit platform. */
  const INT_LIMIT: int := 0x8000_0000_0000_0000

  type GoInt = x: int | -INT_LIMIT <= x < INT_LIMIT

  datatype Option<+T> = None | Some(value: T)

  datatype Result<+T, +E> = Ok(value: T) | Err(error: E)

  /** The first position of `b` at or after `from`, or -1. */
  function IndexFrom(s: bytes, b: byte, from: nat): (r: int)
    ensures r == -1 || (from <= r < |s| && s[r] == b)
    ensures forall j :: from <= j < (if r < 0 then |s| else r) ==> s[j] != b
    decreases |s| - from
  {
    if from >= |s| then -1 else if s[from] == b then from else IndexFrom(s, b, from + 1)
  }

  /** `bytes.IndexByte`. */
  function IndexByte(s: bytes, b: byte): int { IndexFrom(s, b, 0) }

  /** A position that holds `b`, with no `b` before it, is the one found. */
  lemma IndexFromIs(s: bytes, b: byte, from: nat, k: nat)
    requires from <= k < |s| && s[k] == b && forall j :: from <= j < k ==> s[j] != b
    ensures IndexFrom(s, b, from) == k
  {
  }

  /** Appending bytes never moves a byte that was already found, and one found only then lies beyond. */
  lemma IndexFromGrows(s: bytes, t: bytes, b: byte, from: nat)
    requires from <= |s|
    ensures IndexFrom(s, b, from) >= 0 ==> IndexFrom(s + t, b, from) == IndexFrom(s, b, from)
    ensures IndexFrom(s, b, from) < 0 ==> IndexFrom(s + t, b, from) < 0 || IndexFrom(s + t, b, from) >= |s|
  {
    var k := IndexFrom(s, b, from);
    if k >= 0 {
      IndexFromIs(s + t, b, from, k);
    }
  }

  predicate OccursAt(s: bytes, pattern: bytes, k: int)
  {
    0 <= k <= |s| - |pattern| && s[k..k + |pattern|] == pattern
  }

  /** `bytes.LastIndex`: the last position at or before `from` where `pattern` occurs, or -1. */
  function LastIndexFrom(s: bytes, pattern: bytes, from: int): (r: int)
    requires -1 <= from
    ensures -1 <= r <= from
    ensures r >= 0 ==> OccursAt(s, pattern, r)
    ensures forall k :: r < k <= from ==> !OccursAt(s, pattern, k)
    decreases from
  {
    if from < 0 then -1
    else if OccursAt(s, pattern, from) then from
    else LastIndexFrom(s, pattern, from - 1)
  }

  function LastIndex(s: bytes, pattern: bytes): (r: int)
    ensures r >= 0 ==> OccursAt(s, pattern, r)
    ensures forall k :: r < k ==> !OccursAt(s, pattern, k)
  {
    LastIndexFrom(s, pattern, |s|)
  }

  /** `bytes.Split` on a one-byte separator. */
  function Split(s: bytes, separator: byte): (parts: seq<bytes>)
    ensures |parts| > 0
    decreases |s|
  {
    var k := IndexByte(s, separator);
    if k < 0 then [s] else [s[..k]] + Split(s[k + 1..], separator)
  }

  /** The parts, each followed by SOH. */
  function Terminated(parts: seq<bytes>): (s: bytes)
    ensures |parts| > 0 ==> |s| > 0 && s[|s| - 1] == SOH
    ensures |s| >= |parts|
  {
    if parts == [] then [] else parts[0] + [SOH] + Terminated(parts[1..])
  }

  lemma ConcatAssoc(a: bytes, b: bytes, c: bytes)
    ensures (a + b) + c == a + (b + c)
  {
  }

  lemma {:induction false} TerminatedConcat(a: seq<bytes>, b: seq<bytes>)
    ensures Terminated(a + b) == Terminated(a) + Terminated(b)
  {
    if a == [] {
      assert a + b == b;
    } else {
      TerminatedConcat(a[1..], b);
      assert (a + b)[1..] == a[1..] + b;
      ConcatAssoc(a[0] + [SOH], Terminated(a[1..]), Terminated(b));
    }
  }

  /** Splitting at SOH undoes terminating SOH-free parts. */
  lemma {:induction false} SplitTerminated(parts: seq<bytes>)
    requires |parts| > 0
    requires forall part :: part in parts ==> SOH !in part
    ensures var s := Terminated(parts); Split(s[..|s| - 1], SOH) == parts
  {
    var s := Terminated(parts);
    var head := parts[0];
    assert head in parts;
    if |parts| == 1 {
      assert parts[1..] == [];
      assert Terminated([]) == [];
      assert s[..|s| - 1] == head;
      assert IndexByte(head, SOH) == -1;
      assert Split(head, SOH) == [head];
      assert parts == [head];
    } else {
      var rest := Terminated(parts[1..]);
      SplitTerminated(parts[1..]);
      var t := s[..|s| - 1];
      assert t == head + [SOH] + rest[..|rest| - 1];
      assert t[..|head|] == head;
      IndexFromIs(t, SOH, 0, |head|);
      assert t[|head| + 1..] == rest[..|rest| - 1];
      assert parts == [head] + parts[1..];
    }
  }

  function Flatten(chunks: seq<bytes>): bytes
  {
    if chunks == [] then [] else chunks[0] + Flatten(chunks[1..])
  }

  // ------------------------------------------------------------ decimal text

  predicate IsDigit(b: byte) { ZERO <= b < ZERO + 10 }

  predicate AllDigits(s: bytes) { forall i :: 0 <= i < |s| ==> IsDigit(s[i]) }

  /** `%d` of a natural number. */
  function FormatNat(n: nat): (s: bytes)
    ensures |s| > 0 && AllDigits(s)
  {
    if n < 10 then [ZERO + n] else FormatNat(n / 10) + [ZERO + n % 10]
  }

  /** The number that a run of digits denotes. */
  function ParseNat(s: bytes): (r: Option<nat>)
  {
    if s == [] then Some(0)
    else if !IsDigit(s[|s| - 1]) then None
    else
      match ParseNat(s[..|s| - 1])
      case None => None
      case Some(n) => Some(10 * n + (s[|s| - 1] - ZERO))
  }

  /** `strconv.Atoi` (and `ParseInt` in base 10): an optional sign, then at least one digit,
      within the 64-bit range. */
  function Atoi(s: bytes): (r: Option<GoInt>)
  {
    var signed := |s| > 0 && (s[0] == 43 || s[0] == 45);
    var digits := if signed then s[1..] else s;
    if digits == [] then None
    else
      match ParseNat(digits)
      case None => None
      case Some(n) =>
        var v: int := if signed && s[0] == 45 then 0 - n else n;
        if -INT_LIMIT <= v < INT_LIMIT then Some(v) else None
  }

  lemma {:induction false} ParseNatOfFormat(n: nat)
    ensures ParseNat(FormatNat(n)) == Some(n)
  {
    var s := FormatNat(n);
    if n < 10 {
      assert s[..0] == [];
    } else {
      ParseNatOfFormat(n / 10);
      assert s[..|s| - 1] == FormatNat(n / 10);
    }
  }

  /** Printing and parsing a 64-bit natural number are inverse. */
  lemma AtoiOfFormat(n: nat)
    requires n < INT_LIMIT
    ensures Atoi(FormatNat(n)) == Some(n)
  {
    ParseNatOfFormat(n);
    var s := FormatNat(n);
    assert IsDigit(s[0]);
  }

  /** A sign is read as such, and a number outside the 64-bit range not at all. */
  lemma AtoiSigned(n: nat)
    ensures Atoi([45] + FormatNat(n)) == if n <= 0x8000_0000_0000_0000 then Some(0 - n) else None
    ensures Atoi([43] + FormatNat(n)) == if n < 0x8000_0000_0000_0000 then Some(n) else None
    ensures n >= 0x8000_0000_0000_0000 ==> Atoi(FormatNat(n)) == None
  {
    ParseNatOfFormat(n);
    var s := FormatNat(n);
    assert IsDigit(s[0]);
    assert ([45] + s)[1..] == s && ([43] + s)[1..] == s;
  }

  /** `%03d` of a number below 1000. */
  function Pad3(n: nat): (s: bytes)
    requires n < 1000
    ensures |s| == 3 && AllDigits(s)
  {
    [ZERO + n / 100, ZERO + n / 10 % 10, ZERO + n % 10]
  }

  lemma AtoiOfPad3(n: nat)
    requires n < 1000
    ensures Atoi(Pad3(n)) == Some(n)
  {
    var s := Pad3(n);
    assert IsDigit(s[0]);
    assert s[..2] == [s[0], s[1]];
    assert s[..2][..1] == [s[0]];
    assert s[..2][..1][..0] == [];
    assert ParseNat(s[..2][..1]) == Some(n / 100);
    assert ParseNat(s[..2]) == Some(10 * (n / 100) + n / 10 % 10);
  }
}
