/** Exact sums of plain decimal text, as the order-state reducer adds quantities. */
module DecimalText {
  import opened Bytes

  const DOT: byte := 46

  /** `units` counted in steps of ten to the power of minus `places`. */
  datatype Dec = Dec(units: nat, places: nat)

  function ReadDigits(digits: bytes, places: nat): Option<Dec>
  {
    if digits == [] then None
    else
      match ParseNat(digits)
      case None => None
      case Some(n) => Some(Dec(n, places))
  }

  /** Digits with at most one point among them; `places` counts the digits after it. */
  function ParseDecimal(s: bytes): Option<Dec>
  {
    var k := IndexByte(s, DOT);
    if k < 0 then ReadDigits(s, 0) else ReadDigits(s[..k] + s[k + 1..], |s| - k - 1)
  }

  /** The digits of `units`, with at least one before the last `places` of them. */
  function Shown(units: nat, places: nat): (s: bytes)
    ensures |s| > places && AllDigits(s)
  {
    if places == 0 then FormatNat(units) else Shown(units / 10, places - 1) + [ZERO + units % 10]
  }

  /** `FloatString` with as many places as the number has. */
  function FormatDecimal(d: Dec): bytes
  {
    var s := Shown(d.units, d.places);
    if d.places == 0 then s else s[..|s| - d.places] + [DOT] + s[|s| - d.places..]
  }

  lemma {:induction false} ParseShown(units: nat, places: nat)
    ensures ParseNat(Shown(units, places)) == Some(units)
  {
    if places == 0 {
      ParseNatOfFormat(units);
    } else {
      ParseShown(units / 10, places - 1);
      var s := Shown(units, places);
      assert s[..|s| - 1] == Shown(units / 10, places - 1);
    }
  }

  lemma DigitsHaveNoDot(s: bytes)
    requires AllDigits(s)
    ensures DOT !in s
  {
  }

  /** Printing and parsing a decimal are inverse, places included. */
  lemma ParseOfFormat(d: Dec)
    ensures ParseDecimal(FormatDecimal(d)) == Some(d)
  {
    var digits := Shown(d.units, d.places);
    ShownReads(d.units, d.places);
    if d.places == 0 { PlainParses(digits); } else { PointedParses(digits, |digits| - d.places); }
  }

  lemma ShownReads(units: nat, places: nat)
    ensures DOT !in Shown(units, places) && ReadDigits(Shown(units, places), places) == Some(Dec(units, places))
  {
    ParseShown(units, places);
    DigitsHaveNoDot(Shown(units, places));
  }

  lemma PlainParses(digits: bytes)
    requires DOT !in digits
    ensures ParseDecimal(digits) == ReadDigits(digits, 0)
  {
  }

  lemma PointedParses(digits: bytes, k: nat)
    requires DOT !in digits && k <= |digits|
    ensures ParseDecimal(digits[..k] + [DOT] + digits[k..]) == ReadDigits(digits, |digits| - k)
  {
    PointAt(digits, k);
  }

  /** A point among digits is found, and taking it out gives the digits back. */
  lemma PointAt(digits: bytes, k: nat)
    requires DOT !in digits && k <= |digits|
    ensures var s := digits[..k] + [DOT] + digits[k..];
            IndexByte(s, DOT) == k && s[..k] + s[k + 1..] == digits && |s| - k - 1 == |digits| - k
  {
    var s := digits[..k] + [DOT] + digits[k..];
    assert s[k] == DOT && forall i :: 0 <= i < k ==> s[i] == digits[i];
    IndexFromIs(s, DOT, 0, k);
  }

  // -------------------------------------------------------------------- arithmetic

  function Max(a: nat, b: nat): nat { if a >= b then a else b }

  /** `u` followed by `k` zeros. */
  function ScaleUp(u: nat, k: nat): nat
    decreases k
  {
    if k == 0 then u else ScaleUp(10 * u, k - 1)
  }

  /** The number in units of `places`. */
  function Scaled(d: Dec, places: nat): nat
    requires d.places <= places
  {
    ScaleUp(d.units, places - d.places)
  }

  function Add(l: Dec, r: Dec): Dec
  {
    var p := Max(l.places, r.places);
    Dec(Scaled(l, p) + Scaled(r, p), p)
  }

  predicate AtLeast(l: Dec, r: Dec)
  {
    var p := Max(l.places, r.places);
    Scaled(l, p) >= Scaled(r, p)
  }

  lemma {:induction false} ScaleTwice(u: nat, a: nat, b: nat)
    ensures ScaleUp(ScaleUp(u, a), b) == ScaleUp(u, a + b)
    decreases a
  {
    if a > 0 { ScaleTwice(10 * u, a - 1, b); }
  }

  lemma {:induction false} ScaleAdds(u: nat, w: nat, k: nat)
    ensures ScaleUp(u + w, k) == ScaleUp(u, k) + ScaleUp(w, k)
    decreases k
  {
    if k > 0 { ScaleAdds(10 * u, 10 * w, k - 1); }
  }

  lemma {:induction false} ScaleOrder(u: nat, w: nat, k: nat)
    ensures u >= w <==> ScaleUp(u, k) >= ScaleUp(w, k)
    decreases k
  {
    if k > 0 { ScaleOrder(10 * u, 10 * w, k - 1); }
  }

  lemma ScaledTwice(d: Dec, p: nat, q: nat)
    requires d.places <= p <= q
    ensures ScaleUp(Scaled(d, p), q - p) == Scaled(d, q)
  {
    ScaleTwice(d.units, p - d.places, q - p);
  }

  lemma ScaledAdd(l: Dec, r: Dec, q: nat)
    requires l.places <= q && r.places <= q
    ensures Add(l, r).places <= q && Scaled(Add(l, r), q) == Scaled(l, q) + Scaled(r, q)
  {
    var p := Max(l.places, r.places);
    ScaledTwice(l, p, q);
    ScaledTwice(r, p, q);
    ScaleAdds(Scaled(l, p), Scaled(r, p), q - p);
  }

  lemma ScaledSelf(d: Dec)
    ensures Scaled(d, d.places) == d.units
  {
  }

  /** Quantities may be added in either order. */
  lemma AddSwap(d: Dec, x: Dec, y: Dec)
    ensures Add(Add(d, x), y) == Add(Add(d, y), x)
  {
    var q := Max(Max(d.places, x.places), y.places);
    ScaledAdd(d, x, q);
    ScaledAdd(d, y, q);
    ScaledAdd(Add(d, x), y, q);
    ScaledAdd(Add(d, y), x, q);
    ScaledSelf(Add(Add(d, x), y));
    ScaledSelf(Add(Add(d, y), x));
  }

  lemma AtLeastScaled(l: Dec, r: Dec, q: nat)
    requires l.places <= q && r.places <= q
    ensures AtLeast(l, r) <==> Scaled(l, q) >= Scaled(r, q)
  {
    var p := Max(l.places, r.places);
    ScaledTwice(l, p, q);
    ScaledTwice(r, p, q);
    ScaleOrder(Scaled(l, p), Scaled(r, p), q - p);
  }

  /** A further fill never takes the total back below the ordered quantity. */
  lemma AddKeepsAtLeast(d: Dec, x: Dec, target: Dec)
    requires AtLeast(d, target)
    ensures AtLeast(Add(d, x), target)
  {
    var q := Max(Max(d.places, x.places), target.places);
    ScaledAdd(d, x, q);
    AtLeastScaled(d, target, q);
    AtLeastScaled(Add(d, x), target, q);
  }

  // ------------------------------------------------------------------------ on text

  /** An empty cumulative quantity counts as "0". */
  function Quantity(text: bytes): Option<Dec> { if text == [] then Some(Dec(0, 0)) else ParseDecimal(text) }

  function AddDecimal(left: bytes, right: bytes): Option<bytes>
  {
    match (Quantity(left), ParseDecimal(right))
    case (Some(l), Some(r)) => Some(FormatDecimal(Add(l, r)))
    case _ => None
  }

  /** `compareDecimal(left, right) >= 0`; malformed text never compares as reached. */
  predicate ReachesDecimal(left: bytes, right: bytes)
  {
    match (ParseDecimal(left), ParseDecimal(right))
    case (Some(l), Some(r)) => AtLeast(l, r)
    case _ => false
  }

  // ----------------------------------------------------------------- what text is worth

  function DigitValue(b: byte): real
    requires IsDigit(b)
  {
    (b - 48) as real
  }

  /** Digits before the point: each counts ten times what the next one counts. */
  function WholeValue(s: bytes): real
    requires AllDigits(s)
  {
    if s == [] then 0.0 else 10.0 * WholeValue(s[..|s| - 1]) + DigitValue(s[|s| - 1])
  }

  /** Digits after the point: each counts a tenth of what the one before counts. */
  function FractionValue(s: bytes): real
    requires AllDigits(s)
  {
    if s == [] then 0.0 else (DigitValue(s[0]) + FractionValue(s[1..])) / 10.0
  }

  /** `s` is `whole`, or `whole` and `fraction` with a point between, all of it digits and at least one. */
  ghost predicate IsDecimal(s: bytes, whole: bytes, fraction: bytes)
  {
    && AllDigits(whole) && AllDigits(fraction) && whole + fraction != []
    && (s == whole + [46] + fraction || (s == whole && fraction == []))
  }

  /** Text that denotes the number `v`, with `places` digits after the point. */
  ghost predicate Denotes(s: bytes, v: real, places: nat)
  {
    exists whole, fraction :: IsDecimal(s, whole, fraction) && v == WholeValue(whole) + FractionValue(fraction) && places == |fraction|
  }

  /** `u` with the point moved `n` places to the left. */
  function Shift(u: real, n: nat): real { if n == 0 then u else Shift(u, n - 1) / 10.0 }

  lemma {:induction false} ShiftAdds(u: real, w: real, n: nat)
    ensures Shift(u + w, n) == Shift(u, n) + Shift(w, n)
  {
    if n > 0 { ShiftAdds(u, w, n - 1); }
  }

  lemma {:induction false} ShiftOrder(u: real, w: real, n: nat)
    ensures u >= w <==> Shift(u, n) >= Shift(w, n)
  {
    if n > 0 { ShiftOrder(u, w, n - 1); }
  }

  lemma {:induction false} ShiftTen(u: real, n: nat)
    ensures Shift(10.0 * u, n + 1) == Shift(u, n)
  {
    if n > 0 { ShiftTen(u, n - 1); }
  }

  /** Leading digits come out of a shifted number whole. */
  lemma {:induction false} ShiftedConcat(a: bytes, b: bytes)
    requires AllDigits(a) && AllDigits(b)
    ensures AllDigits(a + b) && Shift(WholeValue(a + b), |b|) == WholeValue(a) + Shift(WholeValue(b), |b|)
  {
    if b == [] {
      assert a + b == a;
    } else {
      var init, last, n := b[..|b| - 1], DigitValue(b[|b| - 1]), |b| - 1;
      ShiftedConcat(a, init);
      assert (a + b)[..|a + b| - 1] == a + init;
      ShiftDigit(WholeValue(a + init), last, n);
      ShiftDigit(WholeValue(init), last, n);
    }
  }

  lemma ShiftDigit(x: real, d: real, n: nat)
    ensures Shift(10.0 * x + d, n + 1) == Shift(x, n) + Shift(d, n + 1)
  {
    ShiftAdds(10.0 * x, d, n + 1);
    ShiftTen(x, n);
  }

  /** A fraction is its digits, read as a number, with the point moved in front of them. */
  lemma {:induction false} FractionIsShifted(s: bytes)
    requires AllDigits(s)
    ensures FractionValue(s) == Shift(WholeValue(s), |s|)
  {
    if s != [] {
      FractionIsShifted(s[1..]);
      ShiftedConcat([s[0]], s[1..]);
      assert s == [s[0]] + s[1..] && [s[0]][..0] == [];
      assert WholeValue([s[0]]) == DigitValue(s[0]);
    }
  }

  /** The number of a decimal. */
  function DecValue(d: Dec): real { Shift(d.units as real, d.places) }

  lemma {:induction false} ParseNatDigits(s: bytes)
    ensures ParseNat(s).Some? <==> AllDigits(s)
  {
    if s != [] {
      ParseNatDigits(s[..|s| - 1]);
      if ParseNat(s).Some? { assert AllDigits(s[..|s| - 1]) && IsDigit(s[|s| - 1]); }
    }
  }

  lemma {:induction false} ParseNatIs(s: bytes)
    requires ParseNat(s).Some?
    ensures AllDigits(s) && ParseNat(s).value as real == WholeValue(s)
  {
    ParseNatDigits(s);
    if s != [] { ParseNatIs(s[..|s| - 1]); }
  }

  /** `ParseDecimal` reads exactly the texts that denote a number, and reads that number and its places. */
  lemma ParseDenotes(s: bytes)
    ensures match ParseDecimal(s)
            case Some(d) => Denotes(s, DecValue(d), d.places)
            case None => forall whole, fraction :: !IsDecimal(s, whole, fraction)
  {
    if ParseDecimal(s).Some? {
      ParsedDenotes(s, ParseDecimal(s).value);
    } else {
      forall w, f ensures !IsDecimal(s, w, f) { if IsDecimal(s, w, f) { DecimalSplit(s, w, f, IndexByte(s, DOT)); assert false; } }
    }
  }

  lemma ParsedDenotes(s: bytes, d: Dec)
    requires ParseDecimal(s) == Some(d)
    ensures Denotes(s, DecValue(d), d.places)
  {
    var whole, fraction := ParsedParts(s, d);
    ParsedNumber(whole, fraction, d);
  }

  lemma ParsedParts(s: bytes, d: Dec) returns (whole: bytes, fraction: bytes)
    requires ParseDecimal(s) == Some(d)
    ensures IsDecimal(s, whole, fraction) && d.places == |fraction| && ParseNat(whole + fraction) == Some(d.units)
  {
    var k := IndexByte(s, DOT);
    whole, fraction := if k < 0 then s else s[..k], if k < 0 then [] else s[k + 1..];
    assert k < 0 ==> whole + fraction == s;
    ParseNatDigits(whole + fraction);
    DigitParts(whole, fraction);
    assert k >= 0 ==> s == whole + [46] + fraction;
  }

  lemma ParsedNumber(whole: bytes, fraction: bytes, d: Dec)
    requires AllDigits(whole) && AllDigits(fraction) && d.places == |fraction| && ParseNat(whole + fraction) == Some(d.units)
    ensures DecValue(d) == WholeValue(whole) + FractionValue(fraction)
  {
    ParseNatIs(whole + fraction);
    DigitsDenote(whole, fraction, d);
  }

  lemma DigitParts(a: bytes, b: bytes)
    requires AllDigits(a + b)
    ensures AllDigits(a) && AllDigits(b)
  {
    forall i | 0 <= i < |a| ensures IsDigit(a[i]) { assert (a + b)[i] == a[i]; }
    forall i | 0 <= i < |b| ensures IsDigit(b[i]) { assert (a + b)[|a| + i] == b[i]; }
  }

  lemma DigitsDenote(whole: bytes, fraction: bytes, d: Dec)
    requires AllDigits(whole) && AllDigits(fraction) && AllDigits(whole + fraction)
    requires d.units as real == WholeValue(whole + fraction) && d.places == |fraction|
    ensures DecValue(d) == WholeValue(whole) + FractionValue(fraction)
  {
    ShiftedConcat(whole, fraction);
    FractionIsShifted(fraction);
  }

  /** The parts of a decimal text are found by its first point. */
  lemma DecimalSplit(s: bytes, whole: bytes, fraction: bytes, k: int)
    requires IsDecimal(s, whole, fraction) && k == IndexByte(s, DOT)
    ensures k < 0 ==> s == whole && fraction == []
    ensures k >= 0 ==> k < |s| && whole == s[..k] && fraction == s[k + 1..]
    ensures AllDigits(whole + fraction) && ParseDecimal(s).Some?
  {
    DigitsHaveNoDot(whole);
    DigitsHaveNoDot(fraction);
    if s == whole + [46] + fraction {
      assert s[|whole|] == DOT && forall i :: 0 <= i < |whole| ==> s[i] == whole[i];
      IndexFromIs(s, DOT, 0, |whole|);
    }
    assert whole + fraction == if k < 0 then s else s[..k] + s[k + 1..];
    ParseNatDigits(whole + fraction);
  }

  /** No text denotes two numbers. */
  lemma DenotesOnce(s: bytes, v: real, places: nat, v': real, places': nat)
    requires Denotes(s, v, places) && Denotes(s, v', places')
    ensures v == v' && places == places'
  {
    var w, f :| IsDecimal(s, w, f) && v == WholeValue(w) + FractionValue(f) && places == |f|;
    var w', f' :| IsDecimal(s, w', f') && v' == WholeValue(w') + FractionValue(f') && places' == |f'|;
    DecimalUnique(s, w, f, w', f');
  }

  lemma DecimalUnique(s: bytes, w: bytes, f: bytes, w': bytes, f': bytes)
    requires IsDecimal(s, w, f) && IsDecimal(s, w', f')
    ensures w == w' && f == f'
  {
    DecimalSplit(s, w, f, IndexByte(s, DOT));
    DecimalSplit(s, w', f', IndexByte(s, DOT));
  }

  lemma {:induction false} ShiftScaled(u: nat, n: nat, k: nat)
    ensures Shift(ScaleUp(u, k) as real, n + k) == Shift(u as real, n)
    decreases k
  {
    if k > 0 {
      ShiftScaled(10 * u, n + 1, k - 1);
      ShiftTen(u as real, n);
      assert (10 * u) as real == 10.0 * (u as real);
    }
  }

  lemma ScaledValue(d: Dec, p: nat)
    requires d.places <= p
    ensures Shift(Scaled(d, p) as real, p) == DecValue(d)
  {
    ShiftScaled(d.units, d.places, p - d.places);
  }

  lemma AddValue(l: Dec, r: Dec)
    ensures DecValue(Add(l, r)) == DecValue(l) + DecValue(r)
  {
    var p := Max(l.places, r.places);
    ScaledValue(l, p);
    ScaledValue(r, p);
    ShiftAdds(Scaled(l, p) as real, Scaled(r, p) as real, p);
  }

  lemma AtLeastValue(l: Dec, r: Dec)
    ensures AtLeast(l, r) <==> DecValue(l) >= DecValue(r)
  {
    var p := Max(l.places, r.places);
    ScaledValue(l, p);
    ScaledValue(r, p);
    ShiftOrder(Scaled(l, p) as real, Scaled(r, p) as real, p);
  }

  /** The sum of two decimal texts, an empty left one counting as zero, is a text that denotes the sum of their numbers,
      with as many places as the longer of the two. */
  lemma SumDenotes(left: bytes, right: bytes, l: real, r: real, p: nat, q: nat)
    requires (left == [] && l == 0.0 && p == 0) || Denotes(left, l, p)
    requires Denotes(right, r, q)
    ensures AddDecimal(left, right).Some? && Denotes(AddDecimal(left, right).value, l + r, if p >= q then p else q)
  {
    var dl := Read(left, l, p);
    var dr := Read(right, r, q);
    AddValue(dl, dr);
    FormattedDenotes(Add(dl, dr));
  }

  /** Printing gives text that denotes the number. */
  lemma FormattedDenotes(d: Dec)
    ensures Denotes(FormatDecimal(d), DecValue(d), d.places)
  {
    ParseOfFormat(d);
    ParseDenotes(FormatDecimal(d));
  }

  /** The decimal that a denoting text is read as. */
  lemma Read(s: bytes, v: real, places: nat) returns (d: Dec)
    requires (s == [] && v == 0.0 && places == 0) || Denotes(s, v, places)
    ensures Quantity(s) == Some(d) && DecValue(d) == v && d.places == places && (Denotes(s, v, places) ==> ParseDecimal(s) == Some(d) && s != [])
  {
    if Denotes(s, v, places) {
      ParseDenotes(s);
      var w, f :| IsDecimal(s, w, f) && v == WholeValue(w) + FractionValue(f) && places == |f|;
      d := ParseDecimal(s).value;
      DenotesOnce(s, v, places, DecValue(d), d.places);
    } else {
      d := Dec(0, 0);
    }
  }

  /** The comparison is that of the numbers, and text that denotes none never compares as reached. */
  lemma ReachesExactly(left: bytes, right: bytes)
    ensures ReachesDecimal(left, right)
       <==> exists l, r, p, q :: Denotes(left, l, p) && Denotes(right, r, q) && l >= r
  {
    ParseDenotes(left);
    ParseDenotes(right);
    if ReachesDecimal(left, right) {
      var dl, dr := ParseDecimal(left).value, ParseDecimal(right).value;
      AtLeastValue(dl, dr);
      assert Denotes(left, DecValue(dl), dl.places) && Denotes(right, DecValue(dr), dr.places);
    }
    if l, r, p, q :| Denotes(left, l, p) && Denotes(right, r, q) && l >= r {
      var dl := Read(left, l, p);
    var dr := Read(right, r, q);
      AtLeastValue(dl, dr);
    }
  }

  /** Printed text has no needless zero in front: one digit before the point, or a first digit that is not zero. */
  lemma FormatCanonical(d: Dec)
    ensures var s := FormatDecimal(d); |s| > 0 && (s[0] != 48 || |s| == 1 || s[1] == 46)
  {
    ShownCanonical(d.units, d.places);
  }

  lemma {:induction false} ShownCanonical(units: nat, places: nat)
    ensures Shown(units, places)[0] == 48 ==> |Shown(units, places)| == places + 1
  {
    if places == 0 { FormatNatCanonical(units); } else { ShownCanonical(units / 10, places - 1); }
  }

  lemma {:induction false} FormatNatCanonical(n: nat)
    ensures FormatNat(n)[0] == 48 ==> n == 0
  {
    if n >= 10 { FormatNatCanonical(n / 10); }
  }
}
