/** Text routines on identifiers. */
module Text {

  /** The white space that `strings.TrimSpace` removes. */
  predicate IsSpace(c: char)
  {
    || '\t' <= c <= '\r'
    || '\U{2000}' <= c <= '\U{200A}'
    || c in {' ', '\U{85}', '\U{A0}', '\U{1680}', '\U{2028}', '\U{2029}', '\U{202F}', '\U{205F}', '\U{3000}'}
  }

  function TrimLeft(s: string): string { if s != "" && IsSpace(s[0]) then TrimLeft(s[1..]) else s }

  function TrimRight(s: string): string { if s != "" && IsSpace(s[|s| - 1]) then TrimRight(s[..|s| - 1]) else s }

  function Trim(s: string): string { TrimRight(TrimLeft(s)) }

  predicate Blank(s: string) { Trim(s) == "" }

  predicate AllSpace(s: string) { forall i :: 0 <= i < |s| ==> IsSpace(s[i]) }

  /** Trimming takes white space off both ends and leaves none there. */
  lemma TrimExactly(s: string) returns (left: string, right: string)
    ensures s == left + Trim(s) + right && AllSpace(left) && AllSpace(right)
    ensures Trim(s) != "" ==> !IsSpace(Trim(s)[0]) && !IsSpace(Trim(s)[|Trim(s)| - 1])
  {
    left := TrimLeftExactly(s);
    right := TrimRightExactly(TrimLeft(s));
    assert s == left + TrimLeft(s) == left + (Trim(s) + right);
  }

  lemma {:induction false} TrimLeftExactly(s: string) returns (left: string)
    ensures s == left + TrimLeft(s) && AllSpace(left) && (TrimLeft(s) != "" ==> !IsSpace(TrimLeft(s)[0]))
  {
    left := "";
    if s != "" && IsSpace(s[0]) {
      left := TrimLeftExactly(s[1..]);
      assert s == [s[0]] + s[1..] == ([s[0]] + left) + TrimLeft(s);
      left := [s[0]] + left;
    }
  }

  lemma {:induction false} TrimRightExactly(s: string) returns (right: string)
    ensures s == TrimRight(s) + right && AllSpace(right) && (TrimRight(s) != "" ==> !IsSpace(TrimRight(s)[|TrimRight(s)| - 1]))
    ensures TrimRight(s) != "" ==> TrimRight(s)[0] == s[0]
  {
    right := "";
    if s != "" && IsSpace(s[|s| - 1]) {
      right := TrimRightExactly(s[..|s| - 1]);
      assert s == s[..|s| - 1] + [s[|s| - 1]] == TrimRight(s) + (right + [s[|s| - 1]]);
      right := right + [s[|s| - 1]];
    }
  }

  /** Characters that `url.QueryEscape` leaves alone. */
  predicate Unreserved(c: char)
  {
    'a' <= c <= 'z' || 'A' <= c <= 'Z' || '0' <= c <= '9' || c in {'-', '_', '.', '~'}
  }

  const HEX_DIGITS := "0123456789ABCDEF"

  function EscapeChar(c: char): string
  {
    if Unreserved(c) then [c]
    else if c == ' ' then "+"
    else ['%', HEX_DIGITS[c as int / 16 % 16], HEX_DIGITS[c as int % 16]]
  }

  /** `url.QueryEscape` of text in one-byte characters. */
  function Escape(s: string): string { if s == "" then "" else EscapeChar(s[0]) + Escape(s[1..]) }

  /** Trimmed and escaped parts between bars. */
  function JoinKey(parts: seq<string>): string
  {
    if parts == [] then ""
    else Escape(Trim(parts[0])) + if |parts| == 1 then "" else "|" + JoinKey(parts[1..])
  }
}
