/** Storage keys of orders and executions tell accounts, namespaces and identifiers apart. */
module OrderKeys {
  import opened Text
  import opened OrderState

  // ------------------------------------------------------------------------ escaping

  predicate OneByte(s: string) { forall i :: 0 <= i < |s| ==> s[i] as int < 256 }

  lemma HexDistinct(i: nat, j: nat)
    requires i < 16 && j < 16 && HEX_DIGITS[i] == HEX_DIGITS[j]
    ensures i == j
  {
    assert HexValue(HEX_DIGITS[i]) == i && HexValue(HEX_DIGITS[j]) == j;
  }

  function HexValue(c: char): int { if '0' <= c <= '9' then c as int - '0' as int else c as int - 'A' as int + 10 }

  predicate Hexed(c: char) { !Unreserved(c) && c != ' ' }

  /** The first character of an escape says which kind of character was escaped. */
  lemma EscapeKind(c: char)
    ensures EscapeChar(c)[0] == '%' <==> Hexed(c)
    ensures EscapeChar(c)[0] == '+' <==> c == ' '
    ensures !Hexed(c) && c != ' ' ==> EscapeChar(c) == [c]
    ensures Hexed(c) ==> |EscapeChar(c)| == 3
  {
  }

  lemma HexedDistinct(c: char, d: char)
    requires Hexed(c) && Hexed(d) && c as int < 256 && d as int < 256 && EscapeChar(c) == EscapeChar(d)
    ensures c == d
  {
    var e, f := EscapeChar(c), EscapeChar(d);
    assert e[1] == f[1] && e[2] == f[2];
    HexDistinct(c as int / 16 % 16, d as int / 16 % 16);
    HexDistinct(c as int % 16, d as int % 16);
    NibblesDetermine(c as int, d as int);
  }

  lemma NibblesDetermine(x: nat, y: nat)
    requires x < 256 && y < 256 && x / 16 % 16 == y / 16 % 16 && x % 16 == y % 16
    ensures x == y
  {
    assert x == 16 * (x / 16) + x % 16 && y == 16 * (y / 16) + y % 16;
  }

  lemma SameHead(e: string, x: string, f: string, y: string)
    requires |e| == |f| && e + x == f + y
    ensures e == f && x == y
  {
    assert e == (e + x)[..|e|] && f == (f + y)[..|f|] && x == (e + x)[|e|..] && y == (f + y)[|f|..];
  }

  lemma EscapeCharDistinct(c: char, d: char, x: string, y: string)
    requires c as int < 256 && d as int < 256 && EscapeChar(c) + x == EscapeChar(d) + y
    ensures c == d && x == y
  {
    EscapeKind(c);
    EscapeKind(d);
    assert (EscapeChar(c) + x)[0] == EscapeChar(c)[0] && (EscapeChar(d) + y)[0] == EscapeChar(d)[0];
    SameHead(EscapeChar(c), x, EscapeChar(d), y);
    if Hexed(c) { HexedDistinct(c, d); }
  }

  lemma {:induction false} EscapeDistinct(s: string, t: string)
    requires OneByte(s) && OneByte(t)
    ensures Escape(s) == Escape(t) <==> s == t
  {
    if s != "" && t != "" && Escape(s) == Escape(t) {
      EscapeCharDistinct(s[0], t[0], Escape(s[1..]), Escape(t[1..]));
      EscapeDistinct(s[1..], t[1..]);
      assert s == [s[0]] + s[1..] && t == [t[0]] + t[1..];
    }
  }

  /** What an escape is made of: no bar and no white space, and one byte per character. */
  predicate Clean(c: char) { c != '|' && !IsSpace(c) && c as int < 128 }

  predicate AllClean(s: string) { forall i :: 0 <= i < |s| ==> Clean(s[i]) }

  lemma {:induction false} EscapeClean(s: string)
    ensures AllClean(Escape(s))
  {
    if s != "" {
      EscapeClean(s[1..]);
      EscapeCharClean(s[0]);
    }
  }

  lemma EscapeCharClean(c: char)
    ensures AllClean(EscapeChar(c))
  {
    HexClean(c as int / 16 % 16);
    HexClean(c as int % 16);
  }

  lemma HexClean(i: nat)
    requires i < 16
    ensures Clean(HEX_DIGITS[i])
  {
  }

  // ------------------------------------------------------------------------- joining

  lemma BarSplits(a: string, r: string, b: string, r': string)
    requires AllClean(a) && AllClean(b) && a + ("|" + r) == b + ("|" + r')
    ensures a == b && r == r'
  {
    var k := a + ("|" + r);
    assert forall i :: 0 <= i < |a| ==> k[i] == a[i];
    assert forall i :: 0 <= i < |b| ==> k[i] == b[i];
    assert k[|a|] == '|' && k[|b|] == '|';
    assert |a| == |b|;
    assert a == k[..|a|] && b == k[..|b|] && r == k[|a| + 1..] && r' == k[|b| + 1..];
  }

  ghost predicate SameParts(p: seq<string>, q: seq<string>)
  {
    |p| == |q| && forall i :: 0 <= i < |p| ==> Trim(p[i]) == Trim(q[i])
  }

  ghost predicate PlainParts(p: seq<string>) { forall i :: 0 <= i < |p| ==> OneByte(Trim(p[i])) }

  /** Joined keys of equally many parts agree exactly when the trimmed parts do: no delimiter in a part can confuse them. */
  lemma {:induction false} JoinedDistinguish(p: seq<string>, q: seq<string>)
    requires |p| == |q| && PlainParts(p) && PlainParts(q)
    ensures JoinKey(p) == JoinKey(q) <==> SameParts(p, q)
  {
    if p != [] {
      EscapeDistinct(Trim(p[0]), Trim(q[0]));
      PartsTail(p, q);
      if |p| == 1 {
        assert JoinKey(p) == Escape(Trim(p[0])) && JoinKey(q) == Escape(Trim(q[0]));
        assert SameParts(p[1..], q[1..]);
      } else {
        assert PlainParts(p[1..]) && PlainParts(q[1..]);
        JoinedDistinguish(p[1..], q[1..]);
        JoinedHeads(p, q);
      }
    }
  }

  lemma JoinedHeads(p: seq<string>, q: seq<string>)
    requires |p| > 1 && |q| > 1
    ensures JoinKey(p) == JoinKey(q) <==> Escape(Trim(p[0])) == Escape(Trim(q[0])) && JoinKey(p[1..]) == JoinKey(q[1..])
  {
    EscapeClean(Trim(p[0]));
    EscapeClean(Trim(q[0]));
    if JoinKey(p) == JoinKey(q) { BarSplits(Escape(Trim(p[0])), JoinKey(p[1..]), Escape(Trim(q[0])), JoinKey(q[1..])); }
  }

  lemma PartsTail(p: seq<string>, q: seq<string>)
    requires |p| == |q| > 0
    ensures SameParts(p, q) <==> Trim(p[0]) == Trim(q[0]) && SameParts(p[1..], q[1..])
  {
    if SameParts(p[1..], q[1..]) && Trim(p[0]) == Trim(q[0]) {
      forall i | 0 <= i < |p| ensures Trim(p[i]) == Trim(q[i]) { if i > 0 { assert p[i] == p[1..][i - 1] && q[i] == q[1..][i - 1]; } }
    }
  }

  predicate Solid(s: string) { forall i :: 0 <= i < |s| ==> !IsSpace(s[i]) && s[i] as int < 128 }

  lemma SolidConcat(a: string, b: string)
    requires Solid(a) && Solid(b)
    ensures Solid(a + b)
  {
  }

  /** A joined key has no white space to trim. */
  lemma {:induction false} JoinedSolid(p: seq<string>)
    ensures Solid(JoinKey(p))
  {
    if p != [] {
      EscapeClean(Trim(p[0]));
      JoinedSolid(p[1..]);
      SolidConcat("|", JoinKey(p[1..]));
      SolidConcat(Escape(Trim(p[0])), if |p| == 1 then "" else "|" + JoinKey(p[1..]));
    }
  }

  lemma SolidTrimmed(s: string)
    requires Solid(s)
    ensures Trim(s) == s && OneByte(s)
  {
  }

  // ---------------------------------------------------------------------- storage keys

  /** Outside the default account, the keys of two orders or executions agree exactly when venue, environment, account
      alias, namespace and identifier do, up to surrounding white space. */
  lemma StorageKeysDistinguish(a: Account, namespace: string, id: string, b: Account, namespace': string, id': string)
    requires Normalized(a) != DEFAULT_ACCOUNT && Normalized(b) != DEFAULT_ACCOUNT
    requires PlainParts([Normalized(a).venue, Normalized(a).environment, Normalized(a).alias])
    requires PlainParts([Normalized(b).venue, Normalized(b).environment, Normalized(b).alias])
    requires PlainParts([namespace, id]) && PlainParts([namespace', id'])
    ensures StorageKey(a, namespace, id) == StorageKey(b, namespace', id')
       <==> && Trim(Normalized(a).venue) == Trim(Normalized(b).venue) && Trim(Normalized(a).environment) == Trim(Normalized(b).environment)
            && Trim(Normalized(a).alias) == Trim(Normalized(b).alias) && Trim(namespace) == Trim(namespace') && Trim(id) == Trim(id')
  {
    var x, y := Normalized(a), Normalized(b);
    var p, q := [x.venue, x.environment, x.alias], [y.venue, y.environment, y.alias];
    JoinedDistinguish(p, q);
    JoinedSolid(p);
    JoinedSolid(q);
    SolidTrimmed(JoinKey(p));
    SolidTrimmed(JoinKey(q));
    OuterDistinguish(JoinKey(p), namespace, id, JoinKey(q), namespace', id');
    assert SameParts(p, q) <==> Trim(p[0]) == Trim(q[0]) && Trim(p[1]) == Trim(q[1]) && Trim(p[2]) == Trim(q[2]);
  }

  lemma OuterDistinguish(a: string, namespace: string, id: string, b: string, namespace': string, id': string)
    requires OneByte(a) && OneByte(b) && Trim(a) == a && Trim(b) == b && PlainParts([namespace, id]) && PlainParts([namespace', id'])
    ensures JoinKey([a, namespace, id]) == JoinKey([b, namespace', id']) <==> a == b && Trim(namespace) == Trim(namespace') && Trim(id) == Trim(id')
  {
    var p, q := [a, namespace, id], [b, namespace', id'];
    assert p[1..] == [namespace, id] && q[1..] == [namespace', id'];
    assert PlainParts(p) by { forall i | 0 <= i < 3 ensures OneByte(Trim(p[i])) { assert i > 0 ==> p[i] == [namespace, id][i - 1]; } }
    assert PlainParts(q) by { forall i | 0 <= i < 3 ensures OneByte(Trim(q[i])) { assert i > 0 ==> q[i] == [namespace', id'][i - 1]; } }
    JoinedDistinguish(p, q);
    assert SameParts(p, q) <==> Trim(p[0]) == Trim(q[0]) && Trim(p[1]) == Trim(q[1]) && Trim(p[2]) == Trim(q[2]);
  }

  /** In the default account the key is the identifier itself, so a link and a native ID of the same text share a key. */
  lemma DefaultKeys(namespace: string, id: string)
    ensures StorageKey(Account("", "", ""), namespace, id) == id && StorageKey(Account("bybit", "testnet", "bybit-test"), namespace, id) == id
  {
  }

  /** An order is kept under its link in the namespace client, or without one under its native ID in the namespace native;
      an execution under its ID in the namespace trade. */
  lemma NamespacesAre(account: Account, id: string, link: string, x: Execution)
    ensures link != "" ==> OrderKey(account, id, link) == StorageKey(account, "client", link)
    ensures link == "" && id != "" ==> OrderKey(account, id, link) == StorageKey(account, "native", id)
    ensures link == "" && id == "" ==> OrderKey(account, id, link) == ""
    ensures ExecutionKey(x) == StorageKey(x.account, "trade", x.executionId)
  {
  }
}
