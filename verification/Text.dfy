/** String helpers with the meaning of the Go library calls the store relies on,
    restricted to ASCII. */
module Text {
  predicate IsSpace(c: char) {
    c == ' ' || c == '\t' || c == '\n' || c == '\r' || c == 11 as char || c == 12 as char
  }

  function TrimLeft(s: string): string {
    if s != "" && IsSpace(s[0]) then TrimLeft(s[1..]) else s
  }

  function TrimRight(s: string): string {
    if s != "" && IsSpace(s[|s| - 1]) then TrimRight(s[..|s| - 1]) else s
  }

  lemma {:induction false} TrimLeftIs(s: string)
    ensures var t := TrimLeft(s); |t| <= |s| && t == s[|s| - |t|..] && (t != "" ==> !IsSpace(t[0]))
    ensures forall i | 0 <= i < |s| - |TrimLeft(s)| :: IsSpace(s[i])
  {
    var t := TrimLeft(s);
    if s != "" && IsSpace(s[0]) {
      var rest := s[1..];
      TrimLeftIs(rest);
      assert t == TrimLeft(rest);
      assert rest[|rest| - |t|..] == s[|s| - |t|..];
      forall i | 0 <= i < |s| - |t| ensures IsSpace(s[i]) {
        assert i == 0 || s[i] == rest[i - 1];
      }
    } else {
      assert t == s;
    }
  }

  lemma {:induction false} TrimRightIs(s: string)
    ensures var t := TrimRight(s); |t| <= |s| && t == s[..|t|] && (t != "" ==> !IsSpace(t[|t| - 1]))
    ensures forall i | |TrimRight(s)| <= i < |s| :: IsSpace(s[i])
  {
    var t := TrimRight(s);
    if s != "" && IsSpace(s[|s| - 1]) {
      var rest := s[..|s| - 1];
      TrimRightIs(rest);
      assert t == TrimRight(rest);
      assert rest[..|t|] == s[..|t|];
    } else {
      assert t == s;
    }
  }

  /** strings.TrimSpace */
  function TrimSpace(s: string): (t: string) {
    TrimRight(TrimLeft(s))
  }

  /** A string that neither starts nor ends with white space is left alone. */
  lemma TrimFixed(s: string)
    requires s != "" ==> !IsSpace(s[0]) && !IsSpace(s[|s| - 1])
    ensures TrimSpace(s) == s
  {}

  lemma TrimIdempotent(s: string)
    ensures TrimSpace(TrimSpace(s)) == TrimSpace(s)
  {
    var l := TrimLeft(s);
    var t := TrimRight(l);
    TrimLeftIs(s);
    TrimRightIs(l);
    if t != "" {
      assert t[0] == l[0];
    }
    TrimFixed(t);
  }

  function LowerChar(c: char): char {
    if 'A' <= c <= 'Z' then c - 'A' + 'a' else c
  }

  /** strings.ToLower */
  function Lower(s: string): (t: string)
    ensures |t| == |s| && forall i | 0 <= i < |s| :: t[i] == LowerChar(s[i])
  {
    if s == "" then "" else [LowerChar(s[0])] + Lower(s[1..])
  }

  /** strings.EqualFold */
  predicate EqualFold(a: string, b: string)
    decreases a
  {
    if a == "" || b == "" then a == b
    else LowerChar(a[0]) == LowerChar(b[0]) && EqualFold(a[1..], b[1..])
  }

  /** Equal but for the case of letters. */
  lemma {:induction false} EqualFoldIff(a: string, b: string)
    ensures EqualFold(a, b) <==> |a| == |b| && forall i | 0 <= i < |a| :: LowerChar(a[i]) == LowerChar(b[i])
    decreases a
  {
    if a != "" && b != "" {
      EqualFoldIff(a[1..], b[1..]);
      assert a == [a[0]] + a[1..] && b == [b[0]] + b[1..];
    }
  }

  lemma {:induction false} EqualFoldIsEquivalence(a: string, b: string, c: string)
    ensures EqualFold(a, a)
    ensures EqualFold(a, b) ==> EqualFold(b, a)
    ensures EqualFold(a, b) && EqualFold(b, c) ==> EqualFold(a, c)
  {
    if a != "" {
      EqualFoldIsEquivalence(a[1..], if b == "" then "" else b[1..], if c == "" then "" else c[1..]);
    }
  }

  predicate IsHexDigit(c: char) {
    '0' <= c <= '9' || 'a' <= c <= 'f' || 'A' <= c <= 'F'
  }

  predicate AllHex(s: string) {
    s == "" || (IsHexDigit(s[0]) && AllHex(s[1..]))
  }

  lemma {:induction false} AllHexIff(s: string)
    ensures AllHex(s) <==> forall i | 0 <= i < |s| :: IsHexDigit(s[i])
  {
    if s != "" {
      AllHexIff(s[1..]);
      assert s == [s[0]] + s[1..];
    }
  }

  /** The shape test of a SHA-256 hex string. */
  predicate IsSha256(s: string) {
    |s| == 64 && AllHex(s)
  }

  lemma {:induction false} HexHasNoSpace(s: string, i: nat)
    requires AllHex(s) && i < |s|
    ensures !IsSpace(s[i])
  {
    if i > 0 {
      HexHasNoSpace(s[1..], i - 1);
    }
  }

  lemma Sha256IsTrimmed(s: string)
    requires IsSha256(s)
    ensures TrimSpace(s) == s
  {
    HexHasNoSpace(s, 0);
    HexHasNoSpace(s, |s| - 1);
    TrimFixed(s);
  }

  predicate IsDigit(c: char) {
    '0' <= c <= '9'
  }

  function DigitChar(d: nat): (c: char)
    requires d < 10
    ensures IsDigit(c) && DigitValue(c) == d
  {
    '0' + d as char
  }

  function DigitValue(c: char): nat
    requires IsDigit(c)
  {
    c as int - '0' as int
  }

  predicate AllDigits(s: string) {
    forall c | c in s :: IsDigit(c)
  }

  /** Decimal printing, as strconv.Itoa and Python's str.format do it. */
  function Decimal(n: nat): (s: string)
    ensures s != "" && AllDigits(s)
  {
    if n < 10 then [DigitChar(n)] else Decimal(n / 10) + [DigitChar(n % 10)]
  }

  /** The number a digit string denotes. */
  function Value(s: string): nat
    requires AllDigits(s)
  {
    if s == "" then 0 else Value(s[..|s| - 1]) * 10 + DigitValue(s[|s| - 1])
  }

  lemma {:induction false} ValueOfDecimal(n: nat)
    ensures Value(Decimal(n)) == n
  {
    if n >= 10 {
      ValueOfDecimal(n / 10);
      assert Decimal(n)[..|Decimal(n)| - 1] == Decimal(n / 10);
    } else {
      assert Decimal(n)[..0] == "";
    }
  }
}
