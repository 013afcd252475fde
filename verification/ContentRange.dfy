/** The Content-Range header (section 14.4 of RFC 9110), printed and read. */
module ContentRange {
  import opened Basics
  import opened Text
  import opened Accounting

  datatype Range = Range(start: int, end: int, total: int)

  /** What the client sends with the bytes from offset on. */
  function Print(offset: nat, length: nat, size: nat): string
    requires length > 0
  {
    "bytes " + Decimal(offset) + "-" + Decimal(offset + length - 1) + "/" + Decimal(size)
  }

  // ---------------------------------------------------------------- library calls

  /** strings.Split by one character. */
  function Split(s: string, c: char): (parts: seq<string>)
    ensures parts != []
  {
    if s == "" then [""]
    else if s[0] == c then [""] + Split(s[1..], c)
    else
      var rest := Split(s[1..], c);
      [[s[0]] + rest[0]] + rest[1..]
  }

  /** strconv.ParseInt in base 10 for 64 bits; None stands for its errors. */
  function ParseInt(s: string): Option<int> {
    var signed := s != "" && (s[0] == '+' || s[0] == '-');
    var digits := if signed then s[1..] else s;
    if digits == "" || !AllDigits(digits) then None
    else
      var v: int := if signed && s[0] == '-' then 0 - Value(digits) else Value(digits);
      if -MAX_INT64 - 1 <= v <= MAX_INT64 then Some(v) else None
  }

  const PREFIX := "bytes "

  /** parseContentRange */
  function Parse(header: string): Option<Range> {
    var value := TrimSpace(header);
    if !(PREFIX <= value) then None else
    var parts := Split(value[|PREFIX|..], '/');
    if |parts| != 2 || parts[1] == "*" then None else
    var ends := Split(parts[0], '-');
    if |ends| != 2 then None else
    var start, end, total := ParseInt(ends[0]), ParseInt(ends[1]), ParseInt(parts[1]);
    if start.None? || end.None? || total.None? then None
    else if start.value < 0 || end.value < start.value || total.value <= end.value then None
    else Some(Range(start.value, end.value, total.value))
  }

  // ---------------------------------------------------------------- the grammar

  /** A digit string, optionally behind a plus sign. */
  predicate Numeral(s: string) {
    var digits := if s != "" && s[0] == '+' then s[1..] else s;
    digits != "" && AllDigits(digits)
  }

  function NumeralValue(s: string): nat
    requires Numeral(s)
  {
    if s[0] == '+' then Value(s[1..]) else Value(s)
  }

  /** The header reads "bytes x-y/z" with the values of r. */
  ghost predicate Spells(value: string, x: string, y: string, z: string, r: Range) {
    && value == PREFIX + (x + "-" + y) + "/" + z
    && Numeral(x) && Numeral(y) && Numeral(z)
    && r == Range(NumeralValue(x), NumeralValue(y), NumeralValue(z))
  }

  lemma {:induction false} SplitNone(s: string, c: char)
    requires c !in s
    ensures Split(s, c) == [s]
  {
    if s != "" {
      SplitNone(s[1..], c);
      assert s == [s[0]] + s[1..];
    }
  }

  lemma {:induction false} SplitOnce(a: string, c: char, b: string)
    requires c !in a && c !in b
    ensures Split(a + [c] + b, c) == [a, b]
  {
    if a == "" {
      SplitNone(b, c);
      assert (a + [c] + b)[1..] == b;
    } else {
      SplitOnce(a[1..], c, b);
      assert (a + [c] + b)[1..] == a[1..] + [c] + b;
      assert [a[0]] + a[1..] == a;
    }
  }

  lemma {:induction false} OnePart(s: string, c: char)
    requires |Split(s, c)| == 1
    ensures c !in s && Split(s, c) == [s]
  {
    if s != "" {
      OnePart(s[1..], c);
      assert s == [s[0]] + s[1..];
    }
  }

  lemma {:induction false} TwoParts(s: string, c: char)
    requires |Split(s, c)| == 2
    ensures
      var parts := Split(s, c);
      s == parts[0] + [c] + parts[1] && c !in parts[0] && c !in parts[1]
  {
    var parts := Split(s, c);
    if s[0] == c {
      OnePart(s[1..], c);
    } else {
      TwoParts(s[1..], c);
      var rest := Split(s[1..], c);
      assert s == [s[0]] + (rest[0] + [c] + rest[1]);
    }
  }

  lemma NumeralChars(s: string, c: char)
    requires Numeral(s) && c in s
    ensures c == '+' || IsDigit(c)
  {
    if s[0] == '+' {
      assert c == '+' || c in s[1..];
    }
  }

  /** Of the signed numbers, those without a minus sign. */
  lemma ParseIntIff(s: string)
    requires '-' !in s
    ensures ParseInt(s).Some? <==> Numeral(s) && NumeralValue(s) <= MAX_INT64
    ensures ParseInt(s).Some? ==> ParseInt(s).value == NumeralValue(s)
  {}

  lemma PositiveHasNoMinus(s: string)
    requires ParseInt(s).Some? && ParseInt(s).value > 0
    ensures '-' !in s
  {
    if s[0] == '+' {
      assert s == ['+'] + s[1..];
    }
  }

  /** The gateway accepts exactly the headers of this form: nothing between the parts, no
      sign but plus, every number within 64 bits, and the range inside the total. */
  lemma ParseIff(header: string, r: Range)
    ensures Parse(header) == Some(r)
            <==> && 0 <= r.start <= r.end < r.total <= MAX_INT64
                 && exists x, y, z :: Spells(TrimSpace(header), x, y, z, r)
  {
    if Parse(header) == Some(r) {
      AcceptedSpells(header, r);
    }
    if x, y, z :| 0 <= r.start <= r.end < r.total <= MAX_INT64 && Spells(TrimSpace(header), x, y, z, r) {
      SpelledParses(header, x, y, z, r);
    }
  }

  lemma AcceptedSpells(header: string, r: Range)
    requires Parse(header) == Some(r)
    ensures 0 <= r.start <= r.end < r.total <= MAX_INT64
    ensures exists x, y, z :: Spells(TrimSpace(header), x, y, z, r)
  {
    var value := TrimSpace(header);
    var rest := value[|PREFIX|..];
    var parts := Split(rest, '/');
    var ends := Split(parts[0], '-');
    TwoParts(rest, '/');
    TwoParts(parts[0], '-');
    ParseIntIff(ends[0]);
    ParseIntIff(ends[1]);
    PositiveHasNoMinus(parts[1]);
    ParseIntIff(parts[1]);
    assert value == PREFIX + rest;
    assert value == PREFIX + (ends[0] + "-" + ends[1]) + "/" + parts[1];
    assert Spells(value, ends[0], ends[1], parts[1], r);
  }

  lemma SpelledParses(header: string, x: string, y: string, z: string, r: Range)
    requires 0 <= r.start <= r.end < r.total <= MAX_INT64 && Spells(TrimSpace(header), x, y, z, r)
    ensures Parse(header) == Some(r)
  {
    NoSeparators(x);
    NoSeparators(y);
    NoSeparators(z);
    var value, front := TrimSpace(header), x + "-" + y;
    assert value[|PREFIX|..] == front + "/" + z;
    SplitOnce(front, '/', z);
    SplitOnce(x, '-', y);
    ParseIntIff(x);
    ParseIntIff(y);
    ParseIntIff(z);
  }

  lemma NoSeparators(s: string)
    requires Numeral(s)
    ensures '-' !in s && '/' !in s && '*' !in s
  {
    if '-' in s { NumeralChars(s, '-'); }
    if '/' in s { NumeralChars(s, '/'); }
    if '*' in s { NumeralChars(s, '*'); }
  }

  // ---------------------------------------------------------------- the round trip

  lemma DecimalIsNumeral(n: nat)
    ensures Numeral(Decimal(n)) && NumeralValue(Decimal(n)) == n
  {
    ValueOfDecimal(n);
    assert IsDigit(Decimal(n)[0]);
  }

  /** What the client prints is never trimmed. */
  lemma PrintIsTrimmed(offset: nat, length: nat, size: nat)
    requires length > 0
    ensures TrimSpace(Print(offset, length, size)) == Print(offset, length, size)
  {
    var s, d := Print(offset, length, size), Decimal(size);
    assert s[0] == 'b' && s[|s| - 1] == d[|d| - 1] && IsDigit(d[|d| - 1]);
    TrimFixed(s);
  }

  /** The gateway reads the offsets the client meant exactly when they fit 64 bits and the
      chunk lies inside the file. */
  lemma RoundTripIff(offset: nat, length: nat, size: nat)
    requires length > 0
    ensures Parse(Print(offset, length, size)) == Some(Range(offset, offset + length - 1, size))
            <==> offset + length <= size <= MAX_INT64
  {
    var r := Range(offset, offset + length - 1, size);
    PrintIsTrimmed(offset, length, size);
    DecimalIsNumeral(offset);
    DecimalIsNumeral(offset + length - 1);
    DecimalIsNumeral(size);
    assert Spells(Print(offset, length, size), Decimal(offset), Decimal(offset + length - 1), Decimal(size), r);
    ParseIff(Print(offset, length, size), r);
  }

  /** The section's grammar has digits only; the gateway also takes plus signs. */
  lemma AcceptsPlusSigns()
    ensures Parse("bytes +0-+4/+5") == Some(Range(0, 4, 5))
  {
    var header, r := "bytes +0-+4/+5", Range(0, 4, 5);
    TrimFixed(header);
    assert Value("0") == 0 && Value("4") == 4 && Value("5") == 5;
    assert header == PREFIX + ("+0" + "-" + "+4") + "/" + "+5";
    assert Spells(header, "+0", "+4", "+5", r);
    ParseIff(header, r);
  }
}
