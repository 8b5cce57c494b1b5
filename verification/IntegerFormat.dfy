/** Integer formatting: `convert` and `ConvertHex`.

    The code peels digits off with a division that truncates toward zero, looks each one up in a
    table centred on '0' so that negative remainders work too, and reverses the text in place.
    The specification is written the other way round: most significant digit first. */
module IntegerFormat {

  const DIGITS: string := "9876543210123456789"
  const ZERO := 9
  const HEX_DIGITS: string := "FEDCBA9876543210123456789ABCDEF"
  const HEX_ZERO := 15
  const MAX_DECIMAL := 20
  const MAX_HEX := 16

  /** A value of one of the types the templates are instantiated with, signed or unsigned, up to 64 bits. */
  predicate Fits64(v: int) {
    -0x8000_0000_0000_0000 <= v < 0x1_0000_0000_0000_0000
  }

  function Abs(v: int): nat {
    if v < 0 then -v else v
  }

  // C++ division: the quotient is truncated toward zero, the remainder takes the dividend's sign.
  function TruncDiv(a: int, b: int): int
    requires b > 0
  {
    if a < 0 then -(-a / b) else a / b
  }

  function TruncMod(a: int, b: int): int
    requires b > 0
  {
    a - b * TruncDiv(a, b)
  }

  // ---------------------------------------------------------------- specification

  function DigitChar(d: nat): char
    requires d < 16
  {
    if d < 10 then '0' + d as char else 'A' + (d - 10) as char
  }

  /** The value of a digit; 16 for anything that is not one. */
  function DigitValue(c: char): nat {
    if '0' <= c <= '9' then c as nat - '0' as nat
    else if 'A' <= c <= 'F' then c as nat - 'A' as nat + 10
    else 16
  }

  /** The usual numeral of n, most significant digit first. */
  function Numeral(n: nat, base: nat): (s: string)
    requires 2 <= base <= 16
    ensures s != ""
  {
    if n < base then [DigitChar(n)] else Numeral(n / base, base) + [DigitChar(n % base)]
  }

  function Decimal(v: int): string {
    if v < 0 then "-" + Numeral(-v, 10) else Numeral(v, 10)
  }

  /** What a reader makes of a numeral. */
  function ParseNat(s: string, base: nat): nat {
    if s == "" then 0 else ParseNat(s[..|s|-1], base) * base + DigitValue(s[|s|-1])
  }

  function ParseInt(s: string): int {
    if s != "" && s[0] == '-' then -(ParseNat(s[1..], 10) as int) else ParseNat(s, 10)
  }

  /** Only digits of the base, at least one, and no leading zero unless the numeral is "0". */
  predicate Canonical(s: string, base: nat) {
    && s != ""
    && (forall i | 0 <= i < |s| :: DigitValue(s[i]) < base)
    && (|s| > 1 ==> s[0] != '0')
  }

  lemma DigitRoundTrip(d: nat)
    requires d < 16
    ensures DigitValue(DigitChar(d)) == d
    ensures DigitChar(d) == '0' <==> d == 0
  {
  }

  lemma ParsePush(s: string, c: char, base: nat)
    ensures ParseNat(s + [c], base) == ParseNat(s, base) * base + DigitValue(c)
  {
    assert (s + [c])[..|s|] == s;
  }

  lemma DivMod(n: nat, base: nat)
    requires base >= 2
    ensures n == (n / base) * base + n % base
    ensures n >= base ==> 1 <= n / base < n
  {
    if n >= base {
      MulMono(2, base, n / base);
    }
  }

  lemma MulMono(a: nat, b: nat, c: nat)
    requires a <= b
    ensures a * c <= b * c
  {
    assert (b - a) * c >= 0;
    assert (b - a) * c == b * c - a * c;
  }

  lemma {:induction false} NumeralRoundTrip(n: nat, base: nat)
    requires 2 <= base <= 16
    ensures ParseNat(Numeral(n, base), base) == n
    ensures Canonical(Numeral(n, base), base)
    ensures n > 0 ==> Numeral(n, base)[0] != '0'
  {
    DivMod(n, base);
    DigitRoundTrip(n % base);
    if n < base {
      ParsePush("", DigitChar(n), base);
      assert [] + [DigitChar(n)] == [DigitChar(n)];
    } else {
      NumeralRoundTrip(n / base, base);
      ParsePush(Numeral(n / base, base), DigitChar(n % base), base);
    }
  }

  lemma {:induction false} CanonicalIsNumeral(s: string, base: nat) returns (n: nat)
    requires 2 <= base <= 16 && Canonical(s, base)
    ensures s == Numeral(n, base)
    ensures s[0] != '0' ==> n >= 1
    decreases |s|
  {
    var init, d := s[..|s|-1], DigitValue(s[|s|-1]);
    DigitOf(s[|s|-1]);
    assert s == init + [DigitChar(d)];
    if init == "" {
      n := d;
    } else {
      assert Canonical(init, base) by { assert forall i | 0 <= i < |init| :: init[i] == s[i]; }
      var m := CanonicalIsNumeral(init, base);
      n := NumeralPush(m, d, base);
    }
  }

  /** Numerals are unique: a canonical text is the numeral of the number it denotes. */
  lemma NumeralUnique(s: string, base: nat)
    requires 2 <= base <= 16 && Canonical(s, base)
    ensures Numeral(ParseNat(s, base), base) == s
  {
    var n := CanonicalIsNumeral(s, base);
    NumeralRoundTrip(n, base);
  }

  lemma DigitOf(c: char)
    requires DigitValue(c) < 16
    ensures DigitChar(DigitValue(c)) == c
    ensures DigitValue(c) == 0 <==> c == '0'
  {
  }

  lemma NumeralPush(m: nat, d: nat, base: nat) returns (n: nat)
    requires 2 <= base <= 16 && d < base && m >= 1
    ensures Numeral(n, base) == Numeral(m, base) + [DigitChar(d)]
    ensures n >= 1
  {
    n := m * base + d;
    MulMono(1, m, base);
    DivUnique(m, d, base);
  }

  lemma DivUnique(m: nat, d: nat, base: nat)
    requires d < base && base >= 2
    ensures (m * base + d) / base == m && (m * base + d) % base == d
  {
    var n := m * base + d;
    DivMod(n, base);
    var q := n / base;
    if q < m {
      MulMono(q + 1, m, base);
      assert false;
    } else if q > m {
      MulMono(m + 1, q, base);
      assert false;
    }
  }

  function Pow(b: nat, e: nat): nat {
    if e == 0 then 1 else Pow(b, e - 1) * b
  }

  lemma {:induction false} NumeralLength(n: nat, base: nat, k: nat)
    requires 2 <= base <= 16 && 1 <= k && n < Pow(base, k)
    ensures |Numeral(n, base)| <= k
  {
    if n >= base {
      DivMod(n, base);
      if n / base >= Pow(base, k - 1) { MulMono(Pow(base, k - 1), n / base, base); }
      NumeralLength(n / base, base, k - 1);
    }
  }

  lemma Pow10(k: nat)
    requires k == 19 || k == 20
    ensures Pow(10, 19) == 10_000_000_000_000_000_000
    ensures Pow(10, 20) == 100_000_000_000_000_000_000
  {
    assert Pow(10, 5) == 100_000;
    assert Pow(10, 10) == 10_000_000_000;
    assert Pow(10, 15) == 1_000_000_000_000_000;
    assert Pow(10, 19) == 10_000_000_000_000_000_000;
  }

  lemma Pow16()
    ensures Pow(16, 16) == 0x1_0000_0000_0000_0000
  {
    assert Pow(16, 4) == 0x1_0000;
    assert Pow(16, 8) == 0x1_0000_0000;
    assert Pow(16, 12) == 0x1_0000_0000_0000;
  }

  /** Formatting loses nothing: the text reads back as the value, is canonical after the sign,
      and takes at most 20 characters for every 64-bit value, the minimum included. */
  lemma DecimalRoundTrip(v: int)
    requires Fits64(v)
    ensures ParseInt(Decimal(v)) == v
    ensures Canonical(if v < 0 then Decimal(v)[1..] else Decimal(v), 10)
    ensures 1 <= |Decimal(v)| <= MAX_DECIMAL
  {
    var n := Abs(v);
    NumeralRoundTrip(n, 10);
    Pow10(19);
    NumeralLength(n, 10, if v < 0 then 19 else 20);
    assert v < 0 ==> Decimal(v)[1..] == Numeral(n, 10);
    assert v >= 0 ==> DigitValue(Decimal(v)[0]) < 10;
  }

  lemma HexRoundTrip(v: nat)
    requires v < 0x1_0000_0000_0000_0000
    ensures ParseNat(Numeral(v, 16), 16) == v
    ensures Canonical(Numeral(v, 16), 16)
    ensures 1 <= |Numeral(v, 16)| <= MAX_HEX
  {
    NumeralRoundTrip(v, 16);
    Pow16();
    NumeralLength(v, 16, 16);
  }

  // ---------------------------------------------------------------- the code

  function Reversed(s: string): (r: string)
    ensures |r| == |s| && forall i | 0 <= i < |s| :: r[i] == s[|s| - 1 - i]
  {
    seq(|s|, i requires 0 <= i < |s| => s[|s| - 1 - i])
  }

  /** std::reverse on buf[lo, hi). */
  method ReverseRange(buf: array<char>, lo: nat, hi: nat)
    requires lo <= hi <= buf.Length
    modifies buf
    ensures buf[lo..hi] == Reversed(old(buf[lo..hi]))
    ensures forall k | 0 <= k < lo || hi <= k < buf.Length :: buf[k] == old(buf[k])
  {
    var i, j := lo, hi;
    while i < j
      invariant lo <= i <= hi && lo <= j <= hi && i - lo == hi - j
      invariant forall k | lo <= k < i :: buf[k] == old(buf[lo + hi - 1 - k])
      invariant forall k | j <= k < hi :: buf[k] == old(buf[lo + hi - 1 - k])
      invariant forall k | i <= k < j :: buf[k] == old(buf[k])
      invariant forall k | 0 <= k < lo || hi <= k < buf.Length :: buf[k] == old(buf[k])
    {
      j := j - 1;
      buf[i], buf[j] := buf[j], buf[i];
      i := i + 1;
    }
    assert forall k | lo <= k < hi :: buf[k] == old(buf[lo + hi - 1 - k]);
    assert forall k | 0 <= k < hi - lo :: buf[lo..hi][k] == old(buf[lo..hi])[hi - lo - 1 - k];
  }

  lemma TruncDigit(i: int)
    ensures Abs(TruncMod(i, 10)) == Abs(i) % 10
    ensures Abs(TruncDiv(i, 10)) == Abs(i) / 10
    ensures TruncDiv(i, 10) != 0 <==> Abs(i) >= 10
  {
  }

  lemma DigitTables(d: int)
    ensures -10 < d < 10 ==> DIGITS[ZERO + d] == DigitChar(Abs(d))
    ensures -16 < d < 16 ==> HEX_DIGITS[HEX_ZERO + d] == DigitChar(Abs(d))
  {
  }

  /** One turn of the digit loop, seen by the specification. */
  lemma PeelDigit(n: nat, base: nat, tail: string)
    requires 2 <= base <= 16
    ensures Numeral(n, base) + tail
         == if n < base then [DigitChar(n % base)] + tail
            else Numeral(n / base, base) + ([DigitChar(n % base)] + tail)
  {
  }

  /** `*p++ = c`, seen by the specification: the digits written so far, read backwards, grow in front. */
  method Put(buf: array<char>, start: nat, p: nat, c: char) returns (p': nat)
    requires start <= p < buf.Length
    modifies buf
    ensures p' == p + 1 && Reversed(buf[start..p']) == [c] + Reversed(old(buf[start..p]))
    ensures forall k | 0 <= k < buf.Length && k != p :: buf[k] == old(buf[k])
  {
    buf[p] := c;
    p' := p + 1;
    assert buf[start..p'] == old(buf[start..p]) + [c];
  }

  /** The NUL, the reversal and the length that end both conversions. */
  method Finish(buf: array<char>, start: nat, p: nat, ghost text: string) returns (len: nat)
    requires start <= p < buf.Length && Reversed(buf[start..p]) == text
    modifies buf
    ensures len == |text| && start + len < buf.Length && buf[start..start + len] == text
    ensures buf[start + len] == '\0'
    ensures forall k | 0 <= k < start || start + len < k < buf.Length :: buf[k] == old(buf[k])
  {
    buf[p] := '\0';
    assert buf[start..p] == old(buf[start..p]);
    ReverseRange(buf, start, p);
    len := p - start;
    assert start + len == p;
  }

  /** The digit loop of `convert`: the digits of the absolute value, least significant first. */
  method PutDigits(buf: array<char>, start: nat, value: int) returns (p: nat)
    requires start + |Numeral(Abs(value), 10)| <= buf.Length
    modifies buf
    ensures p == start + |Numeral(Abs(value), 10)| && Reversed(buf[start..p]) == Numeral(Abs(value), 10)
    ensures forall k | 0 <= k < start || p <= k < buf.Length :: buf[k] == old(buf[k])
  {
    ghost var text := Numeral(Abs(value), 10);
    var i, more := value, true;
    p := start;
    assert Reversed(buf[start..p]) == "";
    while more
      invariant start <= p <= start + |text|
      invariant if more then text == Numeral(Abs(i), 10) + Reversed(buf[start..p])
                        else text == Reversed(buf[start..p])
      invariant forall k | 0 <= k < start || p <= k < buf.Length :: buf[k] == old(buf[k])
      decreases Abs(i), more
    {
      TruncDigit(i);
      PeelDigit(Abs(i), 10, Reversed(buf[start..p]));
      var lsd := TruncMod(i, 10);
      i := TruncDiv(i, 10);
      DigitTables(lsd);
      p := Put(buf, start, p, DIGITS[ZERO + lsd]);
      more := i != 0;
    }
  }

  /** Writes the text of `value` at buf[start..], then a terminating NUL, and returns the length
      of the text. Nothing else in the buffer changes. */
  method Convert(buf: array<char>, start: nat, value: int) returns (len: nat)
    requires Fits64(value)
    requires start + MAX_DECIMAL < buf.Length
    modifies buf
    ensures len == |Decimal(value)| <= MAX_DECIMAL && buf[start..start + len] == Decimal(value)
    ensures buf[start + len] == '\0'
    ensures forall k | 0 <= k < start || start + len < k < buf.Length :: buf[k] == old(buf[k])
  {
    DecimalRoundTrip(value);
    var p := PutDigits(buf, start, value);
    if value < 0 {
      p := Put(buf, start, p, '-');
    }
    len := Finish(buf, start, p, Decimal(value));
  }

  method ConvertHex(buf: array<char>, start: nat, value: nat) returns (len: nat)
    requires value < 0x1_0000_0000_0000_0000
    requires start + MAX_HEX < buf.Length
    modifies buf
    ensures len == |Numeral(value, 16)| <= MAX_HEX && buf[start..start + len] == Numeral(value, 16)
    ensures buf[start + len] == '\0'
    ensures forall k | 0 <= k < start || start + len < k < buf.Length :: buf[k] == old(buf[k])
  {
    HexRoundTrip(value);
    ghost var text := Numeral(value, 16);
    var i, p, more := value, start, true;
    assert Reversed(buf[start..p]) == "";
    while more
      invariant start <= p <= start + |text|
      invariant if more then text == Numeral(i, 16) + Reversed(buf[start..p])
                        else text == Reversed(buf[start..p])
      invariant forall k | 0 <= k < start || p <= k < buf.Length :: buf[k] == old(buf[k])
      decreases i, more
    {
      PeelDigit(i, 16, Reversed(buf[start..p]));
      var lsd := i % 16;
      i := i / 16;
      DigitTables(lsd);
      p := Put(buf, start, p, HEX_DIGITS[HEX_ZERO + lsd]);
      more := i != 0;
    }
    len := Finish(buf, start, p, text);
  }
}
