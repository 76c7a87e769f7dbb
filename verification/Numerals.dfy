/** Numbers as digit strings, in any base up to 36. */
module Numerals {
  import opened Basics

  function Digit(d: nat): (c: char)
    requires d < 36
    ensures c != ':' && c != '-' && c != '+'
  {
    if d < 10 then '0' + d as char else 'a' + (d - 10) as char
  }

  /** The value of a lower-case digit; 36 for any other character. */
  function DigitValue(c: char): (d: nat)
    ensures d <= 36
  {
    if '0' <= c <= '9' then c as int - '0' as int
    else if 'a' <= c <= 'z' then c as int - 'a' as int + 10
    else 36
  }

  lemma DigitRoundTrip(d: nat, c: char)
    ensures d < 36 ==> DigitValue(Digit(d)) == d
    ensures DigitValue(c) < 36 ==> Digit(DigitValue(c)) == c
  {
  }

  lemma MulLe(a: int, b: int, c: nat)
    requires a <= b
    ensures a * c <= b * c
  {
    assert (b - a) * c >= 0;
  }

  lemma Divide(n: nat, b: nat)
    requires b >= 2
    ensures n == (n / b) * b + n % b && n % b < b
    ensures n >= 1 ==> n / b < n
    ensures n >= b ==> n / b >= 1
  {
    MulLe(2, b, n);
    assert n / b >= n ==> (n / b) * b >= n * b by {
      if n / b >= n {
        MulLe(n, n / b, b);
      }
    }
  }

  lemma DivideBack(q: nat, r: nat, b: nat)
    requires r < b && b >= 2
    ensures (q * b + r) / b == q && (q * b + r) % b == r
  {
    var n := q * b + r;
    Divide(n, b);
    assert n / b > q ==> (n / b) * b >= (q + 1) * b by {
      if n / b > q {
        MulLe(q + 1, n / b, b);
      }
    }
    assert n / b < q ==> (n / b + 1) * b <= q * b by {
      if n / b < q {
        MulLe(n / b + 1, q, b);
      }
    }
  }

  function ToBase(n: nat, b: nat): (s: string)
    requires 2 <= b <= 36
    ensures s != ""
  {
    Divide(n, b);
    if n < b then [Digit(n)] else ToBase(n / b, b) + [Digit(n % b)]
  }

  predicate AllDigits(s: string, b: nat) { forall i :: 0 <= i < |s| ==> DigitValue(s[i]) < b }

  function FromBase(s: string, b: nat): nat
    requires b <= 36
  {
    if s == "" then 0 else FromBase(s[..|s| - 1], b) * b + DigitValue(s[|s| - 1])
  }

  lemma {:induction false} ToBaseReadsBack(n: nat, b: nat)
    requires 2 <= b <= 36
    ensures AllDigits(ToBase(n, b), b) && FromBase(ToBase(n, b), b) == n
    ensures n > 0 ==> ToBase(n, b)[0] != '0'
  {
    Divide(n, b);
    if n < b {
      assert FromBase([Digit(n)], b) == FromBase("", b) * b + n by {
        assert [Digit(n)][..0] == "";
      }
    } else {
      ToBaseReadsBack(n / b, b);
      var front := ToBase(n / b, b);
      assert ToBase(n, b)[..|front|] == front;
    }
  }

  lemma {:induction false} Positive(s: string, b: nat)
    requires 2 <= b <= 36 && s != "" && s[0] != '0' && AllDigits(s, b)
    ensures FromBase(s, b) > 0
  {
    if |s| == 1 {
      assert s[..0] == "";
    } else {
      Positive(s[..|s| - 1], b);
      assert FromBase(s[..|s| - 1], b) * b >= 1;
    }
  }

  lemma Glue(q: nat, d: nat, b: nat)
    requires 2 <= b <= 36 && d < b && q > 0
    ensures ToBase(q * b + d, b) == ToBase(q, b) + [Digit(d)]
  {
    DivideBack(q, d, b);
    MulLe(1, q, b);
  }

  /** Digits without a leading zero are the only spelling of their value. */
  lemma {:induction false} FromBaseWritesBack(s: string, b: nat)
    requires 2 <= b <= 36 && s != "" && s[0] != '0' && AllDigits(s, b)
    ensures ToBase(FromBase(s, b), b) == s
  {
    var front, last := s[..|s| - 1], s[|s| - 1];
    DigitRoundTrip(0, last);
    if |s| == 1 {
      assert front == "" && FromBase(front, b) == 0;
      assert s == [last];
    } else {
      Positive(front, b);
      FromBaseWritesBack(front, b);
      Glue(FromBase(front, b), DigitValue(last), b);
      assert s == front + [last];
    }
  }

  /** A number below `b` to the `k` has at most `k` digits. */
  lemma {:induction false} ToBaseLength(n: nat, b: nat, k: nat)
    requires 2 <= b <= 36 && k >= 1 && n < Pow(b, k)
    ensures |ToBase(n, b)| <= k
  {
    Divide(n, b);
    assert Pow(b, k) == Pow(b, k - 1) * b;
    assert n / b >= Pow(b, k - 1) ==> (n / b) * b >= Pow(b, k - 1) * b by {
      if n / b >= Pow(b, k - 1) {
        MulLe(Pow(b, k - 1), n / b, b);
      }
    }
    if n >= b {
      assert Pow(b, 0) == 1;
      ToBaseLength(n / b, b, k - 1);
    }
  }

  lemma AppendBound(v: nat, d: nat, p: nat, b: nat)
    requires v < p && d < b
    ensures v * b + d < p * b
  {
    MulLe(v + 1, p, b);
  }

  /** A string of `k` digits is below `b` to the `k`. */
  lemma {:induction false} FromBaseBound(s: string, b: nat)
    requires 2 <= b <= 36 && AllDigits(s, b)
    ensures FromBase(s, b) < Pow(b, |s|)
  {
    if s != "" {
      FromBaseBound(s[..|s| - 1], b);
      AppendBound(FromBase(s[..|s| - 1], b), DigitValue(s[|s| - 1]), Pow(b, |s| - 1), b);
    }
  }

  // ---------------------------------------------------------------- signed decimals

  function IntToString(i: int): string { if i < 0 then "-" + ToBase(-i, 10) else ToBase(i, 10) }

  /** An optional sign and ASCII digits. */
  function ParseInt(s: string): Option<int> {
    var signed := s != "" && (s[0] == '-' || s[0] == '+');
    var digits := if signed then s[1..] else s;
    if digits == "" || !AllDigits(digits, 10) then None
    else
      var value: int := FromBase(digits, 10);
      Some(if signed && s[0] == '-' then -value else value)
  }

  lemma PlainDigits(n: nat)
    ensures var digits := ToBase(n, 10);
            AllDigits(digits, 10) && ':' !in digits && digits[0] != '-' && digits[0] != '+'
  {
    ToBaseReadsBack(n, 10);
    var digits := ToBase(n, 10);
    forall k | 0 <= k < |digits|
      ensures digits[k] != ':'
    {
      assert DigitValue(digits[k]) < 10;
    }
    assert DigitValue(digits[0]) < 10;
  }

  lemma NegativeReadsBack(n: int)
    requires n >= 0
    ensures ParseInt("-" + ToBase(n, 10)) == Some(-n)
  {
    var s := "-" + ToBase(n, 10);
    assert s[0] == '-' && s[1..] == ToBase(n, 10);
    ToBaseReadsBack(n, 10);
  }

  lemma IntReadsBack(i: int)
    ensures ParseInt(IntToString(i)) == Some(i)
    ensures ':' !in IntToString(i)
  {
    var n: nat := if i < 0 then -i else i;
    PlainDigits(n);
    if i < 0 {
      NegativeReadsBack(n);
    } else {
      ToBaseReadsBack(n, 10);
    }
  }
}

/** The URL-safe alphabet of section 5 of RFC 4648, without padding. */
module Base64Url {
  import opened Basics

  type Byte = x: int | 0 <= x < 256

  type Sextet = x: int | 0 <= x < 64

  function Symbol(v: Sextet): char {
    if v < 26 then 'A' + v as char
    else if v < 52 then 'a' + (v - 26) as char
    else if v < 62 then '0' + (v - 52) as char
    else if v == 62 then '-'
    else '_'
  }

  predicate IsSymbol(c: char) { 'A' <= c <= 'Z' || 'a' <= c <= 'z' || '0' <= c <= '9' || c == '-' || c == '_' }

  function SymbolValue(c: char): Sextet
    requires IsSymbol(c)
  {
    if 'A' <= c <= 'Z' then c as int - 'A' as int
    else if 'a' <= c <= 'z' then c as int - 'a' as int + 26
    else if '0' <= c <= '9' then c as int - '0' as int + 52
    else if c == '-' then 62
    else 63
  }

  lemma SymbolRoundTrip(v: Sextet)
    ensures IsSymbol(Symbol(v)) && SymbolValue(Symbol(v)) == v
  {
  }

  /** Three bytes become four sextets; one or two left over become two or three. */
  function Sextets(raw: seq<Byte>): seq<Sextet>
    decreases |raw|
  {
    if |raw| == 0 then []
    else if |raw| == 1 then [raw[0] / 4, raw[0] % 4 * 16]
    else if |raw| == 2 then [raw[0] / 4, raw[0] % 4 * 16 + raw[1] / 16, raw[1] % 16 * 4]
    else [raw[0] / 4, raw[0] % 4 * 16 + raw[1] / 16, raw[1] % 16 * 4 + raw[2] / 64, raw[2] % 64] + Sextets(raw[3..])
  }

  /** The bytes of a sextet string; trailing bits are dropped, one lone sextet is an error. */
  function Bytes(v: seq<Sextet>): Option<seq<Byte>>
    decreases |v|
  {
    if |v| == 0 then Some([])
    else if |v| == 1 then None
    else if |v| == 2 then Some([FirstByte(v[0], v[1])])
    else if |v| == 3 then Some([FirstByte(v[0], v[1]), SecondByte(v[1], v[2])])
    else
      var rest := Bytes(v[4..]);
      if rest.None? then None
      else Some([FirstByte(v[0], v[1]), SecondByte(v[1], v[2]), ThirdByte(v[2], v[3])] + rest.value)
  }

  function FirstByte(a: int, b: int): Byte
    requires 0 <= a < 64 && 0 <= b < 64
  {
    a * 4 + b / 16
  }

  function SecondByte(b: int, c: int): Byte
    requires 0 <= b < 64 && 0 <= c < 64
  {
    b % 16 * 16 + c / 4
  }

  function ThirdByte(c: int, d: int): Byte
    requires 0 <= c < 64 && 0 <= d < 64
  {
    c % 4 * 64 + d
  }

  function Spell(v: seq<Sextet>): string { seq(|v|, i requires 0 <= i < |v| => Symbol(v[i])) }

  predicate AllSymbols(s: string) { forall i :: 0 <= i < |s| ==> IsSymbol(s[i]) }

  function Read(s: string): seq<Sextet>
    requires AllSymbols(s)
  {
    seq(|s|, i requires 0 <= i < |s| => SymbolValue(s[i]))
  }

  function Encode(raw: seq<Byte>): string { Spell(Sextets(raw)) }

  function Decode(s: string): Option<seq<Byte>> { if AllSymbols(s) then Bytes(Read(s)) else None }

  lemma SpellReadsBack(v: seq<Sextet>)
    ensures AllSymbols(Spell(v)) && Read(Spell(v)) == v
  {
    forall i | 0 <= i < |v|
      ensures IsSymbol(Spell(v)[i]) && SymbolValue(Spell(v)[i]) == v[i]
    {
      SymbolRoundTrip(v[i]);
    }
  }

  lemma {:induction false} BytesReadBack(raw: seq<Byte>)
    ensures Bytes(Sextets(raw)) == Some(raw)
    decreases |raw|
  {
    if |raw| == 1 {
      assert raw == [raw[0]];
    } else if |raw| == 2 {
      assert raw == [raw[0], raw[1]];
    } else if |raw| >= 3 {
      BytesReadBack(raw[3..]);
      var v := Sextets(raw);
      assert v[4..] == Sextets(raw[3..]);
      assert raw == [raw[0], raw[1], raw[2]] + raw[3..];
    }
  }

  lemma DecodeInvertsEncode(raw: seq<Byte>)
    ensures Decode(Encode(raw)) == Some(raw)
  {
    SpellReadsBack(Sextets(raw));
    BytesReadBack(raw);
  }

  lemma {:induction false} EncodedLength(raw: seq<Byte>)
    ensures 3 * |Encode(raw)| == 4 * |raw| + (if |raw| % 3 == 0 then 0 else if |raw| % 3 == 1 then 2 else 1)
    ensures AllSymbols(Encode(raw))
    decreases |raw|
  {
    SpellReadsBack(Sextets(raw));
    if |raw| >= 3 {
      EncodedLength(raw[3..]);
    }
  }
}
