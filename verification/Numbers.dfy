/** Number codecs: big-endian bytes, lower-case and lenient hexadecimal, decimal text. */
module Numbers {
  import opened Basics

  // ----- big-endian bytes: big.Int Bytes and SetBytes -----

  function ToBytes(n: nat): seq<byte>
  {
    if n == 0 then [] else ToBytes(n / 256) + [n % 256]
  }

  function FromBytes(b: seq<byte>): nat
  {
    if b == [] then 0 else FromBytes(b[..|b| - 1]) * 256 + b[|b| - 1]
  }

  lemma {:induction false} FromToBytes(n: nat)
    ensures FromBytes(ToBytes(n)) == n
  {
    if n != 0 {
      FromToBytes(n / 256);
      assert ToBytes(n)[..|ToBytes(n)| - 1] == ToBytes(n / 256);
    }
  }

  function Pow256(k: nat): (p: nat)
    ensures p > 0
  {
    if k == 0 then 1 else 256 * Pow256(k - 1)
  }

  /** The low `k` bytes of `n`, padded on the left with zeros. */
  function FixedBytes(n: nat, k: nat): (b: seq<byte>)
    ensures |b| == k
  {
    if k == 0 then [] else FixedBytes(n / 256, k - 1) + [n % 256]
  }

  lemma FixedBytesLast(n: nat, k: nat)
    requires k > 0
    ensures FixedBytes(n, k)[..k - 1] == FixedBytes(n / 256, k - 1)
    ensures FixedBytes(n, k)[k - 1] == n % 256
  {
  }

  lemma RemainderOfQuotient(n: nat, p: nat)
    requires p > 0
    ensures n / 256 % p * 256 + n % 256 == n % (256 * p)
  {
    var q, m := n / 256 / p, n / 256 % p;
    assert n / 256 == q * p + m;
    assert n == q * (256 * p) + (m * 256 + n % 256);
    QuotientAndRemainder(n, 256 * p, q, m * 256 + n % 256);
  }

  /** Padding to `k` bytes keeps the number when it fits, and else what is left of it below 256^k. */
  lemma {:induction false} FromFixedBytes(n: nat, k: nat)
    ensures FromBytes(FixedBytes(n, k)) == n % Pow256(k)
    ensures n < Pow256(k) ==> FromBytes(FixedBytes(n, k)) == n
  {
    if k != 0 {
      FromFixedBytes(n / 256, k - 1);
      FixedBytesLast(n, k);
      RemainderOfQuotient(n, Pow256(k - 1));
    }
    if n < Pow256(k) {
      QuotientAndRemainder(n, Pow256(k), 0, n);
    }
  }

  /** The first byte is the most significant. */
  lemma {:induction false} FromBytesFirst(x: byte, b: seq<byte>)
    ensures FromBytes([x] + b) == x * Pow256(|b|) + FromBytes(b)
  {
    if b == [] {
      assert [x] + b == [x] && [x][..0] == [];
    } else {
      var n := |b| - 1;
      FromBytesFirst(x, b[..n]);
      assert ([x] + b)[..n + 1] == [x] + b[..n];
    }
  }

  /** No leading zero byte is written. */
  lemma {:induction false} ToBytesMinimal(n: nat)
    ensures n == 0 <==> ToBytes(n) == []
    ensures n != 0 ==> ToBytes(n)[0] != 0
  {
    if n >= 256 {
      ToBytesMinimal(n / 256);
    } else if n != 0 {
      assert ToBytes(n / 256) == [];
    }
  }

  // ----- hexadecimal -----

  function HexDigit(d: int): byte
    requires 0 <= d < 16
  {
    if d < 10 then '0' as int + d else 'a' as int + d - 10
  }

  predicate IsHexDigit(c: byte)
  {
    '0' as int <= c <= '9' as int || 'a' as int <= c <= 'f' as int || 'A' as int <= c <= 'F' as int
  }

  function HexValue(c: byte): (v: int)
    requires IsHexDigit(c)
    ensures 0 <= v < 16
  {
    if c <= '9' as int then c - '0' as int
    else if c <= 'F' as int then c - 'A' as int + 10
    else c - 'a' as int + 10
  }

  /** hex.EncodeToString, and so common.Bytes2Hex. */
  function HexEncode(b: seq<byte>): Text
  {
    if b == [] then [] else [HexDigit(b[0] / 16), HexDigit(b[0] % 16)] + HexEncode(b[1..])
  }

  /** The bytes hex.DecodeString has produced when it stops: all of them, or those before the first bad pair. */
  function HexDecode(s: Text): seq<byte>
  {
    if |s| < 2 || !IsHexDigit(s[0]) || !IsHexDigit(s[1]) then []
    else [16 * HexValue(s[0]) + HexValue(s[1])] + HexDecode(s[2..])
  }

  predicate Has0xPrefix(s: Text)
  {
    |s| >= 2 && s[0] == '0' as int && (s[1] == 'x' as int || s[1] == 'X' as int)
  }

  /** common.FromHex: optional 0x, odd lengths padded, errors ignored. */
  function FromHex(s: Text): seq<byte>
  {
    var t := if Has0xPrefix(s) then s[2..] else s;
    HexDecode(if |t| % 2 == 1 then ['0' as int] + t else t)
  }

  function ToHexText(b: seq<byte>): Text
  {
    ['0' as int, 'x' as int] + HexEncode(b)
  }

  lemma {:induction false} HexEncodeShape(b: seq<byte>)
    ensures |HexEncode(b)| == 2 * |b|
    ensures forall c :: c in HexEncode(b) ==> IsHexDigit(c)
    ensures forall c :: c in HexEncode(b) ==> IsDigit(c) || 'a' as int <= c <= 'f' as int
  {
    if b != [] {
      HexEncodeShape(b[1..]);
    }
  }

  lemma {:induction false} HexDecodeEncode(b: seq<byte>)
    ensures HexDecode(HexEncode(b)) == b
  {
    if b != [] {
      HexDecodeEncode(b[1..]);
      assert HexEncode(b)[2..] == HexEncode(b[1..]);
    }
  }

  const LOWER := Ascii("0123456789abcdef")
  const UPPER := Ascii("0123456789ABCDEF")

  /** Writing uses the lower-case digits of the standard alphabet, reading takes both cases. */
  lemma HexAlphabet(d: nat, c: byte)
    ensures d < 16 ==> HexDigit(d) == LOWER[d]
    ensures IsHexDigit(c) ==> LOWER[HexValue(c)] == c || UPPER[HexValue(c)] == c
  {
  }

  /** Two digits a byte, the high one first. */
  lemma {:induction false} HexEncodeAt(b: seq<byte>, k: nat)
    requires k < |b|
    ensures |HexEncode(b)| == 2 * |b|
    ensures HexEncode(b)[2 * k] == LOWER[b[k] / 16] && HexEncode(b)[2 * k + 1] == LOWER[b[k] % 16]
  {
    HexEncodeShape(b);
    HexAlphabet(b[0] / 16, 0);
    HexAlphabet(b[0] % 16, 0);
    if k > 0 {
      HexEncodeAt(b[1..], k - 1);
      assert HexEncode(b)[2..] == HexEncode(b[1..]);
    }
  }

  lemma HexDecodePair(a: byte, c: byte, x: Text)
    requires IsHexDigit(a) && IsHexDigit(c)
    ensures HexDecode([a, c] + x) == [16 * HexValue(a) + HexValue(c)] + HexDecode(x)
  {
    assert ([a, c] + x)[2..] == x;
  }

  /** Reading stops at the first pair that is not hexadecimal and keeps what came before it. */
  lemma {:induction false} HexDecodeStops(b: seq<byte>, rest: Text)
    requires |rest| < 2 || !IsHexDigit(rest[0]) || !IsHexDigit(rest[1])
    ensures HexDecode(HexEncode(b) + rest) == b
  {
    if b == [] {
      assert HexEncode(b) + rest == rest;
    } else {
      var high, low := HexDigit(b[0] / 16), HexDigit(b[0] % 16);
      HexDecodeStops(b[1..], rest);
      HexDecodePair(high, low, HexEncode(b[1..]) + rest);
      assert HexEncode(b) + rest == [high, low] + (HexEncode(b[1..]) + rest);
    }
  }

  /** Capital letters read the same as small ones. */
  function Capital(c: byte): byte
  {
    if 'a' as int <= c <= 'f' as int then c - 'a' as int + 'A' as int else c
  }

  lemma {:induction false} HexDecodeCapitals(s: Text)
    ensures HexDecode(seq(|s|, i requires 0 <= i < |s| => Capital(s[i]))) == HexDecode(s)
  {
    var t: Text := seq(|s|, i requires 0 <= i < |s| => Capital(s[i]));
    if |s| >= 2 {
      HexDecodeCapitals(s[2..]);
      assert t[2..] == seq(|s[2..]|, i requires 0 <= i < |s[2..]| => Capital(s[2..][i]));
    }
  }

  lemma OddLength(s: Text, t: Text)
    requires |s| % 2 == 1 && !Has0xPrefix(s) && t == ['0' as int] + s
    ensures FromHex(s) == HexDecode(t)
  {
  }

  lemma PutInFront(a: byte, c: byte, x: Text)
    ensures [a] + ([c] + x) == [a, c] + x
  {
  }

  lemma Unprefixed(s: Text)
    requires |s| >= 2 ==> s[1] != 'x' as int && s[1] != 'X' as int
    ensures !Has0xPrefix(s)
  {
  }

  /** An odd digit in front counts as a byte of its own. */
  lemma FromHexOdd(c: byte, b: seq<byte>)
    requires IsHexDigit(c)
    ensures FromHex([c] + HexEncode(b)) == [HexValue(c)] + b
  {
    var x := HexEncode(b);
    var s := [c] + x;
    HexEncodeShape(b);
    assert x != [] ==> x[0] in x;
    Unprefixed(s);
    OddLength(s, ['0' as int] + s);
    PutInFront('0' as int, c, x);
    HexDecodePair('0' as int, c, x);
    HexDecodeEncode(b);
  }

  /** No hexadecimal text starts like a prefix, and its length is even, so the lenient parser takes it as it is. */
  lemma PlainHex(b: seq<byte>)
    ensures !Has0xPrefix(HexEncode(b)) && |HexEncode(b)| % 2 == 0
  {
    HexEncodeShape(b);
    if |b| > 0 {
      assert HexEncode(b)[1] in HexEncode(b);
    }
  }

  /** An even number of characters is read to the end exactly when all are digits. */
  lemma {:induction false} HexDecodeAll(s: Text)
    requires |s| % 2 == 0
    ensures |HexDecode(s)| <= |s| / 2
    ensures |HexDecode(s)| == |s| / 2 <==> forall c :: c in s ==> IsHexDigit(c)
  {
    if |s| >= 2 {
      HexDecodeAll(s[2..]);
      assert s == [s[0], s[1]] + s[2..];
      assert forall c :: c in s <==> c == s[0] || c == s[1] || c in s[2..];
    }
  }

  /** Lenient hexadecimal reads back both spellings this program writes. */
  lemma FromHexInverse(b: seq<byte>)
    ensures FromHex(HexEncode(b)) == b
    ensures FromHex(ToHexText(b)) == b
    ensures FromHex(Ascii("0X") + HexEncode(b)) == b
  {
    PlainHex(b);
    HexDecodeEncode(b);
    assert ToHexText(b)[2..] == HexEncode(b);
    assert (Ascii("0X") + HexEncode(b))[2..] == HexEncode(b);
  }

  /** Every non-negative number survives bytes, hexadecimal, lenient hexadecimal and bytes again. */
  lemma HexNumberRoundTrip(n: nat)
    ensures FromBytes(FromHex(HexEncode(ToBytes(n)))) == n
  {
    FromHexInverse(ToBytes(n));
    FromToBytes(n);
  }

  lemma HexEncodeInjective(a: seq<byte>, b: seq<byte>)
    requires HexEncode(a) == HexEncode(b)
    ensures a == b
  {
    HexDecodeEncode(a);
    HexDecodeEncode(b);
  }

  lemma {:induction false} HexEncodeLast(b: seq<byte>, x: byte)
    ensures HexEncode(b + [x]) == HexEncode(b) + [HexDigit(x / 16), HexDigit(x % 16)]
  {
    if b == [] {
      assert b + [x] == [x];
    } else {
      assert (b + [x])[1..] == b[1..] + [x];
      HexEncodeLast(b[1..], x);
    }
  }

  /** ToHex: a buffer of 2n+2 bytes, the prefix copied in, the digits written after it. */
  method ToHex(b: seq<byte>) returns (s: Text)
    ensures s == ToHexText(b)
    ensures |s| == 2 * |b| + 2
    ensures FromHex(s) == b
  {
    var enc := new byte[2 * |b| + 2];
    enc[0], enc[1] := '0' as int, 'x' as int;
    var i := 0;
    while i < |b|
      invariant 0 <= i <= |b|
      invariant enc[..2 + 2 * i] == ToHexText(b[..i])
    {
      ghost var before := enc[..2 + 2 * i];
      enc[2 + 2 * i] := HexDigit(b[i] / 16);
      enc[3 + 2 * i] := HexDigit(b[i] % 16);
      assert enc[..4 + 2 * i] == before + [HexDigit(b[i] / 16), HexDigit(b[i] % 16)];
      HexEncodeLast(b[..i], b[i]);
      assert b[..i + 1] == b[..i] + [b[i]];
      i := i + 1;
    }
    s := enc[..];
    assert s == enc[..2 + 2 * i] && b[..i] == b;
    HexEncodeShape(b);
    FromHexInverse(b);
  }

  // ----- decimal -----

  function Decimal(n: nat): (s: Text)
    ensures s != []
  {
    if n < 10 then ['0' as int + n] else Decimal(n / 10) + ['0' as int + n % 10]
  }

  function ParseDigits(s: Text): Option<nat>
    requires s != []
  {
    var last := s[|s| - 1];
    if !IsDigit(last) then None
    else if |s| == 1 then Some(last - '0' as int)
    else
      match ParseDigits(s[..|s| - 1])
      case None => None
      case Some(n) => Some(10 * n + last - '0' as int)
  }

  /** big.Int String. */
  function PrintInt(i: int): Text
  {
    if i < 0 then ['-' as int] + Decimal(-i) else Decimal(i)
  }

  /** big.Int SetString in base 10: an optional sign, then at least one digit and nothing else. */
  function ParseInt(s: Text): Option<int>
  {
    if s == [] then None
    else if s[0] == '-' as int || s[0] == '+' as int then
      if |s| == 1 then None
      else
        match ParseDigits(s[1..])
        case None => None
        case Some(n) => var i: int := n; Some(if s[0] == '-' as int then -i else i)
    else
      match ParseDigits(s)
      case None => None
      case Some(n) => Some(n)
  }

  lemma {:induction false} ParseDecimal(n: nat)
    ensures ParseDigits(Decimal(n)) == Some(n)
    ensures forall c :: c in Decimal(n) ==> IsDigit(c)
  {
    if n >= 10 {
      ParseDecimal(n / 10);
      assert Decimal(n)[..|Decimal(n)| - 1] == Decimal(n / 10);
    }
  }

  /** Digits with no sign in front. */
  lemma ParseUnsigned(s: Text, n: nat)
    requires s != [] && IsDigit(s[0]) && ParseDigits(s) == Some(n)
    ensures ParseInt(s) == Some(n)
  {
  }

  lemma ParseNegative(s: Text, i: int)
    requires i < 0 && s != [] && ParseDigits(s) == Some(-i)
    ensures ParseInt(['-' as int] + s) == Some(i)
  {
    assert (['-' as int] + s)[1..] == s;
  }

  /** Decimal printing and parsing are inverse on every integer. */
  lemma IntRoundTrip(i: int)
    ensures ParseInt(PrintInt(i)) == Some(i)
  {
    if i < 0 {
      ParseDecimal(-i);
      ParseNegative(Decimal(-i), i);
    } else {
      ParseDecimal(i);
      assert Decimal(i)[0] in Decimal(i);
      ParseUnsigned(Decimal(i), i);
    }
  }

  /** Decimal text: a minus exactly for negative numbers, then digits without a leading zero. */
  lemma {:induction false} DecimalShape(n: nat)
    ensures forall c :: c in Decimal(n) ==> IsDigit(c)
    ensures Decimal(n)[0] == '0' as int ==> n == 0 && |Decimal(n)| == 1
  {
    if n >= 10 {
      DecimalShape(n / 10);
      assert Decimal(n)[0] == Decimal(n / 10)[0];
    }
  }

  lemma PrintIntShape(i: int)
    ensures var s := PrintInt(i);
            && s != [] && (i < 0 <==> s[0] == '-' as int)
            && (i >= 0 ==> IsDigit(s[0]) && forall c :: c in s ==> IsDigit(c))
            && (s[0] == '0' as int ==> i == 0)
            && (i < 0 ==> |s| > 1 && s[1] != '0' as int && forall c :: c in s[1..] ==> IsDigit(c))
  {
    DecimalShape(if i < 0 then -i else i);
    assert i < 0 ==> PrintInt(i)[1..] == Decimal(-i);
    assert i >= 0 ==> PrintInt(i)[0] in PrintInt(i);
  }

  /** What counts as an integer: an optional sign and at least one digit, leading zeros allowed. */
  predicate IsIntText(s: Text)
  {
    && s != []
    && var digits := if s[0] == '-' as int || s[0] == '+' as int then s[1..] else s;
    digits != [] && forall c :: c in digits ==> IsDigit(c)
  }

  lemma {:induction false} ParseDigitsIff(s: Text)
    requires s != []
    ensures ParseDigits(s).Some? <==> forall c :: c in s ==> IsDigit(c)
  {
    var n := |s| - 1;
    assert s == s[..n] + [s[n]];
    assert s[n] in s;
    if n > 0 {
      ParseDigitsIff(s[..n]);
      assert forall c :: c in s <==> c in s[..n] || c == s[n];
    }
  }

  lemma ParseIntIff(s: Text)
    ensures ParseInt(s).Some? <==> IsIntText(s)
  {
    if s != [] {
      ParseDigitsIff(s);
      if |s| > 1 {
        ParseDigitsIff(s[1..]);
      }
    }
  }

  lemma {:induction false} LeadingZero(s: Text)
    requires s != []
    ensures ParseDigits(['0' as int] + s) == ParseDigits(s)
  {
    var z := ['0' as int];
    var n := |s| - 1;
    assert (z + s)[..n + 1] == z + s[..n];
    if n == 0 {
      assert z + s[..0] == z;
    } else {
      LeadingZero(s[..n]);
    }
  }

  lemma PlusSign(n: nat)
    ensures ParseInt(['+' as int] + Decimal(n)) == Some(n)
  {
    ParseDecimal(n);
    assert (['+' as int] + Decimal(n))[1..] == Decimal(n);
  }

  lemma PrintIntInjective(i: int, j: int)
    requires PrintInt(i) == PrintInt(j)
    ensures i == j
  {
    IntRoundTrip(i);
    IntRoundTrip(j);
  }
}
