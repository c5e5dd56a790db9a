/** Standard base64 with padding: section 4 of RFC 4648, decoded as Go's base64.StdEncoding does. */
module Base64 {
  import opened Basics

  const PAD: byte := '=' as int

  function Symbol(v: int): byte
    requires 0 <= v < 64
  {
    if v < 26 then 'A' as int + v
    else if v < 52 then 'a' as int + v - 26
    else if v < 62 then '0' as int + v - 52
    else if v == 62 then '+' as int
    else '/' as int
  }

  predicate IsSymbol(c: byte)
  {
    || 'A' as int <= c <= 'Z' as int
    || 'a' as int <= c <= 'z' as int
    || '0' as int <= c <= '9' as int
    || c == '+' as int
    || c == '/' as int
  }

  function Value(c: byte): (v: int)
    requires IsSymbol(c)
    ensures 0 <= v < 64
  {
    if c == '+' as int then 62
    else if c == '/' as int then 63
    else if c <= '9' as int then c - '0' as int + 52
    else if c <= 'Z' as int then c - 'A' as int
    else c - 'a' as int + 26
  }

  lemma SymbolValue(v: int)
    requires 0 <= v < 64
    ensures IsSymbol(Symbol(v)) && Value(Symbol(v)) == v
  {
  }

  function Encode(b: seq<byte>): Text
  {
    if b == [] then []
    else if |b| == 1 then [Symbol(b[0] / 4), Symbol(b[0] % 4 * 16), PAD, PAD]
    else if |b| == 2 then
      [Symbol(b[0] / 4), Symbol(b[0] % 4 * 16 + b[1] / 16), Symbol(b[1] % 16 * 4), PAD]
    else
      [Symbol(b[0] / 4), Symbol(b[0] % 4 * 16 + b[1] / 16), Symbol(b[1] % 16 * 4 + b[2] / 64), Symbol(b[2] % 64)]
      + Encode(b[3..])
  }

  predicate IsNewline(c: byte)
  {
    c == 10 || c == 13
  }

  /** The decoder skips carriage returns and line feeds wherever they stand. */
  function WithoutNewlines(s: Text): Text
  {
    if s == [] then []
    else (if IsNewline(s[0]) then [] else [s[0]]) + WithoutNewlines(s[1..])
  }

  /** Quanta of four symbols; padding only in the last one; unused low bits are not checked. */
  function DecodeQuanta(s: Text): Option<seq<byte>>
  {
    if s == [] then Some([])
    else if |s| < 4 || !IsSymbol(s[0]) || !IsSymbol(s[1]) then None
    else
      var v0, v1 := Value(s[0]), Value(s[1]);
      var b0 := v0 * 4 + v1 / 16;
      if s[2] == PAD then
        if s[3] == PAD && |s| == 4 then Some([b0]) else None
      else if !IsSymbol(s[2]) then None
      else
        var v2 := Value(s[2]);
        var b1 := v1 % 16 * 16 + v2 / 4;
        if s[3] == PAD then
          if |s| == 4 then Some([b0, b1]) else None
        else if !IsSymbol(s[3]) then None
        else
          var b2 := v2 % 4 * 64 + Value(s[3]);
          match DecodeQuanta(s[4..])
          case None => None
          case Some(rest) => Some([b0, b1, b2] + rest)
  }

  function Decode(s: Text): Option<seq<byte>>
  {
    DecodeQuanta(WithoutNewlines(s))
  }

  lemma {:induction false} EncodeShape(b: seq<byte>)
    ensures forall c :: c in Encode(b) ==> IsSymbol(c) || c == PAD
    ensures |Encode(b)| == (|b| + 2) / 3 * 4
  {
    if |b| >= 3 {
      EncodeShape(b[3..]);
    }
  }

  const CAPITALS := Ascii("ABCDEFGHIJKLMNOPQRSTUVWXYZ")
  const SMALL := Ascii("abcdefghijklmnopqrstuvwxyz")
  const OTHERS := Ascii("0123456789+/")

  /** The alphabet of table 1 of RFC 4648. */
  lemma SymbolsOfAlphabet(v: nat)
    requires v < 64
    ensures Symbol(v) == if v < 26 then CAPITALS[v] else if v < 52 then SMALL[v - 26] else OTHERS[v - 52]
  {
    if v < 26 {
      CapitalAt(v);
    } else if v < 52 {
      SmallAt(v - 26);
    } else {
      OtherAt(v - 52);
    }
  }

  lemma CapitalAt(v: nat)
    requires v < 26
    ensures CAPITALS[v] == 'A' as int + v
  {
  }

  lemma SmallAt(v: nat)
    requires v < 26
    ensures SMALL[v] == 'a' as int + v
  {
  }

  lemma OtherAt(v: nat)
    requires v < 12
    ensures OTHERS[v] == if v < 10 then '0' as int + v else if v == 10 then '+' as int else '/' as int
  {
  }

  /** The value of a symbol is its place in the alphabet. */
  lemma ValueSymbol(c: byte)
    requires IsSymbol(c)
    ensures Symbol(Value(c)) == c
  {
  }

  lemma {:induction false} NoNewlines(s: Text)
    requires forall c :: c in s ==> c != 0x0A && c != 0x0D
    ensures WithoutNewlines(s) == s
  {
    if s != [] {
      assert s[0] in s && forall c :: c in s[1..] ==> c in s;
      NoNewlines(s[1..]);
      assert s == [s[0]] + s[1..];
    }
  }

  /** A line break anywhere makes no difference. */
  lemma {:induction false} LineBreakSkipped(a: Text, c: byte, b: Text)
    requires c == 0x0A || c == 0x0D
    ensures WithoutNewlines(a + [c] + b) == WithoutNewlines(a + b)
  {
    if a == [] {
      assert [] + [c] + b == [c] + b && ([c] + b)[1..] == b && [] + b == b;
    } else {
      LineBreakSkipped(a[1..], c, b);
      assert (a + [c] + b)[1..] == a[1..] + [c] + b;
      assert (a + b)[1..] == a[1..] + b;
    }
  }

  /** Regrouping three bytes as four sextets loses nothing. */
  lemma Sextets(b0: byte, b1: byte, b2: byte)
    ensures b0 / 4 * 4 + (b0 % 4 * 16 + b1 / 16) / 16 == b0
    ensures (b0 % 4 * 16 + b1 / 16) % 16 * 16 + (b1 % 16 * 4 + b2 / 64) / 4 == b1
    ensures (b1 % 16 * 4 + b2 / 64) % 4 * 64 + b2 % 64 == b2
  {
  }

  lemma TwoSymbols(s0: byte, s1: byte)
    requires IsSymbol(s0) && IsSymbol(s1)
    ensures DecodeQuanta([s0, s1, PAD, PAD]) == Some([Value(s0) * 4 + Value(s1) / 16])
  {
  }

  lemma ThreeSymbols(s0: byte, s1: byte, s2: byte)
    requires IsSymbol(s0) && IsSymbol(s1) && IsSymbol(s2)
    ensures DecodeQuanta([s0, s1, s2, PAD]) ==
            Some([Value(s0) * 4 + Value(s1) / 16, Value(s1) % 16 * 16 + Value(s2) / 4])
  {
  }

  lemma FourSymbols(s0: byte, s1: byte, s2: byte, s3: byte, rest: Text)
    requires IsSymbol(s0) && IsSymbol(s1) && IsSymbol(s2) && IsSymbol(s3)
    ensures DecodeQuanta([s0, s1, s2, s3] + rest) ==
            match DecodeQuanta(rest)
            case None => None
            case Some(d) =>
              Some([Value(s0) * 4 + Value(s1) / 16, Value(s1) % 16 * 16 + Value(s2) / 4, Value(s2) % 4 * 64 + Value(s3)]
                   + d)
  {
    assert ([s0, s1, s2, s3] + rest)[4..] == rest;
  }

  /** A full quantum is read back in front of whatever the rest decodes to. */
  lemma FullQuantum(b0: byte, b1: byte, b2: byte, rest: Text)
    ensures DecodeQuanta(
              [Symbol(b0 / 4), Symbol(b0 % 4 * 16 + b1 / 16), Symbol(b1 % 16 * 4 + b2 / 64), Symbol(b2 % 64)] + rest)
         == match DecodeQuanta(rest) case None => None case Some(d) => Some([b0, b1, b2] + d)
  {
    var v0, v1, v2, v3 := b0 / 4, b0 % 4 * 16 + b1 / 16, b1 % 16 * 4 + b2 / 64, b2 % 64;
    SymbolValue(v0);
    SymbolValue(v1);
    SymbolValue(v2);
    SymbolValue(v3);
    FourSymbols(Symbol(v0), Symbol(v1), Symbol(v2), Symbol(v3), rest);
    Sextets(b0, b1, b2);
  }

  /** A final quantum of one byte is read back. */
  lemma OneByte(b0: byte)
    ensures DecodeQuanta(Encode([b0])) == Some([b0])
  {
    var v0, v1 := b0 / 4, b0 % 4 * 16;
    SymbolValue(v0);
    SymbolValue(v1);
    TwoSymbols(Symbol(v0), Symbol(v1));
    assert v0 * 4 + v1 / 16 == b0;
  }

  /** A final quantum of two bytes is read back. */
  lemma TwoBytes(b0: byte, b1: byte)
    ensures DecodeQuanta(Encode([b0, b1])) == Some([b0, b1])
  {
    var v0, v1, v2 := b0 / 4, b0 % 4 * 16 + b1 / 16, b1 % 16 * 4;
    SymbolValue(v0);
    SymbolValue(v1);
    SymbolValue(v2);
    ThreeSymbols(Symbol(v0), Symbol(v1), Symbol(v2));
    Sextets(b0, b1, 0);
  }

  /** The first quantum of three bytes or more. */
  lemma EncodeQuantum(b: seq<byte>)
    requires |b| >= 3
    ensures Encode(b) ==
            [Symbol(b[0] / 4), Symbol(b[0] % 4 * 16 + b[1] / 16), Symbol(b[1] % 16 * 4 + b[2] / 64), Symbol(b[2] % 64)]
            + Encode(b[3..])
  {
  }

  /** Four symbols are the base-64 digits of the number whose base-256 digits are the three bytes. */
  lemma QuantumNumber(b: seq<byte>)
    requires |b| >= 3
    ensures var e := Encode(b);
            && |e| >= 4 && e[4..] == Encode(b[3..])
            && (forall k :: 0 <= k < 4 ==> IsSymbol(e[k]))
            && var b0: int, b1: int, b2: int := b[0], b[1], b[2];
            b0 * 0x1_0000 + b1 * 0x100 + b2
            == Value(e[0]) * 0x4_0000 + Value(e[1]) * 0x1000 + Value(e[2]) * 0x40 + Value(e[3])
  {
    EncodeQuantum(b);
    SymbolValue(b[0] / 4);
    SymbolValue(b[0] % 4 * 16 + b[1] / 16);
    SymbolValue(b[1] % 16 * 4 + b[2] / 64);
    SymbolValue(b[2] % 64);
  }

  /** One or two bytes at the end are filled up with zero bits, and the symbols that are missing with padding. */
  lemma LastQuantumNumber(b: seq<byte>)
    requires 1 <= |b| <= 2
    ensures var e := Encode(b);
            && |e| == 4 && IsSymbol(e[0]) && IsSymbol(e[1]) && e[3] == PAD
            && var b0: int, b1: int := b[0], if |b| == 2 then b[1] else 0;
            && (|b| == 1 ==> e[2] == PAD && b0 * 0x10 == Value(e[0]) * 0x40 + Value(e[1]))
            && (|b| == 2 ==> IsSymbol(e[2]))
            && (|b| == 2 ==> (b0 * 0x100 + b1) * 4 == Value(e[0]) * 0x1000 + Value(e[1]) * 0x40 + Value(e[2]))
  {
    SymbolValue(b[0] / 4);
    if |b| == 1 {
      SymbolValue(b[0] % 4 * 16);
    } else {
      SymbolValue(b[0] % 4 * 16 + b[1] / 16);
      SymbolValue(b[1] % 16 * 4);
    }
  }

  /** Full quanta of symbols; only the last may have one or two of its symbols replaced by padding. */
  predicate IsQuanta(s: Text)
  {
    && |s| % 4 == 0
    && (forall k :: 0 <= k < |s| - 2 ==> IsSymbol(s[k]))
    && (s != [] ==> (IsSymbol(s[|s| - 2]) && (IsSymbol(s[|s| - 1]) || s[|s| - 1] == PAD))
                    || (s[|s| - 2] == PAD && s[|s| - 1] == PAD))
  }

  /** What the decoder accepts, apart from line breaks. */
  lemma {:induction false} AcceptsIff(s: Text)
    ensures DecodeQuanta(s).Some? <==> IsQuanta(s)
  {
    if |s| > 4 {
      AcceptsIff(s[4..]);
      QuantaSplit(s);
    }
  }

  lemma QuantaSplit(s: Text)
    requires |s| > 4
    ensures IsQuanta(s) <==> IsQuanta(s[4..]) && forall k :: 0 <= k < 4 ==> IsSymbol(s[k])
  {
    var rest := s[4..];
    assert forall k :: 4 <= k < |s| ==> s[k] == rest[k - 4];
    assert |rest| >= 2 || |s| % 4 != 0;
  }

  /** When the rest is read back, so is the whole. */
  lemma QuantumAndRest(b: seq<byte>)
    requires |b| >= 3 && DecodeQuanta(Encode(b[3..])) == Some(b[3..])
    ensures DecodeQuanta(Encode(b)) == Some(b)
  {
    EncodeQuantum(b);
    FullQuantum(b[0], b[1], b[2], Encode(b[3..]));
    Reassembled(b);
  }

  lemma Reassembled(b: seq<byte>)
    requires |b| >= 3
    ensures b == [b[0], b[1], b[2]] + b[3..]
  {
  }

  lemma Short(b: seq<byte>)
    ensures |b| == 0 ==> b == []
    ensures |b| == 1 ==> b == [b[0]]
    ensures |b| == 2 ==> b == [b[0], b[1]]
  {
  }

  lemma ShortRoundTrip(b: seq<byte>)
    requires |b| < 3
    ensures DecodeQuanta(Encode(b)) == Some(b)
  {
    Short(b);
    if |b| == 1 {
      OneByte(b[0]);
    } else if |b| == 2 {
      TwoBytes(b[0], b[1]);
    }
  }

  lemma {:induction false} QuantaRoundTrip(b: seq<byte>)
    ensures DecodeQuanta(Encode(b)) == Some(b)
  {
    if |b| < 3 {
      ShortRoundTrip(b);
    } else {
      QuantaRoundTrip(b[3..]);
      QuantumAndRest(b);
    }
  }

  /** Decoding what was encoded never reports an error and gives the bytes back, for every length. */
  lemma RoundTrip(b: seq<byte>)
    ensures Decode(Encode(b)) == Some(b)
  {
    EncodeShape(b);
    NoNewlines(Encode(b));
    QuantaRoundTrip(b);
  }
}
