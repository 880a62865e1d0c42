/** The base64 encoding of section 4 of RFC 4648 with padding, as the standard engine of the source
    uses it: the decoder wants full quads, canonical padding and zero trailing bits. */
module Base64 {
  import opened Wrappers
  import opened Messages

  const PAD := '='

  type Sextet = n: int | 0 <= n < 64

  /** Table 1 of RFC 4648. */
  function Symbol(n: Sextet): char
  {
    if n < 26 then ('A' as int + n) as char
    else if n < 52 then ('a' as int + (n - 26)) as char
    else if n < 62 then ('0' as int + (n - 52)) as char
    else if n == 62 then '+'
    else '/'
  }

  function Value(c: char): Option<Sextet>
  {
    if 'A' <= c <= 'Z' then Some(c as int - 'A' as int)
    else if 'a' <= c <= 'z' then Some(c as int - 'a' as int + 26)
    else if '0' <= c <= '9' then Some(c as int - '0' as int + 52)
    else if c == '+' then Some(62)
    else if c == '/' then Some(63)
    else None
  }

  lemma SymbolValue(n: Sextet, c: char)
    ensures Value(Symbol(n)) == Some(n)
    ensures Value(c).Some? ==> Symbol(Value(c).value) == c
    ensures Value(PAD).None?
  {
  }

  function Encode(b: Bytes): string
  {
    if |b| == 0 then ""
    else if |b| == 1 then [Symbol(b[0] / 4), Symbol(b[0] % 4 * 16), PAD, PAD]
    else if |b| == 2 then [Symbol(b[0] / 4), Symbol(b[0] % 4 * 16 + b[1] / 16), Symbol(b[1] % 16 * 4), PAD]
    else EncodeThree(b[0], b[1], b[2]) + Encode(b[3..])
  }

  function EncodeThree(x: Byte, y: Byte, z: Byte): (r: string)
    ensures |r| == 4
  {
    [Symbol(x / 4), Symbol(x % 4 * 16 + y / 16), Symbol(y % 16 * 4 + z / 64), Symbol(z % 64)]
  }

  /** Padding may end the last quad only. */
  function Decode(t: string): Option<Bytes>
  {
    if t == "" then Some([])
    else if |t| < 4 then None
    else if |t| == 4 && t[3] == PAD then DecodePadded(t)
    else
      var head, rest := DecodeQuad(t[..4]), Decode(t[4..]);
      if head.Some? && rest.Some? then Some(head.value + rest.value) else None
  }

  /** Four symbols are three bytes. */
  function DecodeQuad(q: string): Option<Bytes>
    requires |q| == 4
  {
    var a, b, c, d := Value(q[0]), Value(q[1]), Value(q[2]), Value(q[3]);
    if a.None? || b.None? || c.None? || d.None? then None
    else
      Some([a.value * 4 + b.value / 16, b.value % 16 * 16 + c.value / 4, c.value % 4 * 64 + d.value])
  }

  /** A last quad with one or two pads; the bits that no byte needs must be zero. */
  function DecodePadded(q: string): Option<Bytes>
    requires |q| == 4
  {
    var a, b, c := Value(q[0]), Value(q[1]), Value(q[2]);
    if a.None? || b.None? then None
    else
      if q[2] == PAD then
        if b.value % 16 == 0 then Some([a.value * 4 + b.value / 16]) else None
      else if c.Some? && c.value % 4 == 0 then
        Some([a.value * 4 + b.value / 16, b.value % 16 * 16 + c.value / 4])
      else None
  }

  /** Four sextets and three octets hold the same bits. */
  lemma Sextets(a: Sextet, b: Sextet, c: Sextet, d: Sextet)
    ensures var x, y, z := a * 4 + b / 16, b % 16 * 16 + c / 4, c % 4 * 64 + d;
            && x < 256 && y < 256 && z < 256
            && x / 4 == a && x % 4 * 16 + y / 16 == b && y % 16 * 4 + z / 64 == c && z % 64 == d
  {
  }

  lemma Octets(x: Byte, y: Byte, z: Byte)
    ensures var a, b, c, d := x / 4, x % 4 * 16 + y / 16, y % 16 * 4 + z / 64, z % 64;
            && a < 64 && b < 64 && c < 64 && d < 64
            && a * 4 + b / 16 == x && b % 16 * 16 + c / 4 == y && c % 4 * 64 + d == z
  {
  }

  lemma QuadRoundTrip(x: Byte, y: Byte, z: Byte)
    ensures DecodeQuad(EncodeThree(x, y, z)) == Some([x, y, z])
  {
    Octets(x, y, z);
    var q := EncodeThree(x, y, z);
    assert Value(q[0]) == Some(x / 4) by { SymbolValue(x / 4, PAD); }
    assert Value(q[1]) == Some(x % 4 * 16 + y / 16) by { SymbolValue(x % 4 * 16 + y / 16, PAD); }
    assert Value(q[2]) == Some(y % 16 * 4 + z / 64) by { SymbolValue(y % 16 * 4 + z / 64, PAD); }
    assert Value(q[3]) == Some(z % 64) by { SymbolValue(z % 64, PAD); }
  }

  lemma PairRoundTrip(x: Byte, y: Byte)
    ensures DecodePadded(Encode([x, y])) == Some([x, y])
  {
    hide Symbol;
    Octets(x, y, 0);
    var q := Encode([x, y]);
    assert Value(q[0]) == Some(x / 4) by { SymbolValue(x / 4, PAD); }
    assert Value(q[1]) == Some(x % 4 * 16 + y / 16) by { SymbolValue(x % 4 * 16 + y / 16, PAD); }
    assert Value(q[2]) == Some(y % 16 * 4) by { SymbolValue(y % 16 * 4, PAD); }
    SymbolValue(0, PAD);
    hide Value;
    hide Encode;
  }

  lemma LoneRoundTrip(x: Byte)
    ensures DecodePadded(Encode([x])) == Some([x])
  {
    hide Symbol;
    Octets(x, 0, 0);
    var p := Encode([x]);
    assert Value(p[0]) == Some(x / 4) by { SymbolValue(x / 4, PAD); }
    assert Value(p[1]) == Some(x % 4 * 16) by { SymbolValue(x % 4 * 16, PAD); }
    hide Value;
    hide Encode;
  }

  /** Decoding inverts encoding on every byte string. */
  lemma {:induction false} DecodeEncode(b: Bytes)
    ensures Decode(Encode(b)) == Some(b)
  {
    hide EncodeThree;
    hide DecodeQuad;
    hide DecodePadded;
    if |b| == 0 {
    } else if |b| == 1 {
      LoneRoundTrip(b[0]);
      assert b == [b[0]];
    } else if |b| == 2 {
      PairRoundTrip(b[0], b[1]);
      assert b == [b[0], b[1]];
    } else {
      QuadRoundTrip(b[0], b[1], b[2]);
      DecodeEncode(b[3..]);
      QuadThenRest(EncodeThree(b[0], b[1], b[2]), Encode(b[3..]));
      assert b == [b[0], b[1], b[2]] + b[3..];
    }
  }

  /** A quad of plain symbols in front of decodable text. */
  lemma QuadThenRest(q: string, rest: string)
    requires |q| == 4 && DecodeQuad(q).Some? && Decode(rest).Some?
    ensures Decode(q + rest) == Some(DecodeQuad(q).value + Decode(rest).value)
  {
    assert (q + rest)[..4] == q && (q + rest)[4..] == rest;
    SymbolValue(0, q[3]);
  }

  lemma ThreeFromFour(a: Sextet, b: Sextet, c: Sextet, d: Sextet)
    ensures EncodeThree(a * 4 + b / 16, b % 16 * 16 + c / 4, c % 4 * 64 + d) ==
            [Symbol(a), Symbol(b), Symbol(c), Symbol(d)]
  {
    hide Symbol;
    Sextets(a, b, c, d);
  }

  lemma QuadCanonical(q: string)
    requires |q| == 4 && DecodeQuad(q).Some?
    ensures var b := DecodeQuad(q).value;
            |b| == 3 && EncodeThree(b[0], b[1], b[2]) == q
  {
    hide Symbol;
    hide Value;
    hide EncodeThree;
    SymbolValue(0, q[0]);
    SymbolValue(0, q[1]);
    SymbolValue(0, q[2]);
    SymbolValue(0, q[3]);
    var a, b, c, d := Value(q[0]).value, Value(q[1]).value, Value(q[2]).value, Value(q[3]).value;
    ThreeFromFour(a, b, c, d);
    assert q == [Symbol(a), Symbol(b), Symbol(c), Symbol(d)];
  }

  lemma PaddedFromThree(a: Sextet, b: Sextet, c: Sextet)
    ensures b % 16 == 0 ==> Encode([a * 4 + b / 16]) == [Symbol(a), Symbol(b), PAD, PAD]
    ensures c % 4 == 0 ==>
      Encode([a * 4 + b / 16, b % 16 * 16 + c / 4]) == [Symbol(a), Symbol(b), Symbol(c), PAD]
  {
    hide Symbol;
    Sextets(a, b, 0, 0);
    Sextets(a, b, c, 0);
  }

  lemma PaddedCanonical(q: string)
    requires |q| == 4 && q[3] == PAD && DecodePadded(q).Some?
    ensures Encode(DecodePadded(q).value) == q
  {
    SymbolValue(0, q[0]);
    SymbolValue(0, q[1]);
    SymbolValue(0, q[2]);
    var a, b, c := Value(q[0]).value, Value(q[1]).value, Value(q[2]);
    hide Symbol;
    hide Value;
    hide Encode;
    if q[2] == PAD {
      PaddedFromThree(a, b, 0);
      assert q == [Symbol(a), Symbol(b), PAD, PAD];
    } else {
      PaddedFromThree(a, b, c.value);
      assert q == [Symbol(a), Symbol(b), Symbol(c.value), PAD];
    }
  }

  /** The decoder accepts nothing but what the encoder writes. */
  lemma {:induction false} EncodeDecode(t: string)
    requires Decode(t).Some?
    ensures Encode(Decode(t).value) == t
  {
    if t == "" {
    } else if |t| == 4 && t[3] == PAD {
      PaddedCanonical(t);
    } else {
      QuadCanonical(t[..4]);
      EncodeDecode(t[4..]);
      var head, rest := DecodeQuad(t[..4]).value, Decode(t[4..]).value;
      assert (head + rest)[3..] == rest;
      assert t == t[..4] + t[4..];
    }
  }

  /** The text encodes some bytes. */
  ghost predicate Encoded(text: string)
  {
    exists v: Bytes :: Encode(v) == text
  }

  /** A text stands for at most one byte string, and the decoder finds it. */
  lemma DecodesExactly(text: string)
    ensures forall v: Bytes :: Encode(v) == text <==> Decode(text) == Some(v)
    ensures Encoded(text) <==> Decode(text).Some?
  {
    if Decode(text).Some? { EncodeDecode(text); }
    forall v: Bytes ensures Encode(v) == text <==> Decode(text) == Some(v) {
      DecodeEncode(v);
      if Decode(text) == Some(v) { EncodeDecode(text); }
    }
  }

  predicate InAlphabet(c: char)
  {
    c == PAD || Value(c).Some?
  }

  /** Encoded text is four characters for every three bytes begun, all from the alphabet. */
  lemma {:induction false} EncodedText(b: Bytes)
    ensures |Encode(b)| == (|b| + 2) / 3 * 4
    ensures forall i :: 0 <= i < |Encode(b)| ==> InAlphabet(Encode(b)[i])
  {
    hide Symbol;
    hide Value;
    if |b| > 2 {
      FourSymbols(b[0], b[1], b[2]);
      EncodedText(b[3..]);
      hide EncodeThree;
    } else if |b| == 2 {
      FourSymbols(b[0], b[1], 0);
      assert Encode(b) == EncodeThree(b[0], b[1], 0)[..3] + [PAD];
    } else if |b| == 1 {
      FourSymbols(b[0], 0, 0);
      assert Encode(b) == EncodeThree(b[0], 0, 0)[..2] + [PAD, PAD];
    }
  }

  lemma FourSymbols(x: Byte, y: Byte, z: Byte)
    ensures forall i :: 0 <= i < 4 ==> InAlphabet(EncodeThree(x, y, z)[i])
  {
    Octets(x, y, z);
    SymbolValue(x / 4, PAD);
    SymbolValue(x % 4 * 16 + y / 16, PAD);
    SymbolValue(y % 16 * 4 + z / 64, PAD);
    SymbolValue(z % 64, PAD);
  }

  // ---- the table, and the bits ----

  /** Table 1 of RFC 4648. */
  const TABLE := "ABCDEFGHIJKLMNOP" + "QRSTUVWXYZabcdef" + "ghijklmnopqrstuv" + "wxyz0123456789+/"

  lemma SymbolIsTable(n: Sextet)
    ensures |TABLE| == 64 && Symbol(n) == TABLE[n]
  {
    var a, b, c, d := "ABCDEFGHIJKLMNOP", "QRSTUVWXYZabcdef", "ghijklmnopqrstuv", "wxyz0123456789+/";
    assert TABLE == a + b + c + d;
    if n < 16 {
      assert a[n] == Symbol(n);
    } else if n < 32 {
      assert b[n - 16] == Symbol(n);
    } else if n < 48 {
      assert c[n - 32] == Symbol(n);
    } else {
      assert d[n - 48] == Symbol(n);
    }
  }

  /** Which symbol stands for which six bits, at each of the four places of a quad. */
  lemma TableExactly(n: Sextet)
    ensures Encode([n * 4])[0] == TABLE[n]
    ensures Encode([n / 16, n % 16 * 16, 0])[1] == TABLE[n]
    ensures Encode([0, n / 4, n % 4 * 64])[2] == TABLE[n]
    ensures Encode([0, 0, n])[3] == TABLE[n]
  {
    SymbolIsTable(n);
    ThreeBytes(n / 16, n % 16 * 16, 0);
    ThreeBytes(0, n / 4, n % 4 * 64);
    ThreeBytes(0, 0, n);
    SamePlaces(n);
    hide Symbol;
    assert Encode([n * 4])[0] == Symbol(n);
    hide Encode;
  }

  lemma SamePlaces(n: Sextet)
    ensures n * 4 / 4 == n && n / 16 % 4 * 16 + n % 16 * 16 / 16 == n
    ensures n / 4 % 16 * 4 + n % 4 * 64 / 64 == n && n % 64 == n
  {
  }

  lemma ThreeBytes(x: Byte, y: Byte, z: Byte)
    ensures Encode([x, y, z]) == EncodeThree(x, y, z)
  {
    assert [x, y, z][3..] == [];
  }

  /** Bytes to text, with the table for symbols: section 4 of RFC 4648, case by case. */
  lemma QuadsExactly(x: Byte, y: Byte, z: Byte, rest: Bytes)
    ensures Encode([]) == ""
    ensures Encode([x]) == [TABLE[x / 4], TABLE[x % 4 * 16], '=', '=']
    ensures Encode([x, y]) == [TABLE[x / 4], TABLE[x % 4 * 16 + y / 16], TABLE[y % 16 * 4], '=']
    ensures Encode([x, y, z] + rest) ==
            [TABLE[x / 4], TABLE[x % 4 * 16 + y / 16], TABLE[y % 16 * 4 + z / 64], TABLE[z % 64]] + Encode(rest)
  {
    OneExactly(x);
    TwoExactly(x, y);
    Octets(x, y, z);
    SymbolIsTable(x / 4);
    SymbolIsTable(x % 4 * 16 + y / 16);
    SymbolIsTable(y % 16 * 4 + z / 64);
    SymbolIsTable(z % 64);
    ThreeThenRest(x, y, z, rest);
    hide Symbol;
    hide Encode;
  }

  lemma OneExactly(x: Byte)
    ensures Encode([x]) == [TABLE[x / 4], TABLE[x % 4 * 16], '=', '=']
  {
    hide Symbol;
    SymbolIsTable(x / 4);
    SymbolIsTable(x % 4 * 16);
  }

  lemma TwoExactly(x: Byte, y: Byte)
    ensures Encode([x, y]) == [TABLE[x / 4], TABLE[x % 4 * 16 + y / 16], TABLE[y % 16 * 4], '=']
  {
    hide Symbol;
    SymbolIsTable(x / 4);
    SymbolIsTable(x % 4 * 16 + y / 16);
    SymbolIsTable(y % 16 * 4);
  }

  lemma ThreeThenRest(x: Byte, y: Byte, z: Byte, rest: Bytes)
    ensures Encode([x, y, z] + rest) == EncodeThree(x, y, z) + Encode(rest)
  {
    assert ([x, y, z] + rest)[3..] == rest;
  }
}
