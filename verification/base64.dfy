/**
 * The "base64" encoding of section 4 of RFC 4648, without padding: the
 * encoding the lobby ids are written in (`STANDARD_NO_PAD` at
 * src/game.rs:111). Three octets become four symbols of the 64-symbol
 * alphabet; a final group of one or two octets becomes two or three symbols
 * and no `=` is appended. `Decode` is the strict inverse (it refuses
 * symbols outside the alphabet, a length that is 1 modulo 4 and non-zero
 * trailing bits) and serves as the partner of `Encode`.
 */
module Base64 {
  import opened Wrappers

  /** One octet, as the `u8` elements of the random buffer. */
  type byte = x: int | 0 <= x < 256

  /** The value of one base64 symbol. */
  type sextet = x: int | 0 <= x < 64

  /** Membership in the alphabet of Table 1 of RFC 4648. */
  predicate IsSymbol(c: char) {
    ('A' <= c <= 'Z') || ('a' <= c <= 'z') || ('0' <= c <= '9') || c == '+' || c == '/'
  }

  /** Table 1 of RFC 4648: 0..25 are 'A'..'Z', 26..51 'a'..'z', 52..61 '0'..'9', then '+' and '/'. */
  function Symbol(v: sextet): (c: char)
    ensures IsSymbol(c)
  {
    if v < 26 then ('A' as int + v) as char
    else if v < 52 then ('a' as int + (v - 26)) as char
    else if v < 62 then ('0' as int + (v - 52)) as char
    else if v == 62 then '+'
    else '/'
  }

  /** The value a symbol stands for; `None` for a character outside the alphabet. */
  function Value(c: char): (r: Option<sextet>)
    ensures r.Some? <==> IsSymbol(c)
  {
    if 'A' <= c <= 'Z' then Some(c as int - 'A' as int)
    else if 'a' <= c <= 'z' then Some(c as int - 'a' as int + 26)
    else if '0' <= c <= '9' then Some(c as int - '0' as int + 52)
    else if c == '+' then Some(62)
    else if c == '/' then Some(63)
    else None
  }

  lemma SymbolValue(v: sextet)
    ensures Value(Symbol(v)) == Some(v)
  {
  }

  lemma ValueSymbol(c: char)
    requires IsSymbol(c)
    ensures Symbol(Value(c).value) == c
  {
  }

  // The 24 bits of a group b0 b1 b2 are cut into four 6-bit values:
  // b0[7..2] | b0[1..0] b1[7..4] | b1[3..0] b2[7..6] | b2[5..0].

  function Bits0(b0: byte): sextet { b0 / 4 }
  function Bits1(b0: byte, b1: byte): sextet { b0 % 4 * 16 + b1 / 16 }
  function Bits2(b1: byte, b2: byte): sextet { b1 % 16 * 4 + b2 / 64 }
  function Bits3(b2: byte): sextet { b2 % 64 }

  // ... and put back together from them.

  function Octet0(c0: sextet, c1: sextet): byte { c0 as int * 4 + c1 as int / 16 }
  function Octet1(c1: sextet, c2: sextet): byte { c1 as int % 16 * 16 + c2 as int / 4 }
  function Octet2(c2: sextet, c3: sextet): byte { c2 as int % 4 * 64 + c3 as int }

  /** The number of symbols the unpadded encoding of `n` octets takes. */
  function EncodedLength(n: nat): nat {
    (4 * n + 2) / 3
  }

  /** Four symbols for a full group of three octets. */
  function EncodeGroup(b0: byte, b1: byte, b2: byte): seq<char> {
    [Symbol(Bits0(b0)), Symbol(Bits1(b0, b1)), Symbol(Bits2(b1, b2)), Symbol(Bits3(b2))]
  }

  /** Unpadded base64 of `data`: every symbol is in the alphabet and the length is ceil(4n/3). */
  function Encode(data: seq<byte>): (s: string)
    ensures |s| == EncodedLength(|data|)
    ensures forall i :: 0 <= i < |s| ==> IsSymbol(s[i])
    decreases |data|
  {
    if |data| == 0 then []
    else if |data| == 1 then [Symbol(Bits0(data[0])), Symbol(Bits1(data[0], 0))]
    else if |data| == 2 then
      [Symbol(Bits0(data[0])), Symbol(Bits1(data[0], data[1])), Symbol(Bits2(data[1], 0))]
    else EncodeGroup(data[0], data[1], data[2]) + Encode(data[3..])
  }

  /** The three octets of a full group of four symbols. */
  function DecodeGroup(s: string): Option<seq<byte>>
    requires |s| == 4
  {
    match (Value(s[0]), Value(s[1]), Value(s[2]), Value(s[3]))
    case (Some(c0), Some(c1), Some(c2), Some(c3)) =>
      Some([Octet0(c0, c1), Octet1(c1, c2), Octet2(c2, c3)])
    case _ => None
  }

  /** A final group of fewer than four symbols; its unused low bits must be zero. */
  function DecodeTail(s: string): Option<seq<byte>>
    requires |s| < 4
  {
    if |s| == 0 then Some([])
    else if |s| == 1 then None
    else if |s| == 2 then
      match (Value(s[0]), Value(s[1]))
      case (Some(c0), Some(c1)) =>
        if c1 % 16 == 0 then Some([Octet0(c0, c1)]) else None
      case _ => None
    else
      match (Value(s[0]), Value(s[1]), Value(s[2]))
      case (Some(c0), Some(c1), Some(c2)) =>
        if c2 % 4 == 0 then Some([Octet0(c0, c1), Octet1(c1, c2)]) else None
      case _ => None
  }

  /** Strict unpadded decoding: `None` for a foreign symbol, a dangling symbol or non-zero trailing bits. */
  function Decode(s: string): Option<seq<byte>>
    decreases |s|
  {
    if |s| < 4 then DecodeTail(s)
    else
      match (DecodeGroup(s[..4]), Decode(s[4..]))
      case (Some(g), Some(rest)) => Some(g + rest)
      case _ => None
  }

  lemma SplitJoin(b0: byte, b1: byte, b2: byte)
    ensures Octet0(Bits0(b0), Bits1(b0, b1)) == b0
    ensures Octet1(Bits1(b0, b1), Bits2(b1, b2)) == b1
    ensures Octet2(Bits2(b1, b2), Bits3(b2)) == b2
  {
  }

  lemma JoinSplit(c0: sextet, c1: sextet, c2: sextet, c3: sextet)
    ensures Bits0(Octet0(c0, c1)) == c0
    ensures Bits1(Octet0(c0, c1), Octet1(c1, c2)) == c1
    ensures Bits2(Octet1(c1, c2), Octet2(c2, c3)) == c2
    ensures Bits3(Octet2(c2, c3)) == c3
  {
  }

  lemma DecodePair(c0: sextet, c1: sextet)
    requires c1 % 16 == 0
    ensures Decode([Symbol(c0), Symbol(c1)]) == Some([Octet0(c0, c1)])
  {
    SymbolValue(c0);
    SymbolValue(c1);
  }

  lemma DecodeTriple(c0: sextet, c1: sextet, c2: sextet)
    requires c2 % 4 == 0
    ensures Decode([Symbol(c0), Symbol(c1), Symbol(c2)]) == Some([Octet0(c0, c1), Octet1(c1, c2)])
  {
    SymbolValue(c0);
    SymbolValue(c1);
    SymbolValue(c2);
  }

  lemma TrailingBitsZero(b: byte)
    ensures Bits1(b, 0) % 16 == 0 && Bits2(b, 0) % 4 == 0
  {
    var k, m := b % 4, b % 16;
    assert Bits1(b, 0) == 16 * k;
    assert Bits2(b, 0) == 4 * m;
  }

  lemma EncodeShort(data: seq<byte>)
    requires 1 <= |data| <= 2
    ensures |data| == 1 ==> Encode(data) == [Symbol(Bits0(data[0])), Symbol(Bits1(data[0], 0))]
    ensures |data| == 2 ==>
      Encode(data) == [Symbol(Bits0(data[0])), Symbol(Bits1(data[0], data[1])), Symbol(Bits2(data[1], 0))]
  {
  }

  lemma OneOctetRoundTrip(data: seq<byte>)
    requires |data| == 1
    ensures Decode(Encode(data)) == Some(data)
  {
    var b0 := data[0];
    assert Decode(Encode(data)) == Some([Octet0(Bits0(b0), Bits1(b0, 0))]) by {
      EncodeShort(data);
      TrailingBitsZero(b0);
      DecodePair(Bits0(b0), Bits1(b0, 0));
    }
    assert Octet0(Bits0(b0), Bits1(b0, 0)) == b0 by { SplitJoin(b0, 0, 0); }
    assert data == [b0];
  }

  lemma TwoOctetRoundTrip(data: seq<byte>)
    requires |data| == 2
    ensures Decode(Encode(data)) == Some(data)
  {
    var b0, b1 := data[0], data[1];
    var c0, c1, c2 := Bits0(b0), Bits1(b0, b1), Bits2(b1, 0);
    assert Decode(Encode(data)) == Some([Octet0(c0, c1), Octet1(c1, c2)]) by {
      EncodeShort(data);
      TrailingBitsZero(b1);
      DecodeTriple(c0, c1, c2);
    }
    assert Octet0(c0, c1) == b0 && Octet1(c1, c2) == b1 by { SplitJoin(b0, b1, 0); }
    assert data == [b0, b1];
  }

  lemma GroupRoundTrip(b0: byte, b1: byte, b2: byte)
    ensures DecodeGroup(EncodeGroup(b0, b1, b2)) == Some([b0, b1, b2])
  {
    var c0, c1, c2, c3 := Bits0(b0), Bits1(b0, b1), Bits2(b1, b2), Bits3(b2);
    assert DecodeGroup(EncodeGroup(b0, b1, b2)) == Some([Octet0(c0, c1), Octet1(c1, c2), Octet2(c2, c3)]) by {
      SymbolValue(c0);
      SymbolValue(c1);
      SymbolValue(c2);
      SymbolValue(c3);
    }
    assert Octet0(c0, c1) == b0 && Octet1(c1, c2) == b1 && Octet2(c2, c3) == b2 by {
      SplitJoin(b0, b1, b2);
    }
  }

  lemma DecodeAppend(g: string, t: string)
    requires |g| == 4 && DecodeGroup(g).Some? && Decode(t).Some?
    ensures Decode(g + t) == Some(DecodeGroup(g).value + Decode(t).value)
  {
    assert (g + t)[..4] == g && (g + t)[4..] == t;
  }

  lemma EncodeStep(data: seq<byte>)
    requires |data| >= 3
    ensures Encode(data) == EncodeGroup(data[0], data[1], data[2]) + Encode(data[3..])
  {
  }

  lemma GroupStep(data: seq<byte>)
    requires |data| >= 3
    requires Decode(Encode(data[3..])) == Some(data[3..])
    ensures Decode(EncodeGroup(data[0], data[1], data[2]) + Encode(data[3..])) == Some(data)
  {
    var g, t := EncodeGroup(data[0], data[1], data[2]), Encode(data[3..]);
    assert Decode(g + t) == Some(data[..3] + data[3..]) by {
      GroupRoundTrip(data[0], data[1], data[2]);
      assert [data[0], data[1], data[2]] == data[..3];
      DecodeAppend(g, t);
    }
    assert data[..3] + data[3..] == data;
  }

  /** Decoding undoes encoding. */
  lemma {:induction false} RoundTrip(data: seq<byte>)
    ensures Decode(Encode(data)) == Some(data)
    decreases |data|
  {
    if |data| == 1 {
      OneOctetRoundTrip(data);
    } else if |data| == 2 {
      TwoOctetRoundTrip(data);
    } else if |data| >= 3 {
      RoundTrip(data[3..]);
      GroupStep(data);
      EncodeStep(data);
    }
  }

  lemma GroupCanonical(s: string)
    requires |s| == 4 && DecodeGroup(s).Some?
    ensures var g := DecodeGroup(s).value; EncodeGroup(g[0], g[1], g[2]) == s
  {
    var c0, c1, c2, c3 := Value(s[0]).value, Value(s[1]).value, Value(s[2]).value, Value(s[3]).value;
    ValueSymbol(s[0]); ValueSymbol(s[1]); ValueSymbol(s[2]); ValueSymbol(s[3]);
    JoinSplit(c0, c1, c2, c3);
  }

  lemma TailCanonical(s: string)
    requires |s| == 2 || |s| == 3
    requires Decode(s).Some?
    ensures Encode(Decode(s).value) == s
  {
    var c0, c1 := Value(s[0]).value, Value(s[1]).value;
    ValueSymbol(s[0]); ValueSymbol(s[1]);
    if |s| == 2 {
      JoinSplit(c0, c1, 0, 0);
    } else {
      var c2 := Value(s[2]).value;
      ValueSymbol(s[2]);
      JoinSplit(c0, c1, c2, 0);
    }
  }

  /** A decoded string of four or more symbols is a decoded full group
      followed by the decoding of the rest. */
  lemma DecodeSplits(s: string, data: seq<byte>)
    requires |s| >= 4 && Decode(s) == Some(data)
    ensures DecodeGroup(s[..4]).Some? && Decode(s[4..]).Some?
    ensures |data| >= 3
    ensures data[..3] == DecodeGroup(s[..4]).value && data[3..] == Decode(s[4..]).value
  {
    var g := DecodeGroup(s[..4]).value;
    assert |g| == 3;
    assert data == g + Decode(s[4..]).value;
  }

  /** Whatever `Decode` accepts is exactly the encoding of what it returns. */
  lemma {:induction false} DecodeCanonical(s: string, data: seq<byte>)
    requires Decode(s) == Some(data)
    ensures Encode(data) == s
    decreases |s|
  {
    if |s| == 2 || |s| == 3 {
      TailCanonical(s);
    } else if |s| >= 4 {
      DecodeSplits(s, data);
      GroupCanonical(s[..4]);
      DecodeCanonical(s[4..], data[3..]);
      EncodeStep(data);
      assert s == s[..4] + s[4..];
    }
  }

  /** Distinct random buffers give distinct ids. */
  lemma EncodeInjective(a: seq<byte>, b: seq<byte>)
    requires Encode(a) == Encode(b)
    ensures a == b
  {
    RoundTrip(a);
    RoundTrip(b);
  }
}
