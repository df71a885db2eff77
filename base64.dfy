/** The standard base64 encoding of section 4 of RFC 4648 (alphabet of table 1,
    with '=' padding), as `Convert.ToBase64String` produces it, together with a
    strict decoder that is its inverse: it accepts exactly the encodings, so
    padded groups must have zero padding bits (section 3.5 of RFC 4648). */
module Base64 {
  import opened Common

  const Pad: char := '='

  /** The characters of the base64 alphabet. */
  predicate IsAlphabetChar(c: char)
  {
    ('A' <= c <= 'Z') || ('a' <= c <= 'z') || ('0' <= c <= '9') || c == '+' || c == '/'
  }

  /** The character that encodes the 6-bit value `i` (RFC 4648, table 1). */
  function Alphabet(i: int): (c: char)
    requires 0 <= i < 64
    ensures IsAlphabetChar(c)
  {
    if i < 26 then ('A' as int + i) as char
    else if i < 52 then ('a' as int + (i - 26)) as char
    else if i < 62 then ('0' as int + (i - 52)) as char
    else if i == 62 then '+'
    else '/'
  }

  /** The 6-bit value that an alphabet character encodes. */
  function ValueOf(c: char): (i: int)
    requires IsAlphabetChar(c)
    ensures 0 <= i < 64
  {
    if 'A' <= c <= 'Z' then c as int - 'A' as int
    else if 'a' <= c <= 'z' then c as int - 'a' as int + 26
    else if '0' <= c <= '9' then c as int - '0' as int + 52
    else if c == '+' then 62
    else 63
  }

  /** Decoding a character undoes encoding it. */
  lemma ValueOfAlphabet(i: int)
    requires 0 <= i < 64
    ensures ValueOf(Alphabet(i)) == i
  {
  }

  /** Encoding the value of a character gives the character back. */
  lemma AlphabetValueOf(c: char)
    requires IsAlphabetChar(c)
    ensures Alphabet(ValueOf(c)) == c
  {
  }

  /** Three bytes, one 24-bit group, become four characters of 6 bits each,
      the most significant bits first. */
  function EncodeGroup(b0: Byte, b1: Byte, b2: Byte): (r: string)
    ensures |r| == 4 && forall k | 0 <= k < 4 :: IsAlphabetChar(r[k])
  {
    [Alphabet(b0 / 4), Alphabet(b0 % 4 * 16 + b1 / 16), Alphabet(b1 % 16 * 4 + b2 / 64), Alphabet(b2 % 64)]
  }

  /** A final single byte becomes two characters, padded with zero bits, and two pad characters. */
  function EncodeOne(b0: Byte): (r: string)
    ensures |r| == 4 && IsAlphabetChar(r[0]) && IsAlphabetChar(r[1]) && r[2] == Pad && r[3] == Pad
  {
    [Alphabet(b0 / 4), Alphabet(b0 % 4 * 16), Pad, Pad]
  }

  /** A final pair of bytes becomes three characters, padded with zero bits, and one pad character. */
  function EncodeTwo(b0: Byte, b1: Byte): (r: string)
    ensures |r| == 4 && IsAlphabetChar(r[0]) && IsAlphabetChar(r[1]) && IsAlphabetChar(r[2]) && r[3] == Pad
  {
    [Alphabet(b0 / 4), Alphabet(b0 % 4 * 16 + b1 / 16), Alphabet(b1 % 16 * 4), Pad]
  }

  /** The padded base64 encoding of `bytes`: four characters for every started
      group of three bytes, every character from the alphabet or a trailing pad. */
  function Encode(bytes: seq<Byte>): (r: string)
    ensures |r| == 4 * ((|bytes| + 2) / 3)
    ensures forall k | 0 <= k < |r| :: IsAlphabetChar(r[k]) || r[k] == Pad
    ensures |bytes| % 3 == 0 ==> forall k | 0 <= k < |r| :: IsAlphabetChar(r[k])
    ensures 0 < |bytes| ==> IsAlphabetChar(r[0])
    decreases |bytes|
  {
    if |bytes| == 0 then ""
    else if |bytes| == 1 then EncodeOne(bytes[0])
    else if |bytes| == 2 then EncodeTwo(bytes[0], bytes[1])
    else
      var g, rest := EncodeGroup(bytes[0], bytes[1], bytes[2]), Encode(bytes[3..]);
      GroupThenRest(g, rest, |bytes[3..]| % 3 == 0);
      GroupCount(|bytes|);
      g + rest
  }

  /** One more started group of three for three more bytes. */
  lemma GroupCount(n: int)
    requires n >= 3
    ensures (n + 2) / 3 == (n - 3 + 2) / 3 + 1
    ensures n % 3 == (n - 3) % 3
  {
  }

  /** The characters of a full group followed by those of an encoding. */
  lemma GroupThenRest(g: string, rest: string, whole: bool)
    requires |g| == 4 && forall k | 0 <= k < 4 :: IsAlphabetChar(g[k])
    requires forall k | 0 <= k < |rest| :: IsAlphabetChar(rest[k]) || rest[k] == Pad
    requires whole ==> forall k | 0 <= k < |rest| :: IsAlphabetChar(rest[k])
    ensures forall k | 0 <= k < |g + rest| :: IsAlphabetChar((g + rest)[k]) || (g + rest)[k] == Pad
    ensures whole ==> forall k | 0 <= k < |g + rest| :: IsAlphabetChar((g + rest)[k])
    ensures IsAlphabetChar((g + rest)[0])
  {
    forall k | 0 <= k < |g + rest|
      ensures (g + rest)[k] == if k < 4 then g[k] else rest[k - 4]
    {
    }
  }

  /** The first decoded byte: six bits of `i0` and the top two of `i1`. */
  function Byte0(i0: int, i1: int): Byte
    requires 0 <= i0 < 64 && 0 <= i1 < 64
  {
    i0 * 4 + i1 / 16
  }

  /** The second decoded byte: the low four bits of `i1` and the top four of `i2`. */
  function Byte1(i1: int, i2: int): Byte
    requires 0 <= i1 < 64 && 0 <= i2 < 64
  {
    i1 % 16 * 16 + i2 / 4
  }

  /** The third decoded byte: the low two bits of `i2` and the six of `i3`. */
  function Byte2(i2: int, i3: int): Byte
    requires 0 <= i2 < 64 && 0 <= i3 < 64
  {
    i2 % 4 * 64 + i3
  }

  /** Four characters back to the bytes they encode; `last` allows padding,
      and the bits a padded group leaves over must be zero. */
  function DecodeQuad(c0: char, c1: char, c2: char, c3: char, last: bool): Option<seq<Byte>>
  {
    if !(IsAlphabetChar(c0) && IsAlphabetChar(c1)) then None
    else if IsAlphabetChar(c2) && IsAlphabetChar(c3) then
      Some([Byte0(ValueOf(c0), ValueOf(c1)), Byte1(ValueOf(c1), ValueOf(c2)), Byte2(ValueOf(c2), ValueOf(c3))])
    else if last && IsAlphabetChar(c2) && c3 == Pad && ValueOf(c2) % 4 == 0 then
      Some([Byte0(ValueOf(c0), ValueOf(c1)), Byte1(ValueOf(c1), ValueOf(c2))])
    else if last && c2 == Pad && c3 == Pad && ValueOf(c1) % 16 == 0 then
      Some([Byte0(ValueOf(c0), ValueOf(c1))])
    else None
  }

  /** Decodes padded base64; `None` for text that no byte string encodes to. */
  function Decode(s: string): Option<seq<Byte>>
    decreases |s|
  {
    if |s| == 0 then Some([])
    else if |s| < 4 then None
    else
      match DecodeQuad(s[0], s[1], s[2], s[3], |s| == 4)
      case None => None
      case Some(head) =>
        match Decode(s[4..])
        case None => None
        case Some(tail) => Some(head + tail)
  }

  /** The bit fields of one group put back together give the bytes again. */
  lemma Reassemble(b0: Byte, b1: Byte, b2: Byte)
    ensures Byte0(b0 / 4, b0 % 4 * 16 + b1 / 16) == b0
    ensures Byte1(b0 % 4 * 16 + b1 / 16, b1 % 16 * 4 + b2 / 64) == b1
    ensures Byte2(b1 % 16 * 4 + b2 / 64, b2 % 64) == b2
  {
    assert (b0 % 4 * 16 + b1 / 16) / 16 == b0 % 4;
    assert (b0 % 4 * 16 + b1 / 16) % 16 == b1 / 16;
    assert (b1 % 16 * 4 + b2 / 64) / 4 == b1 % 16;
    assert (b1 % 16 * 4 + b2 / 64) % 4 == b2 / 64;
  }

  lemma GroupRoundTrip(b0: Byte, b1: Byte, b2: Byte, last: bool)
    ensures var r := EncodeGroup(b0, b1, b2); DecodeQuad(r[0], r[1], r[2], r[3], last) == Some([b0, b1, b2])
  {
    ValueOfAlphabet(b0 / 4);
    ValueOfAlphabet(b0 % 4 * 16 + b1 / 16);
    ValueOfAlphabet(b1 % 16 * 4 + b2 / 64);
    ValueOfAlphabet(b2 % 64);
    Reassemble(b0, b1, b2);
  }

  lemma OneRoundTrip(b0: Byte)
    ensures var r := EncodeOne(b0); DecodeQuad(r[0], r[1], r[2], r[3], true) == Some([b0])
  {
    ValueOfAlphabet(b0 / 4);
    ValueOfAlphabet(b0 % 4 * 16);
    assert b0 % 4 * 16 % 16 == 0;
    Reassemble(b0, 0, 0);
  }

  lemma TwoRoundTrip(b0: Byte, b1: Byte)
    ensures var r := EncodeTwo(b0, b1); DecodeQuad(r[0], r[1], r[2], r[3], true) == Some([b0, b1])
  {
    ValueOfAlphabet(b0 / 4);
    ValueOfAlphabet(b0 % 4 * 16 + b1 / 16);
    ValueOfAlphabet(b1 % 16 * 4);
    assert b1 % 16 * 4 % 4 == 0;
    Reassemble(b0, b1, 0);
  }

  /** Decoding a string that starts with a full group decodes the group and then the rest. */
  lemma DecodeCons(g: string, tail: string, head: seq<Byte>, rest: seq<Byte>)
    requires |g| == 4
    requires DecodeQuad(g[0], g[1], g[2], g[3], tail == "") == Some(head)
    requires Decode(tail) == Some(rest)
    ensures Decode(g + tail) == Some(head + rest)
  {
    var s := g + tail;
    assert s[0] == g[0] && s[1] == g[1] && s[2] == g[2] && s[3] == g[3];
    assert s[4..] == tail;
  }

  /** The round trip for a single last byte. */
  lemma LastOneRoundTrip(bytes: seq<Byte>)
    requires |bytes| == 1
    ensures Decode(Encode(bytes)) == Some(bytes)
  {
    var r := EncodeOne(bytes[0]);
    assert Encode(bytes) == r;
    OneRoundTrip(bytes[0]);
    DecodeCons(r, "", [bytes[0]], []);
    assert r + "" == r;
    assert [bytes[0]] + [] == bytes;
  }

  /** The round trip for a last pair of bytes. */
  lemma LastTwoRoundTrip(bytes: seq<Byte>)
    requires |bytes| == 2
    ensures Decode(Encode(bytes)) == Some(bytes)
  {
    var r := EncodeTwo(bytes[0], bytes[1]);
    assert Encode(bytes) == r;
    TwoRoundTrip(bytes[0], bytes[1]);
    assert bytes == [bytes[0], bytes[1]];
    assert |r| == 4 && r + "" == r;
    assert Decode("") == Some([]);
    DecodeCons(r, "", [bytes[0], bytes[1]], []);
    assert [bytes[0], bytes[1]] + [] == bytes;
  }

  lemma SplitThree(s: seq<Byte>)
    requires |s| >= 3
    ensures [s[0], s[1], s[2]] + s[3..] == s
  {
  }

  /** Decoding the encoding of any byte string gives that byte string back. */
  lemma {:induction false} RoundTrip(bytes: seq<Byte>)
    ensures Decode(Encode(bytes)) == Some(bytes)
    decreases |bytes|
  {
    if |bytes| == 1 {
      LastOneRoundTrip(bytes);
    } else if |bytes| == 2 {
      LastTwoRoundTrip(bytes);
    } else if |bytes| >= 3 {
      var g := EncodeGroup(bytes[0], bytes[1], bytes[2]);
      var tail := Encode(bytes[3..]);
      assert Encode(bytes) == g + tail;
      GroupRoundTrip(bytes[0], bytes[1], bytes[2], tail == "");
      RoundTrip(bytes[3..]);
      DecodeCons(g, tail, [bytes[0], bytes[1], bytes[2]], bytes[3..]);
      SplitThree(bytes);
    }
  }

  /** The bit fields of decoded bytes, split again, give the 6-bit values back. */
  lemma Split(i0: int, i1: int, i2: int, i3: int)
    requires 0 <= i0 < 64 && 0 <= i1 < 64 && 0 <= i2 < 64 && 0 <= i3 < 64
    ensures Byte0(i0, i1) / 4 == i0
    ensures Byte0(i0, i1) % 4 * 16 + Byte1(i1, i2) / 16 == i1
    ensures Byte1(i1, i2) % 16 * 4 + Byte2(i2, i3) / 64 == i2
    ensures Byte2(i2, i3) % 64 == i3
  {
    assert Byte0(i0, i1) % 4 == i1 / 16;
    assert Byte1(i1, i2) / 16 == i1 % 16;
    assert Byte1(i1, i2) % 16 == i2 / 4;
    assert Byte2(i2, i3) / 64 == i2 % 4;
  }

  /** A full group that decodes re-encodes to the same four characters. */
  lemma GroupOfDecoded(c0: char, c1: char, c2: char, c3: char)
    requires IsAlphabetChar(c0) && IsAlphabetChar(c1) && IsAlphabetChar(c2) && IsAlphabetChar(c3)
    ensures EncodeGroup(Byte0(ValueOf(c0), ValueOf(c1)), Byte1(ValueOf(c1), ValueOf(c2)),
                        Byte2(ValueOf(c2), ValueOf(c3))) == [c0, c1, c2, c3]
  {
    Split(ValueOf(c0), ValueOf(c1), ValueOf(c2), ValueOf(c3));
    AlphabetValueOf(c0);
    AlphabetValueOf(c1);
    AlphabetValueOf(c2);
    AlphabetValueOf(c3);
  }

  /** A group of three characters and a pad that decodes re-encodes to the same four characters. */
  lemma TwoOfDecoded(c0: char, c1: char, c2: char)
    requires IsAlphabetChar(c0) && IsAlphabetChar(c1) && IsAlphabetChar(c2) && ValueOf(c2) % 4 == 0
    ensures EncodeTwo(Byte0(ValueOf(c0), ValueOf(c1)), Byte1(ValueOf(c1), ValueOf(c2))) == [c0, c1, c2, Pad]
  {
    var v0, v1, v2 := ValueOf(c0), ValueOf(c1), ValueOf(c2);
    Split(v0, v1, v2, 0);
    assert Byte1(v1, v2) % 16 * 4 == v2;
    AlphabetValueOf(c0);
    AlphabetValueOf(c1);
    AlphabetValueOf(c2);
  }

  /** A group of two characters and two pads that decodes re-encodes to the same four characters. */
  lemma OneOfDecoded(c0: char, c1: char)
    requires IsAlphabetChar(c0) && IsAlphabetChar(c1) && ValueOf(c1) % 16 == 0
    ensures EncodeOne(Byte0(ValueOf(c0), ValueOf(c1))) == [c0, c1, Pad, Pad]
  {
    var v0, v1 := ValueOf(c0), ValueOf(c1);
    Split(v0, v1, 0, 0);
    assert Byte0(v0, v1) % 4 * 16 == v1;
    AlphabetValueOf(c0);
    AlphabetValueOf(c1);
  }

  /** A group that decodes re-encodes to the same four characters. */
  lemma QuadOfDecoded(c0: char, c1: char, c2: char, c3: char, last: bool, head: seq<Byte>)
    requires DecodeQuad(c0, c1, c2, c3, last) == Some(head)
    ensures 1 <= |head| <= 3 && (|head| < 3 ==> last)
    ensures Encode(head) == [c0, c1, c2, c3]
  {
    if IsAlphabetChar(c2) && IsAlphabetChar(c3) {
      GroupOfDecoded(c0, c1, c2, c3);
      assert head[3..] == [];
      assert Encode(head) == EncodeGroup(head[0], head[1], head[2]) + Encode([]);
    } else if IsAlphabetChar(c2) && c3 == Pad {
      TwoOfDecoded(c0, c1, c2);
    } else {
      OneOfDecoded(c0, c1);
    }
  }

  /** Encoding a full leading group of three bytes encodes the group and then the rest. */
  lemma EncodeGroupCons(head: seq<Byte>, tail: seq<Byte>)
    requires |head| == 3
    ensures Encode(head + tail) == Encode(head) + Encode(tail)
  {
    var b := head + tail;
    assert b[0] == head[0] && b[1] == head[1] && b[2] == head[2];
    assert b[3..] == tail;
    assert head[3..] == [];
  }

  /** An accepted non-empty string splits into an accepted first group and an accepted rest. */
  lemma DecodeUncons(s: string) returns (head: seq<Byte>, tail: seq<Byte>)
    requires |s| > 0 && Decode(s).Some?
    ensures |s| >= 4 && Decode(s) == Some(head + tail) && Decode(s[4..]) == Some(tail)
    ensures DecodeQuad(s[0], s[1], s[2], s[3], |s| == 4) == Some(head)
  {
    head := DecodeQuad(s[0], s[1], s[2], s[3], |s| == 4).value;
    tail := Decode(s[4..]).value;
  }

  /** Encodings of a first group and of the rest put together. */
  lemma EncodeJoin(s: string, head: seq<Byte>, tail: seq<Byte>)
    requires |s| >= 4 && Encode(head) == s[..4] && Encode(tail) == s[4..]
    requires |s| > 4 ==> |head| == 3
    ensures Encode(head + tail) == s
  {
    if |s| == 4 {
      assert tail == [];
      assert head + tail == head;
    } else {
      EncodeGroupCons(head, tail);
    }
  }

  /** Every string the decoder accepts is the encoding of what it decodes to:
      together with `RoundTrip`, `Decode(s) == Some(b)` exactly when
      `s == Encode(b)`. */
  lemma {:induction false} EncodeOfDecode(s: string, bytes: seq<Byte>)
    requires Decode(s) == Some(bytes)
    ensures Encode(bytes) == s
    decreases |s|
  {
    if |s| > 0 {
      var head, tail := DecodeUncons(s);
      QuadOfDecoded(s[0], s[1], s[2], s[3], |s| == 4, head);
      assert s[..4] == [s[0], s[1], s[2], s[3]];
      EncodeOfDecode(s[4..], tail);
      EncodeJoin(s, head, tail);
    }
  }

  /** The decoder accepts exactly the encodings, each for its own bytes. */
  lemma DecodeExact(s: string, bytes: seq<Byte>)
    ensures Decode(s) == Some(bytes) <==> s == Encode(bytes)
  {
    if Decode(s) == Some(bytes) {
      EncodeOfDecode(s, bytes);
    }
    if s == Encode(bytes) {
      RoundTrip(bytes);
    }
  }

  /** Encoding is injective: different byte strings have different encodings. */
  lemma EncodeInjective(a: seq<Byte>, b: seq<Byte>)
    requires Encode(a) == Encode(b)
    ensures a == b
  {
    RoundTrip(a);
    RoundTrip(b);
  }
}
