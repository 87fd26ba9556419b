/**
 UTF-8 by definition (section 3 of RFC 3629): the bytes the reader accepts as a
 string are exactly the encodings of sequences of Unicode scalar values
 (`read_str` in `runtime/src/serialize.rs`).
 */
module Utf8 {
  import opened Values
  import opened Wire
  import opened Quoting

  /** The one to four bytes of a scalar value. */
  function EncodeScalar(c: Scalar): seq<u8> {
    if c < 0x80 then [c]
    else if c < 0x800 then [0xC0 + c / 64, 0x80 + c % 64]
    else if c < 0x1_0000 then [0xE0 + c / 4096, 0x80 + c / 64 % 64, 0x80 + c % 64]
    else [0xF0 + c / 262144, 0x80 + c / 4096 % 64, 0x80 + c / 64 % 64, 0x80 + c % 64]
  }

  function EncodeText(s: seq<Scalar>): seq<u8> {
    if s == [] then [] else EncodeScalar(s[0]) + EncodeText(s[1..])
  }

  lemma TwoBytes(c: Scalar, rest: seq<u8>)
    requires 0x80 <= c < 0x800
    ensures CharLength(EncodeScalar(c) + rest) == 2
  {
    var bs := EncodeScalar(c) + rest;
    assert bs[0] == 0xC0 + c / 64 && bs[1] == 0x80 + c % 64;
  }

  lemma ThreeBytes(c: Scalar, rest: seq<u8>)
    requires 0x800 <= c < 0x1_0000
    ensures CharLength(EncodeScalar(c) + rest) == 3
  {
    var bs := EncodeScalar(c) + rest;
    assert bs[0] == 0xE0 + c / 4096 && bs[1] == 0x80 + c / 64 % 64 && bs[2] == 0x80 + c % 64;
    assert c == 4096 * (c / 4096) + 64 * (c / 64 % 64) + c % 64;
  }

  lemma FourBytes(c: Scalar, rest: seq<u8>)
    requires 0x1_0000 <= c
    ensures CharLength(EncodeScalar(c) + rest) == 4
  {
    var bs := EncodeScalar(c) + rest;
    LeadingSix(c);
    assert bs[0] == 0xF0 + c / 262144 && bs[1] == 0x80 + c / 4096 % 64;
    assert bs[2] == 0x80 + c / 64 % 64 && bs[3] == 0x80 + c % 64;
  }

  lemma LeadingSix(c: int)
    requires 0x1_0000 <= c < 0x11_0000
    ensures c / 262144 <= 4 && (c / 262144 == 0 ==> c / 4096 % 64 >= 16) && (c / 262144 == 4 ==> c / 4096 % 64 < 16)
  {
    var k := c / 4096;
    assert k / 64 == c / 262144 && 16 <= k < 272;
  }

  /** An encoded scalar is recognised whole, whatever follows. */
  lemma ScalarRecognised(c: Scalar, rest: seq<u8>)
    ensures CharLength(EncodeScalar(c) + rest) == |EncodeScalar(c)|
  {
    hide CharLength;
    if c < 0x80 {
      OneByte(c, rest);
    } else if c < 0x800 {
      TwoBytes(c, rest);
    } else if c < 0x1_0000 {
      ThreeBytes(c, rest);
    } else {
      FourBytes(c, rest);
    }
  }

  lemma OneByte(c: Scalar, rest: seq<u8>)
    requires c < 0x80
    ensures CharLength(EncodeScalar(c) + rest) == 1
  {
  }

  /** Whatever is recognised is the encoding of one scalar value. */
  lemma RecognisedIsScalar(bs: seq<u8>) returns (c: Scalar)
    requires CharLength(bs) > 0
    ensures bs[..CharLength(bs)] == EncodeScalar(c)
  {
    var n := CharLength(bs);
    if n == 1 {
      c := bs[0];
    } else if n == 2 {
      c := PairValue(bs[0], bs[1]);
    } else if n == 3 {
      c := TripleValue(bs[0], bs[1], bs[2]);
    } else {
      c := QuadValue(bs[0], bs[1], bs[2], bs[3]);
    }
  }

  lemma PairValue(a: u8, b: u8) returns (c: Scalar)
    requires 0xC2 <= a < 0xE0 && 0x80 <= b < 0xC0
    ensures EncodeScalar(c) == [a, b]
  {
    c := (a - 0xC0) * 64 + (b - 0x80);
    assert c / 64 == a - 0xC0 && c % 64 == b - 0x80;
  }

  lemma TripleValue(a: u8, b: u8, d: u8) returns (c: Scalar)
    requires 0xE0 <= a < 0xF0 && 0x80 <= b < 0xC0 && 0x80 <= d < 0xC0
    requires (a == 0xE0 ==> b >= 0xA0) && (a == 0xED ==> b < 0xA0)
    ensures EncodeScalar(c) == [a, b, d]
  {
    var v := (a - 0xE0) * 4096 + (b - 0x80) * 64 + (d - 0x80);
    assert v / 64 == (a - 0xE0) * 64 + (b - 0x80) && v % 64 == d - 0x80;
    assert v / 4096 == a - 0xE0;
    c := v;
  }

  lemma QuadValue(a: u8, b: u8, d: u8, e: u8) returns (c: Scalar)
    requires 0xF0 <= a < 0xF5 && 0x80 <= b < 0xC0 && 0x80 <= d < 0xC0 && 0x80 <= e < 0xC0
    requires (a == 0xF0 ==> b >= 0x90) && (a == 0xF4 ==> b < 0x90)
    ensures EncodeScalar(c) == [a, b, d, e]
  {
    var v := (a - 0xF0) * 262144 + (b - 0x80) * 4096 + (d - 0x80) * 64 + (e - 0x80);
    assert v / 64 == (a - 0xF0) * 4096 + (b - 0x80) * 64 + (d - 0x80) && v % 64 == e - 0x80;
    assert v / 4096 == (a - 0xF0) * 64 + (b - 0x80);
    assert v / 262144 == a - 0xF0;
    c := v;
  }

  /** Encoded text is accepted. */
  lemma {:induction false} TextAccepted(s: seq<Scalar>)
    ensures ValidUtf8(EncodeText(s))
  {
    if s == [] {
    } else {
      hide CharLength, EncodeScalar;
      var head, tail := EncodeScalar(s[0]), EncodeText(s[1..]);
      TextAccepted(s[1..]);
      ScalarRecognised(s[0], tail);
      assert |head| > 0 by { NotEmpty(s[0]); }
      assert (head + tail)[|head|..] == tail;
    }
  }

  lemma NotEmpty(c: Scalar)
    ensures |EncodeScalar(c)| > 0
  {
  }

  /** Accepted bytes are encoded text. */
  lemma {:induction false} AcceptedIsText(bs: seq<u8>) returns (s: seq<Scalar>)
    requires ValidUtf8(bs)
    ensures EncodeText(s) == bs
    decreases |bs|
  {
    hide ValidUtf8, CharLength, EncodeScalar, EncodeText;
    if bs == [] {
      s := [];
      assert EncodeText([]) == [] by { NoText(); }
    } else {
      FirstAccepted(bs);
      var n := CharLength(bs);
      var c := RecognisedIsScalar(bs);
      var more := AcceptedIsText(bs[n..]);
      s := [c] + more;
      TextPrepended(c, more);
      assert bs == bs[..n] + bs[n..];
    }
  }

  lemma NoText()
    ensures EncodeText([]) == []
  {
  }

  lemma FirstAccepted(bs: seq<u8>)
    requires ValidUtf8(bs) && bs != []
    ensures CharLength(bs) > 0 && ValidUtf8(bs[CharLength(bs)..])
  {
    hide CharLength;
  }

  lemma TextPrepended(c: Scalar, more: seq<Scalar>)
    ensures EncodeText([c] + more) == EncodeScalar(c) + EncodeText(more)
  {
    assert ([c] + more)[1..] == more;
  }

  /** The reader's check holds exactly for the encodings of scalar values. */
  lemma Utf8Exactly(bs: seq<u8>)
    ensures ValidUtf8(bs) <==> exists s :: EncodeText(s) == bs
  {
    hide ValidUtf8, EncodeText;
    if ValidUtf8(bs) {
      var s := AcceptedIsText(bs);
    }
    forall s | EncodeText(s) == bs ensures ValidUtf8(bs) {
      TextAccepted(s);
    }
  }
}
