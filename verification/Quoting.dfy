/**
 The debug quoting of strings (`quote_str` in `runtime/src/interp/mod.rs`) and
 the language's own reading of a single-quoted literal: the lexer's string scan
 (`pkgs/cli/lexer/lexer.thera`) followed by the parser's splitter
 (`pkgs/cli/parser/parser.thera`).  Both work on Unicode code points.
 */
module Quoting {
  import opened Values

  type Scalar = c: int | 0 <= c < 0x110000 && !(0xD800 <= c < 0xE000)

  const NUL: Scalar := 0
  const DOLLAR: Scalar := 0x24
  const QUOTE: Scalar := 0x27
  const BACKSLASH: Scalar := 0x5C
  const LBRACE: Scalar := 0x7B
  const RBRACE: Scalar := 0x7D

  predicate IsDigit(c: Scalar) { 48 <= c <= 57 }

  // ----- quoting -----

  function HexDigit(d: nat): Scalar
    requires d < 16
  {
    if d < 10 then 48 + d else 87 + d
  }

  /** Lower-case hexadecimal without leading zeros, for one or two digits. */
  function Hex(c: nat): seq<Scalar>
    requires c < 256
  {
    if c < 16 then [HexDigit(c)] else [HexDigit(c / 16), HexDigit(c % 16)]
  }

  /** The letter of a one-letter escape. */
  function Named(c: Scalar): Option<Scalar> {
    if c == BACKSLASH then Some(BACKSLASH) else if c == QUOTE then Some(QUOTE)
    else if c == 10 then Some(110) else if c == 9 then Some(116) else if c == 13 then Some(114)
    else if c == 8 then Some(98) else if c == 12 then Some(102) else if c == 11 then Some(118)
    else if c == NUL then Some(48) else None
  }

  predicate OpensInterpolation(s: seq<Scalar>) { |s| >= 2 && s[0] == DOLLAR && s[1] == LBRACE }

  /** What is written for the first character of `s`; the next one is only looked at. */
  function Piece(s: seq<Scalar>): seq<Scalar>
    requires s != []
  {
    var c := s[0];
    if OpensInterpolation(s) then [BACKSLASH, DOLLAR]
    else if Named(c).Some? then [BACKSLASH, Named(c).value]
    else if c < 0x20 || c == 0x7F then [BACKSLASH, 117, LBRACE] + Hex(c) + [RBRACE]
    else [c]
  }

  function Body(s: seq<Scalar>): seq<Scalar> {
    if s == [] then [] else Piece(s) + Body(s[1..])
  }

  function Quoted(s: seq<Scalar>): seq<Scalar> { [QUOTE] + Body(s) + [QUOTE] }

  /** The match on one character, with the next one peeked at. */
  method PushQuoted(out: seq<Scalar>, s: seq<Scalar>, k: nat) returns (r: seq<Scalar>)
    requires k < |s|
    ensures r == out + Piece(s[k..])
  {
    var c := s[k];
    if c == BACKSLASH {
      r := out + [BACKSLASH, BACKSLASH];
    } else if c == QUOTE {
      r := out + [BACKSLASH, QUOTE];
    } else if c == DOLLAR && k + 1 < |s| && s[k + 1] == LBRACE {
      r := out + [BACKSLASH, DOLLAR];
    } else if Named(c).Some? {
      r := out + [BACKSLASH, Named(c).value];
    } else if c < 0x20 || c == 0x7F {
      r := out + ([BACKSLASH, 117, LBRACE] + Hex(c) + [RBRACE]);
    } else {
      r := out + [c];
    }
  }

  method QuoteStr(s: seq<Scalar>) returns (out: seq<Scalar>)
    ensures out == Quoted(s)
  {
    hide Piece;
    out := [QUOTE];
    for k := 0 to |s|
      invariant out + Body(s[k..]) == [QUOTE] + Body(s)
    {
      ghost var before, piece := out, Piece(s[k..]);
      assert s[k..][1..] == s[k + 1..];
      out := PushQuoted(out, s, k);
      assert before + (piece + Body(s[k + 1..])) == out + Body(s[k + 1..]);
    }
    assert out + [] == out;
    out := out + [QUOTE];
  }

  // ----- reading a literal -----

  function HexValue(c: Scalar): Option<nat> {
    if IsDigit(c) then Some(c - 48)
    else if 65 <= c <= 70 then Some(c - 55)
    else if 97 <= c <= 102 then Some(c - 87)
    else None
  }

  /** Digits of `\u{...}` up to the brace: at most six, at least one. */
  function ReadHex(src: seq<Scalar>, value: nat, digits: nat): (r: Option<(nat, seq<Scalar>)>)
    ensures r.Some? ==> |r.value.1| < |src|
    decreases |src|
  {
    if src == [] then None
    else if src[0] == RBRACE then if digits == 0 then None else Some((value, src[1..]))
    else if HexValue(src[0]).None? || digits >= 6 then None
    else ReadHex(src[1..], 16 * value + HexValue(src[0]).value, digits + 1)
  }

  /** A decoded character, as captured: a backslash or a dollar is escaped again. */
  function Literal(c: Scalar): seq<Scalar> {
    if c == BACKSLASH || c == DOLLAR then [BACKSLASH, c] else [c]
  }

  function ReadUnicode(src: seq<Scalar>): (r: Option<(Scalar, seq<Scalar>)>)
    ensures r.Some? ==> |r.value.1| < |src|
  {
    if src == [] || src[0] != LBRACE then None
    else match ReadHex(src[1..], 0, 0)
      case None => None
      case Some(vr) =>
        if vr.0 < 0x110000 && !(0xD800 <= vr.0 < 0xE000) then Some((vr.0, vr.1)) else None
  }

  function ReadByte(src: seq<Scalar>): (r: Option<(Scalar, seq<Scalar>)>)
    ensures r.Some? ==> |r.value.1| < |src|
  {
    if |src| < 2 || HexValue(src[0]).None? || HexValue(src[1]).None? then None
    else
      var v := 16 * HexValue(src[0]).value + HexValue(src[1]).value;
      if v < 256 then Some((v, src[2..])) else None
  }

  /** The escape after a backslash: the character and what follows, or an error. */
  function ReadEscape(src: seq<Scalar>): (r: Option<(Scalar, seq<Scalar>)>)
    ensures r.Some? ==> |r.value.1| < |src|
  {
    if src == [] then None
    else
      var e, rest := src[0], src[1..];
      if e == 110 then Some((10, rest)) else if e == 116 then Some((9, rest)) else if e == 114 then Some((13, rest))
      else if e == 98 then Some((8, rest)) else if e == 102 then Some((12, rest)) else if e == 118 then Some((11, rest))
      else if e == 48 then if rest != [] && IsDigit(rest[0]) then None else Some((NUL, rest))
      else if e == BACKSLASH || e == QUOTE || e == 34 || e == DOLLAR then Some((e, rest))
      else if e == 120 then ReadByte(rest)
      else if e == 117 then ReadUnicode(rest)
      else None
  }

  /** The captured value up to the closing quote; an error or an interpolation gives none. */
  function Scan(src: seq<Scalar>): Option<(seq<Scalar>, seq<Scalar>)>
    decreases |src|
  {
    if src == [] then None
    else if src[0] == QUOTE then Some(([], src[1..]))
    else if src[0] == BACKSLASH then
      match ReadEscape(src[1..])
      case None => None
      case Some(cr) => Before(Literal(cr.0), Scan(cr.1))
    else if OpensInterpolation(src) then None
    else Before([src[0]], Scan(src[1..]))
  }

  function Before(front: seq<Scalar>, r: Option<(seq<Scalar>, seq<Scalar>)>): Option<(seq<Scalar>, seq<Scalar>)> {
    match r
    case None => None
    case Some(vr) => Some((front + vr.0, vr.1))
  }

  /** The splitter: escapes are undone, a bare interpolation is not plain text. */
  function Split(value: seq<Scalar>): Option<seq<Scalar>>
    decreases |value|
  {
    if value == [] then Some([])
    else if value[0] == BACKSLASH && |value| > 1 then
      match Split(value[2..]) case None => None case Some(t) => Some([value[1]] + t)
    else if OpensInterpolation(value) then None
    else match Split(value[1..]) case None => None case Some(t) => Some([value[0]] + t)
  }

  /** A string literal at the front of the source: its text, and the source after it. */
  function ReadLiteral(src: seq<Scalar>): Option<(seq<Scalar>, seq<Scalar>)> {
    if src == [] || src[0] != QUOTE then None
    else if |src| >= 3 && src[1] == QUOTE && src[2] == QUOTE then None
    else match Scan(src[1..])
      case None => None
      case Some(vr) => match Split(vr.0) case None => None case Some(text) => Some((text, vr.1))
  }

  // ----- when reading undoes quoting -----

  /** A NUL right before a digit: its escape would look octal. */
  predicate OctalLooking(s: seq<Scalar>) {
    exists k :: 0 <= k < |s| - 1 && s[k] == NUL && IsDigit(s[k + 1])
  }

  /** What the lexer captures for the first character. */
  function Captured(s: seq<Scalar>): seq<Scalar>
    requires s != []
  {
    if s[0] == DOLLAR && !OpensInterpolation(s) then [DOLLAR] else Literal(s[0])
  }

  function CapturedBody(s: seq<Scalar>): seq<Scalar> {
    if s == [] then [] else Captured(s) + CapturedBody(s[1..])
  }

  lemma HexReads(c: nat, rest: seq<Scalar>)
    requires c < 256
    ensures ReadHex(Hex(c) + [RBRACE] + rest, 0, 0) == Some((c, rest))
  {
    var src := Hex(c) + [RBRACE] + rest;
    if c < 16 {
      assert src[1..] == [RBRACE] + rest;
      assert ([RBRACE] + rest)[1..] == rest;
    } else {
      assert src[1..] == [HexDigit(c % 16), RBRACE] + rest;
      assert src[1..][1..] == [RBRACE] + rest;
      assert ([RBRACE] + rest)[1..] == rest;
      assert 16 * (c / 16) + c % 16 == c;
      var mid := src[1..];
      assert ReadHex(mid, c / 16, 1) == ReadHex(mid[1..], 16 * (c / 16) + c % 16, 2);
    }
  }

  /** The first character after a piece, which the reader looks at. */
  predicate Follows(s: seq<Scalar>, rest: seq<Scalar>) {
    && rest != []
    && (if |s| > 1 then rest[0] == s[1] || rest[0] == BACKSLASH else rest[0] == QUOTE)
    && (|s| > 1 && IsDigit(s[1]) ==> rest[0] == s[1])
  }

  predicate OctalHere(s: seq<Scalar>) { |s| > 1 && s[0] == NUL && IsDigit(s[1]) }

  lemma ControlScans(c: Scalar, rest: seq<Scalar>)
    requires c < 0x20 || c == 0x7F
    ensures Scan([BACKSLASH, 117, LBRACE] + Hex(c) + [RBRACE] + rest) == Before([c], Scan(rest))
  {
    var src := [BACKSLASH, 117, LBRACE] + Hex(c) + [RBRACE] + rest;
    HexReads(c, rest);
    assert src[1..][1..] == [LBRACE] + Hex(c) + [RBRACE] + rest;
    assert ([LBRACE] + Hex(c) + [RBRACE] + rest)[1..] == Hex(c) + [RBRACE] + rest;
    assert ReadUnicode(src[1..][1..]) == Some((c, rest));
    assert ReadEscape(src[1..]) == Some((c, rest));
  }

  lemma EscapeScans(e: Scalar, rest: seq<Scalar>)
    requires ReadEscape([e] + rest).Some? && ReadEscape([e] + rest).value.1 == rest
    ensures Scan([BACKSLASH, e] + rest) == Before(Literal(ReadEscape([e] + rest).value.0), Scan(rest))
  {
    assert ([BACKSLASH, e] + rest)[1..] == [e] + rest;
  }

  /** Scanning over one quoted character, unless it is the octal-looking case. */
  lemma PieceScans(s: seq<Scalar>, rest: seq<Scalar>)
    requires s != [] && Follows(s, rest)
    ensures Scan(Piece(s) + rest) == if OctalHere(s) then None else Before(Captured(s), Scan(rest))
  {
    var c := s[0];
    if OpensInterpolation(s) {
      assert ([DOLLAR] + rest)[1..] == rest;
      EscapeScans(DOLLAR, rest);
    } else if Named(c).Some? {
      var e := Named(c).value;
      assert ([e] + rest)[1..] == rest;
      if OctalHere(s) {
        assert ([BACKSLASH, e] + rest)[1..] == [e] + rest;
      } else {
        EscapeScans(e, rest);
      }
    } else if c < 0x20 || c == 0x7F {
      ControlScans(c, rest);
    } else {
      assert ([c] + rest)[1..] == rest;
    }
  }

  lemma BodyFollows(s: seq<Scalar>, rest: seq<Scalar>)
    requires s != []
    ensures Follows(s, Body(s[1..]) + [QUOTE] + rest)
  {
    if |s| > 1 {
      assert Body(s[1..])[0] == Piece(s[1..])[0];
    }
  }

  lemma {:induction false} BodyScans(s: seq<Scalar>, rest: seq<Scalar>)
    ensures Scan(Body(s) + [QUOTE] + rest) == if OctalLooking(s) then None else Some((CapturedBody(s), rest))
  {
    if s == [] {
      assert Body(s) + [QUOTE] + rest == [QUOTE] + rest;
      assert ([QUOTE] + rest)[1..] == rest;
    } else {
      var tail := Body(s[1..]) + [QUOTE] + rest;
      assert Body(s) + [QUOTE] + rest == Piece(s) + tail;
      BodyFollows(s, rest);
      BodyScans(s[1..], rest);
      OctalSplit(s);
      hide Scan, Piece, Body, Captured, OctalLooking;
      PieceScans(s, tail);
    }
  }

  lemma OctalSplit(s: seq<Scalar>)
    requires s != []
    ensures OctalLooking(s) <==> OctalHere(s) || OctalLooking(s[1..])
  {
    if OctalHere(s) {
      assert s[0] == NUL && IsDigit(s[0 + 1]);
    }
    if OctalLooking(s[1..]) {
      var k :| 0 <= k < |s[1..]| - 1 && s[1..][k] == NUL && IsDigit(s[1..][k + 1]);
      assert s[k + 1] == NUL && IsDigit(s[k + 1 + 1]);
    }
    if OctalLooking(s) && !OctalHere(s) {
      var k :| 0 <= k < |s| - 1 && s[k] == NUL && IsDigit(s[k + 1]);
      assert s[1..][k - 1] == NUL && IsDigit(s[1..][k - 1 + 1]);
    }
  }

  lemma {:induction false} SplitCaptured(s: seq<Scalar>)
    ensures Split(CapturedBody(s)) == Some(s)
  {
    if s == [] {
    } else {
      SplitCaptured(s[1..]);
      var tail := CapturedBody(s[1..]);
      assert [s[0]] + s[1..] == s;
      if |Captured(s)| == 2 {
        assert (Captured(s) + tail)[2..] == tail;
      } else {
        assert (Captured(s) + tail)[1..] == tail;
        assert |s| > 1 ==> tail[0] == Captured(s[1..])[0];
      }
    }
  }

  /**
   Reading back a quoted string gives the string and stops at the closing quote,
   just when no NUL in it is followed by a digit and an empty literal is not
   followed by a third quote.
   */
  lemma QuoteReadsBack(s: seq<Scalar>, rest: seq<Scalar>)
    ensures ReadLiteral(Quoted(s) + rest) == Some((s, rest))
        <==> !OctalLooking(s) && !(s == [] && rest != [] && rest[0] == QUOTE)
  {
    var src := Quoted(s) + rest;
    assert src[1..] == Body(s) + [QUOTE] + rest;
    BodyScans(s, rest);
    SplitCaptured(s);
    if s != [] {
      assert Body(s)[0] == Piece(s)[0];
    }
    hide Scan, Split;
  }

  /** The source calls the result a valid literal; these two characters show it need not be. */
  lemma NotAlwaysALiteral()
    ensures ReadLiteral(Quoted([NUL, 49])).None?
  {
    var s := [NUL, 49];
    assert s[0] == NUL && IsDigit(s[0 + 1]);
    BodyScans(s, []);
    assert Quoted(s)[1..] == Body(s) + [QUOTE] + [];
  }

  // ----- quoting is invertible -----

  /** The character an escape letter of `quote_str` stands for. */
  function Unnamed(e: Scalar): Option<Scalar> {
    if e == BACKSLASH || e == QUOTE || e == DOLLAR then Some(e)
    else if e == 110 then Some(10) else if e == 116 then Some(9) else if e == 114 then Some(13)
    else if e == 98 then Some(8) else if e == 102 then Some(12) else if e == 118 then Some(11)
    else if e == 48 then Some(NUL) else None
  }

  /** One character of a quoted body, read by the escape set alone: `\0` is NUL whatever follows. */
  function Unescape(src: seq<Scalar>): (r: Option<(Scalar, seq<Scalar>)>)
    ensures r.Some? ==> |r.value.1| < |src|
  {
    if src == [] || src[0] == QUOTE then None
    else if src[0] != BACKSLASH then Some((src[0], src[1..]))
    else if |src| < 2 then None
    else if src[1] == 117 then ReadUnicode(src[2..])
    else if Unnamed(src[1]).Some? then Some((Unnamed(src[1]).value, src[2..]))
    else None
  }

  /** Left to right up to the first bare quote. */
  function Unquote(src: seq<Scalar>): Option<(seq<Scalar>, seq<Scalar>)>
    decreases |src|
  {
    if src != [] && src[0] == QUOTE then Some(([], src[1..]))
    else match Unescape(src)
      case None => None
      case Some(cr) => Before([cr.0], Unquote(cr.1))
  }

  lemma PieceUnescapes(s: seq<Scalar>, rest: seq<Scalar>)
    requires s != []
    ensures Unescape(Piece(s) + rest) == Some((s[0], rest)) && (Piece(s) + rest)[0] != QUOTE
  {
    var c, src := s[0], Piece(s) + rest;
    if |Piece(s)| == 1 {
      assert src[1..] == rest;
    } else if |Piece(s)| == 2 {
      assert src[2..] == rest;
    } else {
      HexReads(c, rest);
      assert src[2..] == [LBRACE] + (Hex(c) + [RBRACE] + rest);
      assert src[2..][1..] == Hex(c) + [RBRACE] + rest;
    }
  }

  /** The escape set determines every string: its quoted body reads back, up to the closing quote and no further. */
  lemma {:induction false} UnquoteReadsBack(s: seq<Scalar>, rest: seq<Scalar>)
    ensures Unquote(Body(s) + [QUOTE] + rest) == Some((s, rest))
  {
    if s == [] {
      assert Body(s) + [QUOTE] + rest == [QUOTE] + rest;
      assert ([QUOTE] + rest)[1..] == rest;
    } else {
      var tail := Body(s[1..]) + [QUOTE] + rest;
      assert Body(s) + [QUOTE] + rest == Piece(s) + tail;
      UnquoteReadsBack(s[1..], rest);
      hide Piece, Unescape, Unquote;
      PieceUnescapes(s, tail);
      UnquoteStep(s[0], Piece(s) + tail, tail);
      assert [s[0]] + s[1..] == s;
    }
  }

  lemma UnquoteStep(c: Scalar, src: seq<Scalar>, tail: seq<Scalar>)
    requires src != [] && src[0] != QUOTE && Unescape(src) == Some((c, tail))
    ensures Unquote(src) == Before([c], Unquote(tail))
  {
    hide Unescape;
  }

  /** Different strings are quoted differently, even when one continues the other's source. */
  lemma {:induction false} QuotedInjective(s: seq<Scalar>, t: seq<Scalar>, a: seq<Scalar>, b: seq<Scalar>)
    requires Quoted(s) + a == Quoted(t) + b
    ensures s == t && a == b
  {
    hide Unquote, Body;
    UnquoteReadsBack(s, a);
    UnquoteReadsBack(t, b);
    assert (Quoted(s) + a)[1..] == Body(s) + [QUOTE] + a;
    assert (Quoted(t) + b)[1..] == Body(t) + [QUOTE] + b;
  }

  /** Every quote inside is escaped and no interpolation is opened inside. */
  predicate Inert(out: seq<Scalar>) {
    out == [] || (if out[0] == BACKSLASH then |out| >= 2 && Inert(out[2..])
                  else out[0] != QUOTE && !OpensInterpolation(out) && Inert(out[1..]))
  }

  lemma {:induction false} PlainInert(a: seq<Scalar>, b: seq<Scalar>)
    requires Inert(b) && forall i :: 0 <= i < |a| ==> a[i] != BACKSLASH && a[i] != QUOTE && a[i] != DOLLAR
    ensures Inert(a + b)
  {
    if a == [] {
      assert a + b == b;
    } else {
      assert (a + b)[1..] == a[1..] + b;
      PlainInert(a[1..], b);
    }
  }

  lemma ControlInert(c: Scalar, tail: seq<Scalar>)
    requires (c < 0x20 || c == 0x7F) && Inert(tail)
    ensures Inert([BACKSLASH, 117, LBRACE] + Hex(c) + [RBRACE] + tail)
  {
    var mid := [LBRACE] + Hex(c) + [RBRACE];
    PlainInert(mid, tail);
    assert ([BACKSLASH, 117, LBRACE] + Hex(c) + [RBRACE] + tail)[2..] == mid + tail;
  }

  lemma EscapeInert(e: Scalar, tail: seq<Scalar>)
    requires Inert(tail)
    ensures Inert([BACKSLASH, e] + tail)
  {
    assert ([BACKSLASH, e] + tail)[2..] == tail;
  }

  lemma PieceInert(s: seq<Scalar>, tail: seq<Scalar>)
    requires s != [] && Inert(tail) && (OpensInterpolation([s[0]] + tail) ==> OpensInterpolation(s))
    ensures Inert(Piece(s) + tail)
  {
    var c := s[0];
    if OpensInterpolation(s) {
      EscapeInert(DOLLAR, tail);
    } else if Named(c).Some? {
      EscapeInert(Named(c).value, tail);
    } else if c < 0x20 || c == 0x7F {
      ControlInert(c, tail);
    } else {
      assert ([c] + tail)[1..] == tail;
    }
  }

  /** Inside the quotes, no quote is bare and no interpolation opens. */
  lemma {:induction false} BodyInert(s: seq<Scalar>)
    ensures Inert(Body(s))
  {
    if s == [] {
    } else {
      BodyInert(s[1..]);
      if |s| > 1 {
        assert Body(s[1..])[0] == Piece(s[1..])[0];
      }
      PieceInert(s, Body(s[1..]));
    }
  }
}
