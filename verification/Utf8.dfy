/**
  utf8Bytes of the mint source, against RFC 3629.

  A JavaScript string is a sequence of 16-bit code units. The program reads surrogate pairs
  and writes one to four bytes a code point. Two malformed inputs slip through: a low
  surrogate on its own becomes three bytes, and a high surrogate at the very end is combined
  with NaN, which every bit operation reads as 0, and becomes F0 80 80 80. The strict
  decoders below put this in one equation (DecodingInvertsEncoding): whenever the program
  returns bytes, an RFC 3629 decoder reads from them what a UTF-16 decoder reads from the
  text, and both refuse in exactly the same cases.
 */
module Utf8 {
  type Unit = bv16
  type CodePoint = bv32
  type Byte = bv8

  datatype Option<+T> = None | Some(value: T)

  // ----- The program -----

  predicate IsHigh(u: Unit) { 0xd800 <= u <= 0xdbff }
  predicate IsLow(u: Unit) { 0xdc00 <= u <= 0xdfff }

  function Pair(high: Unit, low: Unit): (c: CodePoint)
    requires IsHigh(high) && IsLow(low)
    ensures 0x10000 <= c <= 0x10ffff
  {
    0x10000 + (((high as bv32) - 0xd800) << 10) + ((low as bv32) - 0xdc00)
  }

  /** A continuation byte: 0x80 | (c & 0x3f). */
  function Tail(c: CodePoint): Byte { (0x80 | (c & 0x3f)) as Byte }

  function Bytes2(c: CodePoint): seq<Byte>
    requires c < 0x800
  {
    [(0xc0 | (c >> 6)) as Byte, Tail(c)]
  }

  function Bytes3(c: CodePoint): seq<Byte>
    requires c < 0x10000
  {
    [(0xe0 | (c >> 12)) as Byte, Tail(c >> 6), Tail(c)]
  }

  function Bytes4(c: CodePoint): seq<Byte>
    requires c <= 0x10ffff
  {
    [(0xf0 | (c >> 18)) as Byte, Tail(c >> 12), Tail(c >> 6), Tail(c)]
  }

  /** The bytes pushed for one code point; None is the NaN of a missing low surrogate. */
  function Push(c: Option<CodePoint>): seq<Byte>
    requires c.Some? ==> c.value <= 0x10ffff
  {
    match c
    case None => [0xf0, 0x80, 0x80, 0x80]
    case Some(c) =>
      if c < 0x80 then [c as Byte]
      else if c < 0x800 then Bytes2(c)
      else if c < 0x10000 then Bytes3(c)
      else Bytes4(c)
  }

  /** Bytes pushed before the rest of the text is encoded. */
  function Then(bytes: seq<Byte>, rest: Option<seq<Byte>>): Option<seq<Byte>> {
    match rest
    case None => None
    case Some(more) => Some(bytes + more)
  }

  /** What utf8Bytes returns; None is the thrown error. */
  function Encode(text: seq<Unit>): Option<seq<Byte>> {
    if text == [] then Some([])
    else if IsHigh(text[0]) then
      if |text| == 1 then Then(Push(None), Some([]))
      else if !IsLow(text[1]) then None
      else Then(Push(Some(Pair(text[0], text[1]))), Encode(text[2..]))
    else Then(Push(Some(text[0] as bv32)), Encode(text[1..]))
  }

  lemma ThenNothing(bytes: seq<Byte>, rest: Option<seq<Byte>>)
    ensures Then([], rest) == rest && Then(bytes, Some([])) == Some(bytes)
  {
    if rest.Some? {
      assert [] + rest.value == rest.value;
    }
    assert bytes + [] == bytes;
  }

  lemma ThenThen(a: seq<Byte>, b: seq<Byte>, rest: Option<seq<Byte>>)
    ensures Then(a, Then(b, rest)) == Then(a + b, rest)
  {
    if rest.Some? {
      assert a + (b + rest.value) == (a + b) + rest.value;
    }
  }

  method Utf8Bytes(text: seq<Unit>) returns (r: Option<seq<Byte>>)
    ensures r == Encode(text)
  {
    hide Push, Pair;
    var bytes: seq<Byte> := [];
    var i := 0;
    assert text[0..] == text;
    ThenNothing([], Encode(text));
    while i < |text|
      invariant 0 <= i <= |text|
      invariant Encode(text) == Then(bytes, Encode(text[i..]))
    {
      ghost var before := text[i..];
      var codePoint := Some(text[i] as bv32);
      if IsHigh(text[i]) {
        i := i + 1;
        codePoint := None;
        if i < |text| {
          if !IsLow(text[i]) {
            return None;
          }
          codePoint := Some(Pair(text[i - 1], text[i]));
        }
      }
      i := if i < |text| then i + 1 else i;
      assert text[i..] == before[|before| - (|text| - i)..];
      ThenThen(bytes, Push(codePoint), Encode(text[i..]));
      bytes := bytes + Push(codePoint);
    }
    ThenNothing(bytes, None);
    return Some(bytes);
  }

  // ----- The references -----

  /** UTF-16: surrogates come in pairs, high before low. */
  function DecodeUtf16(text: seq<Unit>): Option<seq<CodePoint>> {
    if text == [] then Some([])
    else if IsHigh(text[0]) then
      if |text| == 1 || !IsLow(text[1]) then None
      else Prepend(Pair(text[0], text[1]), DecodeUtf16(text[2..]))
    else if IsLow(text[0]) then None
    else Prepend(text[0] as bv32, DecodeUtf16(text[1..]))
  }

  function Prepend(c: CodePoint, rest: Option<seq<CodePoint>>): Option<seq<CodePoint>> {
    match rest
    case None => None
    case Some(cs) => Some([c] + cs)
  }

  predicate IsTail(b: Byte) { 0x80 <= b <= 0xbf }

  /** The sequences of RFC 3629 section 4, whose ranges exclude overlong forms and surrogates. */
  predicate Utf8Two(a: Byte, b: Byte) { 0xc2 <= a <= 0xdf && IsTail(b) }

  predicate Utf8Three(a: Byte, b: Byte, c: Byte) {
    && IsTail(c)
    && (|| (a == 0xe0 && 0xa0 <= b <= 0xbf)
        || (0xe1 <= a <= 0xec && IsTail(b))
        || (a == 0xed && 0x80 <= b <= 0x9f)
        || (0xee <= a <= 0xef && IsTail(b)))
  }

  predicate Utf8Four(a: Byte, b: Byte, c: Byte, d: Byte) {
    && IsTail(c) && IsTail(d)
    && (|| (a == 0xf0 && 0x90 <= b <= 0xbf)
        || (0xf1 <= a <= 0xf3 && IsTail(b))
        || (a == 0xf4 && 0x80 <= b <= 0x8f))
  }

  /** Section 3: the payload bits of a sequence, most significant first. */
  function Two(a: Byte, b: Byte): CodePoint {
    (((a as bv32) & 0x1f) << 6) | ((b as bv32) & 0x3f)
  }

  function Three(a: Byte, b: Byte, c: Byte): CodePoint {
    (((a as bv32) & 0x0f) << 12) | (((b as bv32) & 0x3f) << 6) | ((c as bv32) & 0x3f)
  }

  function Four(a: Byte, b: Byte, c: Byte, d: Byte): CodePoint {
    (((a as bv32) & 0x07) << 18) | (((b as bv32) & 0x3f) << 12) | (((c as bv32) & 0x3f) << 6) | ((d as bv32) & 0x3f)
  }

  function DecodeUtf8(s: seq<Byte>): Option<seq<CodePoint>> {
    if s == [] then Some([])
    else if s[0] <= 0x7f then Prepend(s[0] as bv32, DecodeUtf8(s[1..]))
    else if |s| >= 2 && Utf8Two(s[0], s[1]) then Prepend(Two(s[0], s[1]), DecodeUtf8(s[2..]))
    else if |s| >= 3 && Utf8Three(s[0], s[1], s[2]) then Prepend(Three(s[0], s[1], s[2]), DecodeUtf8(s[3..]))
    else if |s| >= 4 && Utf8Four(s[0], s[1], s[2], s[3]) then
      Prepend(Four(s[0], s[1], s[2], s[3]), DecodeUtf8(s[4..]))
    else None
  }

  // ----- One code point -----

  predicate IsSurrogate(c: CodePoint) { 0xd800 <= c <= 0xdfff }

  lemma TwoBytes(c: CodePoint)
    requires 0x80 <= c < 0x800
    ensures (0xc0 | (c >> 6)) as Byte > 0x7f && Utf8Two((0xc0 | (c >> 6)) as Byte, Tail(c))
    ensures Two((0xc0 | (c >> 6)) as Byte, Tail(c)) == c
  {
  }

  lemma ThreeBytes(c: CodePoint)
    requires 0x800 <= c < 0x10000
    ensures 0xe0 <= (0xe0 | (c >> 12)) as Byte < 0xf0
    ensures Utf8Three((0xe0 | (c >> 12)) as Byte, Tail(c >> 6), Tail(c)) <==> !IsSurrogate(c)
    ensures Three((0xe0 | (c >> 12)) as Byte, Tail(c >> 6), Tail(c)) == c
  {
  }

  lemma FourBytesShape(c: CodePoint)
    requires 0x10000 <= c <= 0x10ffff
    ensures 0xf0 <= (0xf0 | (c >> 18)) as Byte
    ensures Utf8Four((0xf0 | (c >> 18)) as Byte, Tail(c >> 12), Tail(c >> 6), Tail(c))
  {
  }

  lemma FourBytesValue(c: CodePoint)
    requires 0x10000 <= c <= 0x10ffff
    ensures Four((0xf0 | (c >> 18)) as Byte, Tail(c >> 12), Tail(c >> 6), Tail(c)) == c
  {
  }

  lemma DecodeOne(a: Byte, rest: seq<Byte>)
    requires a <= 0x7f
    ensures DecodeUtf8([a] + rest) == Prepend(a as bv32, DecodeUtf8(rest))
  {
    assert ([a] + rest)[1..] == rest;
  }

  lemma DecodeTwo(a: Byte, b: Byte, rest: seq<Byte>)
    requires a > 0x7f && Utf8Two(a, b)
    ensures DecodeUtf8([a, b] + rest) == Prepend(Two(a, b), DecodeUtf8(rest))
  {
    hide Two;
    assert ([a, b] + rest)[2..] == rest;
  }

  lemma DecodeThree(a: Byte, b: Byte, c: Byte, rest: seq<Byte>)
    requires 0xe0 <= a < 0xf0
    ensures DecodeUtf8([a, b, c] + rest)
         == if Utf8Three(a, b, c) then Prepend(Three(a, b, c), DecodeUtf8(rest)) else None
  {
    hide Three;
    assert ([a, b, c] + rest)[3..] == rest;
  }

  lemma DecodeFour(a: Byte, b: Byte, c: Byte, d: Byte, rest: seq<Byte>)
    requires 0xf0 <= a && Utf8Four(a, b, c, d)
    ensures DecodeUtf8([a, b, c, d] + rest) == Prepend(Four(a, b, c, d), DecodeUtf8(rest))
  {
    hide Four;
    assert ([a, b, c, d] + rest)[4..] == rest;
  }

  lemma DecodePushedTwo(c: CodePoint, rest: seq<Byte>)
    requires 0x80 <= c < 0x800
    ensures DecodeUtf8(Bytes2(c) + rest) == Prepend(c, DecodeUtf8(rest))
  {
    hide Tail, Two, Three, Four, Utf8Two, Utf8Three, Utf8Four, DecodeUtf8, Prepend;
    TwoBytes(c);
    DecodeTwo((0xc0 | (c >> 6)) as Byte, Tail(c), rest);
  }

  lemma DecodePushedThree(c: CodePoint, rest: seq<Byte>)
    requires 0x800 <= c < 0x10000
    ensures DecodeUtf8(Bytes3(c) + rest) == if IsSurrogate(c) then None else Prepend(c, DecodeUtf8(rest))
  {
    hide Tail, Two, Three, Four, Utf8Two, Utf8Three, Utf8Four, DecodeUtf8, Prepend;
    ThreeBytes(c);
    DecodeThree((0xe0 | (c >> 12)) as Byte, Tail(c >> 6), Tail(c), rest);
  }

  lemma DecodePushedFour(c: CodePoint, rest: seq<Byte>)
    requires 0x10000 <= c <= 0x10ffff
    ensures DecodeUtf8(Bytes4(c) + rest) == Prepend(c, DecodeUtf8(rest))
  {
    hide Tail, Two, Three, Four, Utf8Two, Utf8Three, Utf8Four, DecodeUtf8, Prepend;
    FourBytesShape(c);
    FourBytesValue(c);
    DecodeFour((0xf0 | (c >> 18)) as Byte, Tail(c >> 12), Tail(c >> 6), Tail(c), rest);
  }

  /** Decoding peels off one pushed code point, unless it is half of a surrogate pair. */
  lemma DecodePushed(c: CodePoint, rest: seq<Byte>)
    requires c <= 0x10ffff
    ensures DecodeUtf8(Push(Some(c)) + rest) == if IsSurrogate(c) then None else Prepend(c, DecodeUtf8(rest))
  {
    hide Bytes2, Bytes3, Bytes4, DecodeUtf8, Prepend;
    if c < 0x80 {
      DecodeOne(c as Byte, rest);
    } else if c < 0x800 {
      DecodePushedTwo(c, rest);
    } else if c < 0x10000 {
      DecodePushedThree(c, rest);
    } else {
      DecodePushedFour(c, rest);
    }
  }

  /**
    For every text that does not make the program throw, the bytes decode exactly as the text
    does: to the same code points when the text is well-formed UTF-16, to nothing otherwise.
   */
  lemma {:induction false} DecodingInvertsEncoding(text: seq<Unit>)
    requires Encode(text).Some?
    ensures DecodeUtf8(Encode(text).value) == DecodeUtf16(text)
  {
    if text == [] {
    } else if IsHigh(text[0]) {
      if |text| > 1 {
        DecodingInvertsEncoding(text[2..]);
        DecodePushed(Pair(text[0], text[1]), Encode(text[2..]).value);
      }
    } else {
      DecodingInvertsEncoding(text[1..]);
      DecodePushed(text[0] as bv32, Encode(text[1..]).value);
    }
  }

  /** Somewhere a high surrogate is followed by something that is not a low one. */
  ghost predicate HasSplitPair(text: seq<Unit>) {
    exists i | 0 <= i < |text| - 1 :: IsHigh(text[i]) && !IsLow(text[i + 1])
  }

  lemma SplitPairFurtherOn(text: seq<Unit>, n: nat)
    requires n <= |text| && forall i | 0 <= i < n && i + 1 < |text| :: !IsHigh(text[i]) || IsLow(text[i + 1])
    ensures HasSplitPair(text) <==> HasSplitPair(text[n..])
  {
    if HasSplitPair(text) {
      var i :| 0 <= i < |text| - 1 && IsHigh(text[i]) && !IsLow(text[i + 1]);
      assert text[n..][i - n] == text[i] && text[n..][i - n + 1] == text[i + 1];
    }
  }

  /** A lone high surrogate throws wherever it stands, except at the very end. */
  lemma {:induction false} ThrowsOnSplitPair(text: seq<Unit>)
    ensures Encode(text) == None <==> HasSplitPair(text)
    decreases |text|
  {
    if |text| > 1 && (!IsHigh(text[0]) || IsLow(text[1])) {
      var n := if IsHigh(text[0]) then 2 else 1;
      SplitPairFurtherOn(text, n);
      ThrowsOnSplitPair(text[n..]);
    }
  }

  /** A high surrogate at the end of a text that does not throw becomes these four bytes, which are no UTF-8. */
  lemma {:induction false} HighAtEnd(text: seq<Unit>)
    requires text != [] && IsHigh(text[|text| - 1]) && Encode(text).Some?
    ensures Encode(text[..|text| - 1]).Some?
    ensures Encode(text).value == Encode(text[..|text| - 1]).value + [0xf0, 0x80, 0x80, 0x80]
    decreases |text|
  {
    hide Pair, Push, Encode, IsHigh, IsLow;
    var front := text[..|text| - 1];
    FirstStep(text);
    if |text| == 1 {
      HighAlone(text[0]);
      assert front == [] && text == [text[0]];
      assert [] + [0xf0, 0x80, 0x80, 0x80] == [0xf0, 0x80, 0x80, 0x80];
    } else if IsHigh(text[0]) {
      HighIsNotLow(text);
      HighAtEnd(text[2..]);
      FirstStep(front);
      assert front[2..] == text[2..][..|text| - 3];
      ThenAppends(Push(Some(Pair(text[0], text[1]))), Encode(front[2..]), [0xf0, 0x80, 0x80, 0x80]);
    } else {
      HighAtEnd(text[1..]);
      FirstStep(front);
      assert front[1..] == text[1..][..|text| - 2];
      ThenAppends(Push(Some(text[0] as bv32)), Encode(front[1..]), [0xf0, 0x80, 0x80, 0x80]);
    }
  }

  lemma HighAlone(u: Unit)
    requires IsHigh(u)
    ensures Encode([]) == Some([]) && Encode([u]) == Some([0xf0, 0x80, 0x80, 0x80])
  {
    ThenNothing(Push(None), None);
  }

  /** What is written before the rest of a text, and when it throws. */
  lemma FirstStep(text: seq<Unit>)
    requires text != []
    ensures !IsHigh(text[0]) ==> Encode(text) == Then(Push(Some(text[0] as bv32)), Encode(text[1..]))
    ensures IsHigh(text[0]) && |text| > 1 ==>
      Encode(text) == if IsLow(text[1]) then Then(Push(Some(Pair(text[0], text[1]))), Encode(text[2..])) else None
  {
    hide Pair, Push;
  }

  lemma HighIsNotLow(text: seq<Unit>)
    requires |text| > 1 && IsHigh(text[0]) && IsHigh(text[|text| - 1]) && Encode(text).Some?
    ensures IsLow(text[1]) && |text| > 2
  {
    hide Pair, Push;
  }

  lemma ThenAppends(bytes: seq<Byte>, rest: Option<seq<Byte>>, last: seq<Byte>)
    requires rest.Some?
    ensures Then(bytes, Some(rest.value + last)) == Some(Then(bytes, rest).value + last)
  {
    assert bytes + (rest.value + last) == bytes + rest.value + last;
  }

  /** A low surrogate without a high one before it becomes three bytes that hold its sixteen bits. */
  lemma LowAlone(u: Unit, rest: seq<Unit>)
    requires IsLow(u)
    ensures exists a: Byte, b: Byte, c: Byte ::
              0xe0 <= a < 0xf0 && Three(a, b, c) == u as bv32 && Encode([u] + rest) == Then([a, b, c], Encode(rest))
  {
    hide Tail, Three;
    assert ([u] + rest)[1..] == rest;
    LowIsWide(u);
    var c := u as bv32;
    ThreeBytes(c);
    assert Push(Some(c)) == [(0xe0 | (c >> 12)) as Byte, Tail(c >> 6), Tail(c)];
  }

  lemma LowIsWide(u: Unit)
    requires IsLow(u)
    ensures 0x800 <= u as bv32 < 0x10000 && !IsHigh(u)
  {
  }

  /** Well-formed text never throws, so it is always encoded to its RFC 3629 bytes. */
  lemma {:induction false} WellFormedIsEncoded(text: seq<Unit>)
    requires DecodeUtf16(text).Some?
    ensures Encode(text).Some? && DecodeUtf8(Encode(text).value) == DecodeUtf16(text)
  {
    if text != [] {
      WellFormedIsEncoded(text[if IsHigh(text[0]) then 2 else 1..]);
    }
    DecodingInvertsEncoding(text);
  }

  /** Two well-formed texts with the same bytes are the same text. */
  lemma EncodingIsInjective(s: seq<Unit>, t: seq<Unit>)
    requires DecodeUtf16(s).Some? && DecodeUtf16(t).Some? && Encode(s) == Encode(t)
    ensures s == t
  {
    WellFormedIsEncoded(s);
    WellFormedIsEncoded(t);
    Utf16IsInjective(s, t);
  }

  lemma PairIsInjective(h: Unit, l: Unit, h': Unit, l': Unit)
    requires IsHigh(h) && IsLow(l) && IsHigh(h') && IsLow(l') && Pair(h, l) == Pair(h', l')
    ensures h == h' && l == l'
  {
  }

  lemma FirstUnits(s: seq<Unit>, t: seq<Unit>)
    requires s != [] && t != [] && DecodeUtf16(s).Some? && DecodeUtf16(s) == DecodeUtf16(t)
    ensures IsHigh(s[0]) == IsHigh(t[0]) && s[0] == t[0] && (IsHigh(s[0]) ==> s[1] == t[1])
    ensures var n := if IsHigh(s[0]) then 2 else 1;
      DecodeUtf16(s[n..]).Some? && DecodeUtf16(s[n..]) == DecodeUtf16(t[n..])
  {
    hide Pair;
    var c := DecodeUtf16(s).value[0];
    assert c == if IsHigh(s[0]) then Pair(s[0], s[1]) else s[0] as bv32;
    assert c == if IsHigh(t[0]) then Pair(t[0], t[1]) else t[0] as bv32;
    var i, j := if IsHigh(s[0]) then 2 else 1, if IsHigh(t[0]) then 2 else 1;
    assert DecodeUtf16(s[i..]).value == DecodeUtf16(s).value[1..]
      && DecodeUtf16(t[j..]).value == DecodeUtf16(t).value[1..];
    if i == 2 && j == 2 {
      PairIsInjective(s[0], s[1], t[0], t[1]);
    }
  }

  lemma {:induction false} Utf16IsInjective(s: seq<Unit>, t: seq<Unit>)
    requires DecodeUtf16(s).Some? && DecodeUtf16(s) == DecodeUtf16(t)
    ensures s == t
  {
    hide Pair;
    if s != [] && t != [] {
      FirstUnits(s, t);
      var n := if IsHigh(s[0]) then 2 else 1;
      Utf16IsInjective(s[n..], t[n..]);
      assert s == s[..n] + s[n..] && t == t[..n] + t[n..];
    }
  }
}
