/**
  The hand-written ABI codec: encodeBurn of the web client and decodeRedeemLog of the release
  source, against the head-and-tail rule of the Solidity ABI specification.

  Hex text is the list of its digits. Encode follows the specification for any list of unsigned
  integers and byte strings; the client's encoder equals it, and the decoder inverts it.
 */
module Abi {
  import B = BitGroups

  type Nibble = n: int | 0 <= n < 16
  type Hex = seq<Nibble>
  type Octet = n: int | 0 <= n < 256

  datatype Error = NegativeInteger | ValueTooLarge | InvalidScript | DataTooShort | NotANumber | MissingTopic
  datatype Result<+T> = Ok(value: T) | Err(error: Error)

  const TWO_256: nat := 0x1_0000_0000_0000_0000_0000_0000_0000_0000_0000_0000_0000_0000_0000_0000_0000_0000

  type Uint256 = n: nat | n < TWO_256

  lemma DigitsAreNibbles(n: nat, count: nat)
    ensures forall i :: 0 <= i < count ==> 0 <= B.Digits(n, count, 4)[i] < 16
    decreases count
  {
    hide B.Shr, B.Low, B.Pow2;
    if count > 0 {
      DigitsAreNibbles(B.Shr(n, 4), count - 1);
      B.LowIsSmall(n, 4);
      Pow16();
    }
  }

  lemma Pow16()
    ensures B.Pow2(4) == 16
  {
    assert B.Pow2(2) == 4;
  }

  lemma Pow256Bits()
    ensures B.Pow2(256) == TWO_256
  {
    hide B.Pow2;
    Pow16();
    B.Pow2Adds(4, 4);
    B.Pow2Adds(8, 8);
    B.Pow2Adds(16, 16);
    B.Pow2Adds(32, 32);
    B.Pow2Adds(64, 64);
    B.Pow2Adds(128, 128);
  }

  function FixedHex(n: nat, count: nat): (h: Hex)
    ensures |h| == count
  {
    DigitsAreNibbles(n, count);
    B.Digits(n, count, 4)
  }

  function HexValue(h: Hex): nat {
    NibblesAreInRange(h);
    B.Value(h, 4)
  }

  lemma NibblesAreInRange(h: Hex)
    ensures B.InRange(h, 4)
  {
    Pow16();
  }

  function Zeros(n: nat): (z: Hex)
    ensures |z| == n
  {
    seq(n, i => 0)
  }

  // ----- Bytes -----

  /** Buffer.from(digits, "hex"): a last odd digit is dropped. */
  function FromHex(h: Hex): (b: seq<Octet>)
    ensures |b| == |h| / 2
  {
    seq(|h| / 2, i requires 0 <= i < |h| / 2 => OctetOf(h[2 * i], h[2 * i + 1]))
  }

  function OctetOf(high: int, low: int): int { high * 16 + low }

  function HexOf(b: seq<Octet>): (h: Hex) {
    seq(2 * |b|, i requires 0 <= i < 2 * |b| => if i % 2 == 0 then b[i / 2] / 16 else b[i / 2] % 16)
  }

  /** Hex arguments arrive whole exactly when they have an even number of digits. */
  lemma HexSurvivesIffEven(h: Hex)
    ensures HexOf(FromHex(h)) == h <==> |h| % 2 == 0
  {
    if |h| % 2 == 0 {
      forall i | 0 <= i < |h| ensures HexOf(FromHex(h))[i] == h[i] {
        assert FromHex(h)[i / 2] == OctetOf(h[2 * (i / 2)], h[2 * (i / 2) + 1]);
      }
    }
  }

  lemma BytesSurviveHex(b: seq<Octet>)
    ensures |HexOf(b)| == 2 * |b| && FromHex(HexOf(b)) == b
  {
    forall i | 0 <= i < |b| ensures FromHex(HexOf(b))[i] == b[i] {
      assert HexOf(b)[2 * i] == b[i] / 16 && HexOf(b)[2 * i + 1] == b[i] % 16;
    }
  }

  // ----- The specification -----

  datatype Value = Uint(n: Uint256) | Bytes(digits: Hex)

  /** A byte string is an even number of digits, and its length fits a word. */
  predicate IsValue(v: Value) {
    v.Bytes? ==> |v.digits| % 2 == 0 && |v.digits| / 2 < TWO_256
  }

  function Word(n: Uint256): (w: Hex)
    ensures |w| == 64
  {
    FixedHex(n, 64)
  }

  /** How many zeros bring a byte string to whole words. */
  function PadLength(digits: nat): nat { (64 - digits % 64) % 64 }

  /** The length, and the bytes padded on the right. */
  function BytesTail(digits: Hex): (tail: Hex)
    requires |digits| / 2 < TWO_256
    ensures |tail| == 64 + |digits| + PadLength(|digits|)
  {
    Word(|digits| / 2) + digits + Zeros(PadLength(|digits|))
  }

  function TailOf(v: Value): Hex
    requires IsValue(v)
  {
    match v
    case Uint(_) => []
    case Bytes(digits) => BytesTail(digits)
  }

  function Tails(vs: seq<Value>): Hex
    requires forall v :: v in vs ==> IsValue(v)
  {
    if vs == [] then [] else Tails(vs[..|vs| - 1]) + TailOf(vs[|vs| - 1])
  }

  /** The offset of the i-th tail, in bytes from the start. */
  function Offset(vs: seq<Value>, i: nat): nat
    requires i <= |vs| && forall v :: v in vs ==> IsValue(v)
  {
    32 * |vs| + |Tails(vs[..i])| / 2
  }

  predicate IsEncodable(vs: seq<Value>) {
    (forall v :: v in vs ==> IsValue(v)) && forall i :: 0 <= i < |vs| ==> Offset(vs, i) < TWO_256
  }

  function HeadOf(vs: seq<Value>, i: nat): Hex
    requires IsEncodable(vs) && i < |vs|
  {
    match vs[i]
    case Uint(n) => Word(n)
    case Bytes(_) => Word(Offset(vs, i))
  }

  function Heads(vs: seq<Value>, n: nat): Hex
    requires IsEncodable(vs) && n <= |vs|
  {
    if n == 0 then [] else Heads(vs, n - 1) + HeadOf(vs, n - 1)
  }

  /** Heads first, then tails; a dynamic head is the offset of its tail. */
  function Encode(vs: seq<Value>): Hex
    requires IsEncodable(vs)
  {
    Heads(vs, |vs|) + Tails(vs)
  }

  // ----- The client's encoder -----

  /** big.toString(16) */
  function ToHex(n: nat): (h: Hex)
    ensures |h| >= 1
  {
    if n < 16 then [n] else ToHex(n / 16) + [n % 16]
  }

  function Pad64(h: Hex): Result<Hex> {
    if |h| > 64 then Err(ValueTooLarge) else Ok(Zeros(64 - |h|) + h)
  }

  function UintHex(value: int): Result<Hex> {
    if value < 0 then Err(NegativeInteger) else Pad64(ToHex(value))
  }

  function Join(parts: seq<Result<Hex>>): Result<Hex> {
    if parts == [] then Ok([])
    else
      match Join(parts[..|parts| - 1])
      case Err(e) => Err(e)
      case Ok(front) =>
        match parts[|parts| - 1]
        case Err(e) => Err(e)
        case Ok(last) => Ok(front + last)
  }

  /** padEnd(Math.ceil(length / 64) * 64, "0") */
  function PadEnd(h: Hex): Hex { h + Zeros((|h| + 63) / 64 * 64 - |h|) }

  /** destinationScript is the cleaned hex text: lower-case digits without 0x. */
  function EncodeBurn(selector: Hex, script: Hex, amountSats: int, maxMinerFeeSats: int, deadline: int): Result<Hex> {
    if script == [] || |script| % 2 != 0 then Err(InvalidScript)
    else Join([Ok(selector), UintHex(128), UintHex(amountSats), UintHex(maxMinerFeeSats), UintHex(deadline),
               UintHex(|script| / 2), Ok(PadEnd(script))])
  }

  // ----- uintHex is the word of the specification -----

  lemma {:induction false} ToHexIsMinimal(n: nat, count: nat)
    requires count >= 1
    ensures n < B.Pow2(4 * count) <==> |ToHex(n)| <= count
    ensures |ToHex(n)| <= count ==> FixedHex(n, count) == Zeros(count - |ToHex(n)|) + ToHex(n)
    decreases n
  {
    hide B.Pow2;
    Pow16();
    B.Pow2Adds(4 * (count - 1), 4);
    if n < 16 {
      B.Pow2Adds(4, 4 * (count - 1));
      AtLeast(B.Pow2(4 * (count - 1)));
      SmallDigits(n, count);
    } else {
      if count == 1 {
        assert |ToHex(n)| >= 2;
      } else {
        ToHexIsMinimal(n / 16, count - 1);
        assert n < B.Pow2(4 * count) <==> n / 16 < B.Pow2(4 * (count - 1));
        LastDigit(n, count);
      }
    }
  }

  lemma AtLeast(p: nat)
    requires p >= 1
    ensures 16 * p >= 16
  {
  }

  lemma LastDigit(n: nat, count: nat)
    requires count >= 1
    ensures FixedHex(n, count) == FixedHex(n / 16, count - 1) + [n % 16]
  {
    Pow16();
  }

  lemma {:induction false} SmallDigits(n: nat, count: nat)
    requires n < 16 && count >= 1
    ensures FixedHex(n, count) == Zeros(count - 1) + [n]
    decreases count
  {
    LastDigit(n, count);
    ZeroDigits(count - 1);
  }

  lemma {:induction false} ZeroDigits(count: nat)
    ensures FixedHex(0, count) == Zeros(count)
  {
    if count > 0 {
      LastDigit(0, count);
      ZeroDigits(count - 1);
    }
  }

  /** uintHex writes the 32-byte word of every value that has one, and refuses the others. */
  lemma UintHexIsWord(value: int)
    ensures 0 <= value < TWO_256 ==> UintHex(value) == Ok(Word(value))
    ensures value < 0 ==> UintHex(value) == Err(NegativeInteger)
    ensures value >= TWO_256 ==> UintHex(value) == Err(ValueTooLarge)
  {
    hide ToHex, Word, B.Pow2;
    if value >= 0 {
      ToHexIsMinimal(value, 64);
      Pow256Bits();
      assert 0 <= value < TWO_256 ==> Word(value) == FixedHex(value, 64) by { WordIs(value); }
    }
  }

  lemma WordIs(value: nat)
    ensures value < TWO_256 ==> Word(value) == FixedHex(value, 64)
  {
  }

  // ----- The client writes what the specification says -----

  function BurnArguments(script: Hex, amountSats: Uint256, maxMinerFeeSats: Uint256, deadline: Uint256): seq<Value> {
    [Bytes(script), Uint(amountSats), Uint(maxMinerFeeSats), Uint(deadline)]
  }

  lemma BurnIsEncodable(script: Hex, amountSats: Uint256, maxMinerFeeSats: Uint256, deadline: Uint256)
    requires |script| % 2 == 0 && |script| / 2 < TWO_256 / 2
    ensures IsEncodable(BurnArguments(script, amountSats, maxMinerFeeSats, deadline))
    ensures Encode(BurnArguments(script, amountSats, maxMinerFeeSats, deadline))
         == Word(128) + Word(amountSats) + Word(maxMinerFeeSats) + Word(deadline) + BytesTail(script)
  {
    hide Word, BytesTail, PadLength;
    var vs := BurnArguments(script, amountSats, maxMinerFeeSats, deadline);
    assert vs[..1][..0] == [] && vs[..2][..1] == vs[..1] && vs[..3][..2] == vs[..2] && vs[..4][..3] == vs[..3];
    assert vs[..4] == vs && vs[..0] == [];
    assert Tails(vs[..1]) == BytesTail(script);
    assert Tails(vs[..2]) == BytesTail(script);
    assert Tails(vs[..3]) == BytesTail(script);
    assert Tails(vs) == BytesTail(script);
    TailIsShort(script);
    assert Offset(vs, 0) == 128;
    assert Heads(vs, 1) == Word(128);
    assert Heads(vs, 2) == Word(128) + Word(amountSats);
    assert Heads(vs, 3) == Word(128) + Word(amountSats) + Word(maxMinerFeeSats);
    assert Heads(vs, 4) == Word(128) + Word(amountSats) + Word(maxMinerFeeSats) + Word(deadline);
  }

  lemma TailIsShort(script: Hex)
    requires |script| / 2 < TWO_256 / 2
    ensures 256 + |BytesTail(script)| / 2 < TWO_256
  {
  }

  lemma PadEndIsPadded(script: Hex)
    ensures PadEnd(script) == script + Zeros(PadLength(|script|))
  {
    var n := |script|;
    assert n == 64 * (n / 64) + n % 64;
    if n % 64 == 0 {
      assert (n + 63) / 64 == n / 64;
    } else {
      assert (n + 63) / 64 == n / 64 + 1;
    }
  }

  lemma JoinNext(parts: seq<Result<Hex>>, joined: Hex, next: Hex)
    requires Join(parts) == Ok(joined)
    ensures Join(parts + [Ok(next)]) == Ok(joined + next)
  {
    assert (parts + [Ok(next)])[..|parts|] == parts;
  }

  lemma JoinSeven(a: Hex, b: Hex, c: Hex, d: Hex, e: Hex, f: Hex, g: Hex)
    ensures Join([Ok(a), Ok(b), Ok(c), Ok(d), Ok(e), Ok(f), Ok(g)]) == Ok(a + b + c + d + e + f + g)
  {
    var none: seq<Result<Hex>> := [];
    var p1 := none + [Ok(a)];
    var p2 := p1 + [Ok(b)];
    var p3 := p2 + [Ok(c)];
    var p4 := p3 + [Ok(d)];
    var p5 := p4 + [Ok(e)];
    var p6 := p5 + [Ok(f)];
    JoinNext(none, [], a);
    hide Join;
    assert [] + a == a;
    JoinNext(p1, a, b);
    JoinNext(p2, a + b, c);
    JoinNext(p3, a + b + c, d);
    JoinNext(p4, a + b + c + d, e);
    JoinNext(p5, a + b + c + d + e, f);
    JoinNext(p6, a + b + c + d + e + f, g);
    assert p6 + [Ok(g)] == [Ok(a), Ok(b), Ok(c), Ok(d), Ok(e), Ok(f), Ok(g)];
  }

  /** encodeBurn is the selector and the specification's encoding of the four arguments. */
  lemma EncodeBurnIsAbi(selector: Hex, script: Hex, amountSats: Uint256, maxMinerFeeSats: Uint256, deadline: Uint256)
    requires script != [] && |script| % 2 == 0 && |script| / 2 < TWO_256 / 2
    ensures IsEncodable(BurnArguments(script, amountSats, maxMinerFeeSats, deadline))
    ensures EncodeBurn(selector, script, amountSats, maxMinerFeeSats, deadline)
         == Ok(selector + Encode(BurnArguments(script, amountSats, maxMinerFeeSats, deadline)))
  {
    hide Word, UintHex, Zeros, Join, PadEnd, PadLength, Encode, IsEncodable;
    BurnIsEncodable(script, amountSats, maxMinerFeeSats, deadline);
    UintHexIsWord(128);
    UintHexIsWord(amountSats);
    UintHexIsWord(maxMinerFeeSats);
    UintHexIsWord(deadline);
    UintHexIsWord(|script| / 2);
    PadEndIsPadded(script);
    var (o, a, f, d, n) := (Word(128), Word(amountSats), Word(maxMinerFeeSats), Word(deadline), Word(|script| / 2));
    var padded := script + Zeros(PadLength(|script|));
    JoinSeven(selector, o, a, f, d, n, padded);
    assert BytesTail(script) == n + padded;
    assert selector + o + a + f + d + n + padded == selector + (o + a + f + d + (n + padded));
  }

  // ----- The decoder -----

  /** text.slice(a, b) for a <= b: cut off at the end of the text. */
  function Slice(h: Hex, a: nat, b: nat): Hex
    requires a <= b
  {
    if a >= |h| then [] else if b >= |h| then h[a..] else h[a..b]
  }

  function WordAt(data: Hex, index: nat): Result<Hex> {
    var out := Slice(data, index * 64, index * 64 + 64);
    if |out| != 64 then Err(DataTooShort) else Ok(out)
  }

  function UintWord(data: Hex, index: nat): Result<nat> {
    match WordAt(data, index)
    case Err(e) => Err(e)
    case Ok(w) => Ok(HexValue(w))
  }

  /** A length that is not there is not a number; bytes that are not there are left out. */
  function BytesWord(data: Hex, offsetBytes: nat): Result<Hex> {
    var offset := offsetBytes * 2;
    var digits := Slice(data, offset, offset + 64);
    if digits == [] then Err(NotANumber)
    else
      var length := HexValue(digits);
      var start := offset + 64;
      Ok(Slice(data, start, start + length * 2))
  }

  datatype Log = Log(topics: seq<Hex>, data: Hex)

  datatype RedeemLog = RedeemLog(
    requestHash: Hex, requester: Hex, destinationScriptHash: Hex,
    requestNonce: nat, amountSats: nat, maxMinerFeeSats: nat, deadline: nat, destinationScriptPubKey: Hex)

  /** The last 40 digits of a topic. */
  function TopicAddress(topic: Hex): Hex {
    if |topic| <= 40 then topic else topic[|topic| - 40..]
  }

  function DecodeRedeemLog(log: Log): Result<RedeemLog> {
    match WordAt(log.data, 4)
    case Err(e) => Err(e)
    case Ok(w) =>
      if |log.topics| < 4 then Err(MissingTopic)
      else
        match (UintWord(log.data, 0), UintWord(log.data, 1), UintWord(log.data, 2), UintWord(log.data, 3))
        case (Ok(nonce), Ok(amount), Ok(fee), Ok(deadline)) =>
          (match BytesWord(log.data, HexValue(w))
           case Err(e) => Err(e)
           case Ok(script) =>
             Ok(RedeemLog(log.topics[1], TopicAddress(log.topics[2]), log.topics[3], nonce, amount, fee, deadline,
                          script)))
        case _ => Err(DataTooShort)
  }

  // ----- Reading back -----

  lemma WordReads(n: Uint256)
    ensures HexValue(Word(n)) == n
  {
    hide B.Pow2;
    Pow256Bits();
    B.ValueOfDigits(n, 64, 4);
  }

  lemma WordAtReads(before: Hex, n: Uint256, after: Hex, index: nat)
    requires |before| == index * 64
    ensures WordAt(before + Word(n) + after, index) == Ok(Word(n))
    ensures UintWord(before + Word(n) + after, index) == Ok(n)
  {
    hide Word, HexValue;
    var data := before + Word(n) + after;
    assert data[index * 64..index * 64 + 64] == Word(n);
    if after == [] {
      assert data[index * 64..] == Word(n);
    }
    WordReads(n);
  }

  lemma BytesWordReads(before: Hex, digits: Hex, after: Hex)
    requires |before| % 2 == 0 && |digits| % 2 == 0 && |digits| / 2 < TWO_256
    ensures BytesWord(before + BytesTail(digits) + after, |before| / 2) == Ok(digits)
  {
    hide Word, HexValue, Zeros, PadLength;
    var n := |digits| / 2;
    var rest := digits + Zeros(PadLength(|digits|)) + after;
    var data := before + BytesTail(digits) + after;
    assert data == before + Word(n) + rest;
    var offset := |before|;
    WordReads(n);
    assert data[offset..offset + 64] == Word(n);
    assert |rest| == 0 ==> data[offset..] == Word(n);
    assert Slice(data, offset, offset + 64) == Word(n);
    assert data[offset + 64..] == rest && rest[..|digits|] == digits;
    if |data| <= offset + 64 + 2 * n {
      assert rest == digits;
    } else {
      assert data[offset + 64..offset + 64 + 2 * n] == rest[..2 * n];
    }
  }

  /** What the client encodes for a burn is read back by the decoder's word rules. */
  lemma BurnRoundTrip(selector: Hex, script: Hex, amountSats: Uint256, maxMinerFeeSats: Uint256, deadline: Uint256)
    requires script != [] && |script| % 2 == 0 && |script| / 2 < TWO_256 / 2
    ensures var encoded := EncodeBurn(selector, script, amountSats, maxMinerFeeSats, deadline);
      && encoded.Ok? && |selector| <= |encoded.value|
      && var data := encoded.value[|selector|..];
         && UintWord(data, 0) == Ok(128) && BytesWord(data, 128) == Ok(script)
         && UintWord(data, 1) == Ok(amountSats) && UintWord(data, 2) == Ok(maxMinerFeeSats)
         && UintWord(data, 3) == Ok(deadline)
  {
    hide Word, EncodeBurn, BytesTail, UintWord, BytesWord, IsEncodable, Encode, BurnArguments, PadLength;
    EncodeBurnIsAbi(selector, script, amountSats, maxMinerFeeSats, deadline);
    BurnIsEncodable(script, amountSats, maxMinerFeeSats, deadline);
    var (o, a, f, d, t) := (Word(128), Word(amountSats), Word(maxMinerFeeSats), Word(deadline), BytesTail(script));
    var data := o + a + f + d + t;
    assert (selector + data)[|selector|..] == data;
    assert data == [] + o + (a + f + d + t);
    WordAtReads([], 128, a + f + d + t, 0);
    assert data == o + a + (f + d + t);
    WordAtReads(o, amountSats, f + d + t, 1);
    assert data == o + a + f + (d + t);
    WordAtReads(o + a, maxMinerFeeSats, d + t, 2);
    WordAtReads(o + a + f, deadline, t, 3);
    assert data == o + a + f + d + t + [];
    BytesWordReads(o + a + f + d, script, []);
  }

  /**
    Exactly which logs are decoded: with four topics, five whole words of data and an offset inside the
    data; the fields are then the topics, the address in the last 40 digits of its topic, and the words.
   */
  lemma RedeemLogIsDecided(log: Log)
    ensures var r := DecodeRedeemLog(log);
      && (r.Ok? <==> && |log.topics| >= 4 && |log.data| >= 5 * 64
                     && 2 * HexValue(log.data[4 * 64..5 * 64]) < |log.data|)
      && (r.Ok? ==>
           && r.value.requestHash == log.topics[1] && r.value.destinationScriptHash == log.topics[3]
           && (|log.topics[2]| >= 40 ==> r.value.requester == log.topics[2][|log.topics[2]| - 40..])
           && r.value.requestNonce == HexValue(log.data[..64]) && r.value.amountSats == HexValue(log.data[64..128])
           && r.value.maxMinerFeeSats == HexValue(log.data[128..192])
           && r.value.deadline == HexValue(log.data[192..256]))
  {
    hide HexValue;
    if |log.data| >= 320 {
      WordIsSlice(log.data, 0);
      WordIsSlice(log.data, 1);
      WordIsSlice(log.data, 2);
      WordIsSlice(log.data, 3);
      WordIsSlice(log.data, 4);
    }
  }

  lemma WordIsSlice(data: Hex, index: nat)
    requires index * 64 + 64 <= |data|
    ensures WordAt(data, index) == Ok(data[index * 64..index * 64 + 64])
  {
    if |data| == index * 64 + 64 {
      assert data[index * 64..] == data[index * 64..index * 64 + 64];
    }
  }

  function RedeemArguments(nonce: Uint256, amountSats: Uint256, maxMinerFeeSats: Uint256, deadline: Uint256,
                           script: Hex): seq<Value> {
    [Uint(nonce), Uint(amountSats), Uint(maxMinerFeeSats), Uint(deadline), Bytes(script)]
  }

  lemma RedeemIsEncodable(nonce: Uint256, amountSats: Uint256, maxMinerFeeSats: Uint256, deadline: Uint256, script: Hex)
    requires |script| % 2 == 0 && |script| / 2 < TWO_256 / 2
    ensures IsEncodable(RedeemArguments(nonce, amountSats, maxMinerFeeSats, deadline, script))
    ensures Encode(RedeemArguments(nonce, amountSats, maxMinerFeeSats, deadline, script))
         == Word(nonce) + Word(amountSats) + Word(maxMinerFeeSats) + Word(deadline) + Word(160) + BytesTail(script)
  {
    hide Word, BytesTail;
    var vs := RedeemArguments(nonce, amountSats, maxMinerFeeSats, deadline, script);
    assert vs[..1][..0] == [] && vs[..2][..1] == vs[..1] && vs[..3][..2] == vs[..2] && vs[..4][..3] == vs[..3];
    assert vs[..5] == vs && vs[..5][..4] == vs[..4] && vs[..0] == [];
    assert Tails(vs[..1]) == [];
    assert Tails(vs[..2]) == [];
    assert Tails(vs[..3]) == [];
    assert Tails(vs[..4]) == [];
    assert Tails(vs) == BytesTail(script);
    assert Heads(vs, 1) == Word(nonce);
    assert Heads(vs, 2) == Word(nonce) + Word(amountSats);
    assert Heads(vs, 3) == Word(nonce) + Word(amountSats) + Word(maxMinerFeeSats);
    assert Heads(vs, 4) == Word(nonce) + Word(amountSats) + Word(maxMinerFeeSats) + Word(deadline);
  }

  /** The decoder inverts the event the gateway emits, for every script. */
  lemma RedeemLogRoundTrip(signature: Hex, requestHash: Hex, requester: Hex, scriptHash: Hex,
                           nonce: Uint256, amountSats: Uint256, maxMinerFeeSats: Uint256, deadline: Uint256,
                           script: Hex)
    requires |requester| == 40 && |script| % 2 == 0 && |script| / 2 < TWO_256 / 2
    ensures IsEncodable(RedeemArguments(nonce, amountSats, maxMinerFeeSats, deadline, script))
    ensures DecodeRedeemLog(Log([signature, requestHash, Zeros(24) + requester, scriptHash],
                                Encode(RedeemArguments(nonce, amountSats, maxMinerFeeSats, deadline, script))))
         == Ok(RedeemLog(requestHash, requester, scriptHash, nonce, amountSats, maxMinerFeeSats, deadline, script))
  {
    hide Word, BytesTail, UintWord, BytesWord, WordAt, Encode, HexValue;
    RedeemIsEncodable(nonce, amountSats, maxMinerFeeSats, deadline, script);
    var data := Encode(RedeemArguments(nonce, amountSats, maxMinerFeeSats, deadline, script));
    var (n, a, f, d, o, t) := (Word(nonce), Word(amountSats), Word(maxMinerFeeSats), Word(deadline), Word(160),
                               BytesTail(script));
    assert data == [] + n + (a + f + d + o + t);
    WordAtReads([], nonce, a + f + d + o + t, 0);
    assert data == n + a + (f + d + o + t);
    WordAtReads(n, amountSats, f + d + o + t, 1);
    assert data == n + a + f + (d + o + t);
    WordAtReads(n + a, maxMinerFeeSats, d + o + t, 2);
    assert data == n + a + f + d + (o + t);
    WordAtReads(n + a + f, deadline, o + t, 3);
    assert data == n + a + f + d + o + t;
    WordAtReads(n + a + f + d, 160, t, 4);
    WordReads(160);
    assert data == n + a + f + d + o + t + [];
    BytesWordReads(n + a + f + d + o, script, []);
    assert (Zeros(24) + requester)[24..] == requester;
  }
}
