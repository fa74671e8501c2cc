/**
  The deterministic CBOR encoder of Functions requests, against a reader of RFC 8949, section 3.

  Text is its UTF-8 octets. The reader knows the major types the request uses and accepts lengths
  in any form; the encoder must therefore be shown to use the shortest (HeadIsShortest), to sort
  keys strictly (section 4.2.1) whatever order the entries came in, and to be read back exactly
  (RequestRoundTrip) with any bytes following.
 */
module Cbor {
  import B = BitGroups

  type Octet = n: int | 0 <= n < 256
  type Buffer = seq<Octet>

  datatype Option<+T> = None | Some(value: T)

  datatype Error = InvalidLength | EmptySource | InvalidSecretsLocation

  datatype Result<+T> = Ok(value: T) | Err(error: Error)

  const MAX_SAFE_INTEGER: nat := 0x1f_ffff_ffff_ffff

  // ----- The encoder -----

  function BigEndian(n: nat, size: nat): (b: Buffer)
    ensures |b| == size
  {
    DigitsAreOctets(n, size);
    B.Digits(n, size, 8)
  }

  lemma {:induction false} DigitsAreOctets(n: nat, size: nat)
    ensures forall i :: 0 <= i < size ==> 0 <= B.Digits(n, size, 8)[i] < 256
    decreases size
  {
    hide B.Shr, B.Low, B.Pow2;
    if size > 0 {
      DigitsAreOctets(B.Shr(n, 8), size - 1);
      B.LowIsSmall(n, 8);
      Pow256();
    }
  }

  lemma Pow256()
    ensures B.Pow2(8) == 256
  {
    assert B.Pow2(2) == 4;
    assert B.Pow2(4) == 16;
    assert B.Pow2(6) == 64;
  }

  /** encodeLength for the lengths it accepts. */
  function Head(major: nat, length: nat): (b: Buffer)
    requires major < 8 && length <= MAX_SAFE_INTEGER
  {
    if length < 24 then [major * 32 + length]
    else if length <= 0xff then [major * 32 + 24, length]
    else if length <= 0xffff then [major * 32 + 25] + BigEndian(length, 2)
    else if length <= 0xffff_ffff then [major * 32 + 26] + BigEndian(length, 4)
    else [major * 32 + 27] + BigEndian(length, 8)
  }

  function EncodeLength(major: nat, length: int): Result<Buffer>
    requires major < 8
  {
    if length < 0 || length > MAX_SAFE_INTEGER then Err(InvalidLength) else Ok(Head(major, length))
  }

  /** writeUInt16BE, writeUInt32BE and writeBigUInt64BE */
  method WriteBigEndian(out: array<Octet>, n: nat, offset: nat, size: nat)
    requires offset + size <= out.Length
    modifies out
    ensures out[..] == old(out[..offset]) + BigEndian(n, size) + old(out[offset + size..])
  {
    hide B.Shr, B.Low, B.Pow2;
    var rest, i := n, size;
    while i > 0
      invariant 0 <= i <= size
      invariant out[..offset + i] == old(out[..offset + i])
      invariant BigEndian(n, size) == BigEndian(rest, i) + out[offset + i..offset + size]
      invariant out[offset + size..] == old(out[offset + size..])
    {
      i := i - 1;
      B.LowIsSmall(rest, 8);
      Pow256();
      out[offset + i] := B.Low(rest, 8);
      rest := B.Shr(rest, 8);
    }
    assert out[..] == out[..offset] + out[offset..offset + size] + out[offset + size..];
  }

  /** encodeLength */
  method EncodedLength(major: nat, length: int) returns (result: Result<Buffer>)
    requires major < 8
    ensures result == EncodeLength(major, length)
  {
    hide B.Shr, B.Low, B.Pow2, BigEndian;
    if length < 0 || length > MAX_SAFE_INTEGER {
      return Err(InvalidLength);
    }
    var first: Octet := major * 32;
    if length < 24 {
      return Ok([first + length]);
    }
    if length <= 0xff {
      return Ok([first + 24, length]);
    }
    var (info, size) := if length <= 0xffff then (25, 2) else if length <= 0xffff_ffff then (26, 4) else (27, 8);
    var out := new Octet[1 + size](i => 0);
    out[0] := first + info;
    assert out[..1] == [first + info] && out[1 + size..] == [];
    WriteBigEndian(out, length, 1, size);
    assert out[..] == [first + info] + BigEndian(length, size);
    return Ok(out[..]);
  }

  /** The two kinds of string: major type 2 for bytes, 3 for text. */
  datatype Kind = ByteString | TextString

  function MajorOf(kind: Kind): nat {
    match kind
    case ByteString => 2
    case TextString => 3
  }

  /** encodeBytes and encodeText */
  function EncodeString(kind: Kind, bytes: Buffer): Result<Buffer> {
    match EncodeLength(MajorOf(kind), |bytes|)
    case Err(e) => Err(e)
    case Ok(head) => Ok(head + bytes)
  }

  function EncodeStrings(kind: Kind, values: seq<Buffer>): Result<Buffer> {
    if values == [] then Ok([])
    else
      match EncodeStrings(kind, values[..|values| - 1])
      case Err(e) => Err(e)
      case Ok(front) =>
        match EncodeString(kind, values[|values| - 1])
        case Err(e) => Err(e)
        case Ok(last) => Ok(front + last)
  }

  function EncodeArray(kind: Kind, values: seq<Buffer>): Result<Buffer> {
    match EncodeLength(4, |values|)
    case Err(e) => Err(e)
    case Ok(head) =>
      match EncodeStrings(kind, values)
      case Err(e) => Err(e)
      case Ok(body) => Ok(head + body)
  }

  // ----- The order of keys -----

  /** a comes before b: at the first difference, or as a proper prefix. */
  predicate Before(a: Buffer, b: Buffer) {
    if a == [] then b != []
    else if b == [] then false
    else a[0] < b[0] || (a[0] == b[0] && Before(a[1..], b[1..]))
  }

  /** The octets agree up to position k, where a ends or has the smaller octet. */
  predicate ComesFirstAt(a: Buffer, b: Buffer, k: nat) {
    k <= |a| && k < |b| && a[..k] == b[..k] && (k == |a| || a[k] < b[k])
  }

  /** The bytewise lexicographic order of section 4.2.1. */
  lemma {:induction false} BeforeIsBytewise(a: Buffer, b: Buffer)
    ensures Before(a, b) <==> exists k: nat :: ComesFirstAt(a, b, k)
    decreases |a|
  {
    if a == [] {
      assert b != [] ==> ComesFirstAt(a, b, 0);
    } else if b != [] {
      if a[0] < b[0] {
        assert ComesFirstAt(a, b, 0);
      } else if a[0] == b[0] {
        BeforeIsBytewise(a[1..], b[1..]);
        forall k: nat | ComesFirstAt(a[1..], b[1..], k) ensures ComesFirstAt(a, b, k + 1) {
          assert a[..k + 1] == [a[0]] + a[1..][..k] && b[..k + 1] == [b[0]] + b[1..][..k];
        }
        forall k: nat | ComesFirstAt(a, b, k) ensures k > 0 && ComesFirstAt(a[1..], b[1..], k - 1) {
          assert a[1..][..k - 1] == a[..k][1..] && b[1..][..k - 1] == b[..k][1..];
        }
        if Before(a[1..], b[1..]) {
          var k: nat :| ComesFirstAt(a[1..], b[1..], k);
          assert ComesFirstAt(a, b, k + 1);
        }
      } else {
        SharedStarts(a, b);
      }
    }
  }

  lemma SharedStarts(a: Buffer, b: Buffer)
    requires a != [] && b != []
    ensures forall k: nat :: ComesFirstAt(a, b, k) && k > 0 ==> a[0] == b[0]
  {
    forall k: nat | ComesFirstAt(a, b, k) && k > 0 ensures a[0] == b[0] {
      assert a[..k][0] == b[..k][0];
    }
  }

  method CompareBuffers(a: Buffer, b: Buffer) returns (order: int)
    ensures order < 0 <==> exists k: nat :: ComesFirstAt(a, b, k)
    ensures order > 0 <==> exists k: nat :: ComesFirstAt(b, a, k)
    ensures order < 0 <==> Before(a, b)
    ensures order > 0 <==> Before(b, a)
    ensures order == 0 <==> a == b
  {
    BeforeIsBytewise(a, b);
    BeforeIsBytewise(b, a);
    hide ComesFirstAt;
    var shared := if |a| < |b| then |a| else |b|;
    for i := 0 to shared
      invariant a[..i] == b[..i]
      invariant Before(a, b) == Before(a[i..], b[i..]) && Before(b, a) == Before(b[i..], a[i..])
    {
      if a[i] != b[i] {
        var left: int, right: int := a[i], b[i];
        return left - right;
      }
      assert a[i..][1..] == a[i + 1..] && b[i..][1..] == b[i + 1..];
    }
    assert |a| == |b| ==> a == a[..shared] && b == b[..shared];
    return |a| - |b|;
  }

  lemma {:induction false} BeforeIsTransitive(a: Buffer, b: Buffer, c: Buffer)
    requires Before(a, b) && Before(b, c)
    ensures Before(a, c)
    decreases |a|
  {
    if a != [] && a[0] == b[0] == c[0] {
      BeforeIsTransitive(a[1..], b[1..], c[1..]);
    }
  }

  lemma {:induction false} BeforeIsStrict(a: Buffer, b: Buffer)
    ensures Before(a, b) ==> !Before(b, a)
    ensures Before(a, b) || Before(b, a) || a == b
    ensures !Before(a, a)
    decreases |a|
  {
    if a != [] {
      if b != [] && a[0] == b[0] {
        BeforeIsStrict(a[1..], b[1..]);
        assert a == [a[0]] + a[1..] && b == [b[0]] + b[1..];
      }
      BeforeIsStrict(a[1..], a[1..]);
    }
  }

  // ----- The sorted map -----

  /** A map entry as the encoder holds it: the encoded key and the encoded value. */
  datatype Pair = Pair(key: Buffer, value: Buffer)

  function Insert(p: Pair, sorted: seq<Pair>): seq<Pair> {
    if sorted == [] then [p]
    else if Before(p.key, sorted[0].key) then [p] + sorted
    else [sorted[0]] + Insert(p, sorted[1..])
  }

  function Sort(pairs: seq<Pair>): seq<Pair> {
    if pairs == [] then [] else Insert(pairs[|pairs| - 1], Sort(pairs[..|pairs| - 1]))
  }

  predicate DistinctKeys(pairs: seq<Pair>) {
    forall i, j :: 0 <= i < j < |pairs| ==> pairs[i].key != pairs[j].key
  }

  predicate StrictlyIncreasing(pairs: seq<Pair>) {
    forall i, j :: 0 <= i < j < |pairs| ==> Before(pairs[i].key, pairs[j].key)
  }

  function Flatten(pairs: seq<Pair>): Buffer {
    if pairs == [] then [] else Flatten(pairs[..|pairs| - 1]) + pairs[|pairs| - 1].key + pairs[|pairs| - 1].value
  }

  function EncodeSortedMap(pairs: seq<Pair>): Result<Buffer> {
    match EncodeLength(5, |pairs|)
    case Err(e) => Err(e)
    case Ok(head) => Ok(head + Flatten(Sort(pairs)))
  }

  /** The first entry of an increasing list comes before every other. */
  lemma LeastFirst(sorted: seq<Pair>, p: Pair)
    requires StrictlyIncreasing(sorted) && p in sorted
    ensures p == sorted[0] || Before(sorted[0].key, p.key)
    ensures StrictlyIncreasing(sorted[1..]) && sorted == [sorted[0]] + sorted[1..]
  {
    hide Before;
    var i :| 0 <= i < |sorted| && sorted[i] == p;
  }

  lemma PutFirst(first: Pair, rest: seq<Pair>)
    requires StrictlyIncreasing(rest)
    requires forall q :: q in rest ==> Before(first.key, q.key)
    ensures StrictlyIncreasing([first] + rest)
  {
    hide Before;
    forall i, j | 0 <= i < j < |[first] + rest| ensures Before(([first] + rest)[i].key, ([first] + rest)[j].key) {
      assert rest[j - 1] in rest;
    }
  }

  lemma {:induction false} InsertKeepsOrder(p: Pair, sorted: seq<Pair>)
    requires StrictlyIncreasing(sorted) && forall q :: q in sorted ==> q.key != p.key
    ensures StrictlyIncreasing(Insert(p, sorted))
    ensures multiset(Insert(p, sorted)) == multiset(sorted) + multiset{p}
    decreases |sorted|
  {
    hide Before, StrictlyIncreasing;
    if sorted == [] {
      assert [p] + sorted == [p];
      OnePairIncreases(p);
    } else {
      var (first, rest) := (sorted[0], sorted[1..]);
      LeastFirst(sorted, first);
      BeforeIsStrict(p.key, first.key);
      if Before(p.key, first.key) {
        forall q | q in sorted ensures Before(p.key, q.key) {
          LeastFirst(sorted, q);
          if q != first {
            BeforeIsTransitive(p.key, first.key, q.key);
          }
        }
        PutFirst(p, sorted);
      } else {
        InsertKeepsOrder(p, rest);
        forall q | q in Insert(p, rest) ensures Before(first.key, q.key) {
          assert q in multiset(Insert(p, rest));
          if q != p {
            LeastFirst(sorted, q);
            FirstIsNotRepeated(sorted, q);
          }
        }
        PutFirst(first, Insert(p, rest));
      }
    }
  }

  lemma OnePairIncreases(p: Pair)
    ensures StrictlyIncreasing([p])
  {
  }

  lemma NoPairIncreases()
    ensures StrictlyIncreasing([])
  {
  }

  lemma FirstIsNotRepeated(sorted: seq<Pair>, q: Pair)
    requires StrictlyIncreasing(sorted) && sorted != [] && q in sorted[1..]
    ensures q != sorted[0]
  {
    hide Before;
    var i :| 0 <= i < |sorted| - 1 && sorted[1..][i] == q;
    BeforeIsStrict(sorted[0].key, sorted[i + 1].key);
  }

  /** Whatever order distinct keys come in, they leave strictly increasing, with the same entries. */
  lemma {:induction false} SortSorts(pairs: seq<Pair>)
    requires DistinctKeys(pairs)
    ensures StrictlyIncreasing(Sort(pairs))
    ensures multiset(Sort(pairs)) == multiset(pairs)
    decreases |pairs|
  {
    hide Before, StrictlyIncreasing;
    assert pairs == [] ==> StrictlyIncreasing([]) by { NoPairIncreases(); }
    if pairs != [] {
      var (front, last) := (pairs[..|pairs| - 1], pairs[|pairs| - 1]);
      assert pairs == front + [last];
      SortSorts(front);
      forall q | q in Sort(front) ensures q.key != last.key {
        assert q in multiset(front);
      }
      InsertKeepsOrder(last, Sort(front));
    }
  }

  /** There is one increasing order of a set of entries. */
  lemma {:induction false} OneIncreasingOrder(a: seq<Pair>, b: seq<Pair>)
    requires StrictlyIncreasing(a) && StrictlyIncreasing(b) && forall p :: p in a <==> p in b
    ensures a == b
    decreases |a|
  {
    hide Before, StrictlyIncreasing;
    HasFirst(b);
    if a != [] {
      assert a[0] in b;
      assert b[0] in a;
      LeastFirst(a, b[0]);
      LeastFirst(b, a[0]);
      BeforeIsStrict(a[0].key, b[0].key);
      forall p ensures p in a[1..] <==> p in b[1..] {
        InRest(a, p);
        InRest(b, p);
      }
      OneIncreasingOrder(a[1..], b[1..]);
    }
  }

  lemma HasFirst(b: seq<Pair>)
    ensures b == [] || exists p :: p in b
  {
    if b != [] {
      assert b[0] in b;
    }
  }

  lemma InRest(sorted: seq<Pair>, p: Pair)
    requires StrictlyIncreasing(sorted) && sorted != []
    ensures p in sorted[1..] <==> p in sorted && p != sorted[0]
  {
    hide StrictlyIncreasing;
    assert sorted == [sorted[0]] + sorted[1..];
    if p in sorted[1..] {
      FirstIsNotRepeated(sorted, p);
    }
  }

  /** The encoded map does not depend on the order of its entries. */
  lemma EntryOrderDoesNotMatter(a: seq<Pair>, b: seq<Pair>)
    requires DistinctKeys(a) && DistinctKeys(b) && |a| == |b| && forall p :: p in a <==> p in b
    ensures EncodeSortedMap(a) == EncodeSortedMap(b)
  {
    SortedOnce(a, b);
  }

  lemma SortedOnce(a: seq<Pair>, b: seq<Pair>)
    requires DistinctKeys(a) && DistinctKeys(b) && forall p :: p in a <==> p in b
    ensures Sort(a) == Sort(b)
  {
    hide Sort, DistinctKeys, StrictlyIncreasing;
    SortSorts(a);
    SortSorts(b);
    forall p ensures p in Sort(a) <==> p in Sort(b) {
      assert p in Sort(a) <==> p in multiset(Sort(a));
      assert p in Sort(b) <==> p in multiset(Sort(b));
      assert p in multiset(a) <==> p in a;
      assert p in multiset(b) <==> p in b;
    }
    OneIncreasingOrder(Sort(a), Sort(b));
  }
}
