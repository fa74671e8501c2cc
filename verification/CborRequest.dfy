/**
  buildFunctionsRequestCBOR read back by a reader of RFC 8949, section 3.
 */
module CborRequest {
  import B = BitGroups
  import A = Abi
  import opened Cbor

  // ----- The reader -----

  datatype Item =
    | Unsigned(n: nat)
    | Bytes(data: Buffer)
    | Text(data: Buffer)
    | Array(items: seq<Item>)
    | Map(entries: seq<Entry>)

  datatype Entry = Entry(key: Item, value: Item)

  datatype ReadHead = ReadHead(major: nat, argument: nat, rest: Buffer)
  datatype ReadItem = ReadItem(item: Item, rest: Buffer)
  datatype ReadItems = ReadItems(items: seq<Item>, rest: Buffer)
  datatype ReadEntries = ReadEntries(entries: seq<Entry>, rest: Buffer)

  function FromBigEndian(b: Buffer): nat {
    OctetsAreInRange(b);
    B.Value(b, 8)
  }

  lemma OctetsAreInRange(b: Buffer)
    ensures B.InRange(b, 8)
  {
    Pow256();
  }

  /** The initial byte and its argument; indefinite and reserved forms are not read. */
  function TakeHead(b: Buffer): (r: Option<ReadHead>)
    ensures r.Some? ==> |r.value.rest| < |b| && r.value.major < 8
  {
    if b == [] then None
    else
      var (major, info) := (b[0] / 32, b[0] % 32);
      var size := if info == 24 then 1 else if info == 25 then 2 else if info == 26 then 4 else 8;
      if info < 24 then Some(ReadHead(major, info, b[1..]))
      else if info > 27 || |b| < 1 + size then None
      else Some(ReadHead(major, FromBigEndian(b[1..1 + size]), b[1 + size..]))
  }

  function Take(b: Buffer): (r: Option<ReadItem>)
    ensures r.Some? ==> |r.value.rest| < |b|
    decreases |b|, 0
  {
    match TakeHead(b)
    case None => None
    case Some(head) =>
      var (n, rest) := (head.argument, head.rest);
      if head.major == 0 then Some(ReadItem(Unsigned(n), rest))
      else if head.major == 2 then if n > |rest| then None else Some(ReadItem(Bytes(rest[..n]), rest[n..]))
      else if head.major == 3 then if n > |rest| then None else Some(ReadItem(Text(rest[..n]), rest[n..]))
      else if head.major == 4 then
        match TakeItems(rest, n)
        case None => None
        case Some(r) => Some(ReadItem(Array(r.items), r.rest))
      else if head.major == 5 then
        match TakeEntries(rest, n)
        case None => None
        case Some(r) => Some(ReadItem(Map(r.entries), r.rest))
      else None
  }

  function TakeItems(b: Buffer, n: nat): (r: Option<ReadItems>)
    ensures r.Some? ==> |r.value.rest| <= |b|
    decreases |b|, n + 1
  {
    if n == 0 then Some(ReadItems([], b))
    else
      match Take(b)
      case None => None
      case Some(first) =>
        match TakeItems(first.rest, n - 1)
        case None => None
        case Some(more) => Some(ReadItems([first.item] + more.items, more.rest))
  }

  function TakeEntries(b: Buffer, n: nat): (r: Option<ReadEntries>)
    ensures r.Some? ==> |r.value.rest| <= |b|
    decreases |b|, n + 1
  {
    if n == 0 then Some(ReadEntries([], b))
    else
      match Take(b)
      case None => None
      case Some(key) =>
        match Take(key.rest)
        case None => None
        case Some(value) =>
          match TakeEntries(value.rest, n - 1)
          case None => None
          case Some(more) => Some(ReadEntries([Entry(key.item, value.item)] + more.entries, more.rest))
  }

  // ----- Heads -----

  lemma PowersOf256()
    ensures B.Pow2(8) == 0x100 && B.Pow2(16) == 0x1_0000
    ensures B.Pow2(32) == 0x1_0000_0000 && B.Pow2(64) == 0x1_0000_0000_0000_0000
  {
    hide B.Pow2;
    Pow256();
    B.Pow2Adds(8, 8);
    B.Pow2Adds(16, 16);
    B.Pow2Adds(32, 32);
  }

  lemma BigEndianReads(n: nat, size: nat)
    requires 0 <= size * 8 && n < B.Pow2(size * 8)
    ensures FromBigEndian(BigEndian(n, size)) == n
  {
    B.ValueOfDigits(n, size, 8);
  }

  /** Every accepted length is read back. */
  lemma HeadReads(major: nat, length: nat, suffix: Buffer)
    requires major < 8 && length <= MAX_SAFE_INTEGER
    ensures TakeHead(Head(major, length) + suffix) == Some(ReadHead(major, length, suffix))
  {
    hide BigEndian, FromBigEndian, B.Pow2;
    PowersOf256();
    var b := Head(major, length) + suffix;
    if length < 24 {
      assert b[1..] == suffix;
    } else if length <= 0xff {
      assert b[2..] == suffix && b[1..2] == [length];
      OneOctet(length);
    } else {
      var size := if length <= 0xffff then 2 else if length <= 0xffff_ffff then 4 else 8;
      BigEndianReads(length, size);
      assert b[1..1 + size] == BigEndian(length, size) && b[1 + size..] == suffix;
    }
  }

  lemma OneOctet(n: Octet)
    ensures FromBigEndian([n]) == n
  {
    hide B.Pow2, B.Shl;
    OctetsAreInRange([n]);
    assert [n][..0] == [];
    assert B.Value([n][..0], 8) == 0;
    B.ShlIsZero(0, 8);
  }

  /** No head that reads as this length is shorter than the one written (section 4.2.1). */
  lemma HeadIsShortest(b: Buffer)
    requires TakeHead(b).Some? && TakeHead(b).value.argument <= MAX_SAFE_INTEGER
    ensures var h := TakeHead(b).value; |Head(h.major, h.argument)| <= |b| - |h.rest|
  {
    hide BigEndian, B.Pow2, B.Value;
    PowersOf256();
    var info := b[0] % 32;
    if info >= 24 {
      var size := if info == 24 then 1 else if info == 25 then 2 else if info == 26 then 4 else 8;
      OctetsAreInRange(b[1..1 + size]);
      B.ValueIsBounded(b[1..1 + size], 8);
    }
  }

  // ----- Items -----

  /** With any bytes following, b reads as item. */
  ghost predicate ReadsAs(b: Buffer, item: Item) {
    forall suffix: Buffer :: Take(b + suffix) == Some(ReadItem(item, suffix))
  }

  lemma UnsignedReads(n: nat)
    requires n <= MAX_SAFE_INTEGER
    ensures ReadsAs(Head(0, n), Unsigned(n))
  {
    hide Head;
    forall suffix: Buffer ensures Take(Head(0, n) + suffix) == Some(ReadItem(Unsigned(n), suffix)) {
      HeadReads(0, n, suffix);
    }
  }

  function StringItem(kind: Kind, bytes: Buffer): Item {
    match kind
    case ByteString => Bytes(bytes)
    case TextString => Text(bytes)
  }

  lemma StringReads(kind: Kind, bytes: Buffer)
    requires EncodeString(kind, bytes).Ok?
    ensures ReadsAs(EncodeString(kind, bytes).value, StringItem(kind, bytes))
  {
    hide Head, TakeHead;
    var head := Head(MajorOf(kind), |bytes|);
    forall suffix: Buffer
      ensures Take(head + bytes + suffix) == Some(ReadItem(StringItem(kind, bytes), suffix))
    {
      HeadReads(MajorOf(kind), |bytes|, bytes + suffix);
      assert head + bytes + suffix == head + (bytes + suffix);
      assert (bytes + suffix)[..|bytes|] == bytes && (bytes + suffix)[|bytes|..] == suffix;
    }
  }

  function StringItems(kind: Kind, values: seq<Buffer>): (items: seq<Item>)
    ensures |items| == |values|
  {
    seq(|values|, i requires 0 <= i < |values| => StringItem(kind, values[i]))
  }

  lemma OneStringReads(kind: Kind, bytes: Buffer, suffix: Buffer, more: seq<Item>)
    requires EncodeString(kind, bytes).Ok?
    requires TakeItems(suffix, |more|).Some? && TakeItems(suffix, |more|).value.items == more
    ensures TakeItems(EncodeString(kind, bytes).value + suffix, |[StringItem(kind, bytes)] + more|)
         == Some(ReadItems([StringItem(kind, bytes)] + more, TakeItems(suffix, |more|).value.rest))
  {
    hide Take, EncodeString, StringItem;
    StringReads(kind, bytes);
    assert Take(EncodeString(kind, bytes).value + suffix) == Some(ReadItem(StringItem(kind, bytes), suffix));
  }

  lemma {:induction false} StringsRead(kind: Kind, values: seq<Buffer>, suffix: Buffer, more: seq<Item>)
    requires EncodeStrings(kind, values).Ok?
    requires TakeItems(suffix, |more|).Some? && TakeItems(suffix, |more|).value.items == more
    ensures TakeItems(EncodeStrings(kind, values).value + suffix, |StringItems(kind, values) + more|)
         == Some(ReadItems(StringItems(kind, values) + more, TakeItems(suffix, |more|).value.rest))
    decreases |values|
  {
    hide TakeItems, EncodeString, StringItem;
    var body := EncodeStrings(kind, values).value;
    if values == [] {
      assert body + suffix == suffix && StringItems(kind, values) + more == more;
    } else {
      var (front, last) := (values[..|values| - 1], values[|values| - 1]);
      var encoded := EncodeString(kind, last).value;
      OneStringReads(kind, last, suffix, more);
      StringsRead(kind, front, encoded + suffix, [StringItem(kind, last)] + more);
      assert body + suffix == EncodeStrings(kind, front).value + (encoded + suffix);
      assert StringItems(kind, values) + more == StringItems(kind, front) + ([StringItem(kind, last)] + more);
    }
  }

  lemma ArrayReads(kind: Kind, values: seq<Buffer>)
    requires EncodeArray(kind, values).Ok?
    ensures ReadsAs(EncodeArray(kind, values).value, Array(StringItems(kind, values)))
  {
    hide Head, TakeHead, EncodeStrings, StringItems;
    var (head, body) := (Head(4, |values|), EncodeStrings(kind, values).value);
    forall suffix: Buffer
      ensures Take(head + body + suffix) == Some(ReadItem(Array(StringItems(kind, values)), suffix))
    {
      HeadReads(4, |values|, body + suffix);
      assert head + body + suffix == head + (body + suffix);
      assert StringItems(kind, values) + [] == StringItems(kind, values);
      StringsRead(kind, values, suffix, []);
    }
  }

  // ----- Maps -----

  ghost predicate PairReads(p: Pair, e: Entry) { ReadsAs(p.key, e.key) && ReadsAs(p.value, e.value) }

  ghost predicate PairsRead(pairs: seq<Pair>, entries: seq<Entry>) {
    |pairs| == |entries| && forall i :: 0 <= i < |pairs| ==> PairReads(pairs[i], entries[i])
  }

  lemma OnePairReads(p: Pair, e: Entry, suffix: Buffer, more: seq<Entry>)
    requires PairReads(p, e)
    requires TakeEntries(suffix, |more|).Some? && TakeEntries(suffix, |more|).value.entries == more
    ensures TakeEntries(p.key + (p.value + suffix), |[e] + more|)
         == Some(ReadEntries([e] + more, TakeEntries(suffix, |more|).value.rest))
  {
    hide Take;
    assert Take(p.value + suffix) == Some(ReadItem(e.value, suffix));
    assert Take(p.key + (p.value + suffix)) == Some(ReadItem(e.key, p.value + suffix));
    assert e == Entry(e.key, e.value);
  }

  lemma {:induction false} FlattenReads(pairs: seq<Pair>, entries: seq<Entry>, suffix: Buffer, more: seq<Entry>)
    requires PairsRead(pairs, entries)
    requires TakeEntries(suffix, |more|).Some? && TakeEntries(suffix, |more|).value.entries == more
    ensures TakeEntries(Flatten(pairs) + suffix, |entries + more|)
         == Some(ReadEntries(entries + more, TakeEntries(suffix, |more|).value.rest))
    decreases |pairs|
  {
    hide TakeEntries, PairReads;
    if pairs == [] {
      assert Flatten(pairs) + suffix == suffix && entries + more == more;
    } else {
      var n := |pairs| - 1;
      var (p, e) := (pairs[n], entries[n]);
      OnePairReads(p, e, suffix, more);
      FlattenReads(pairs[..n], entries[..n], p.key + (p.value + suffix), [e] + more);
      assert Flatten(pairs) + suffix == Flatten(pairs[..n]) + (p.key + (p.value + suffix));
      assert entries + more == entries[..n] + ([e] + more);
    }
  }

  lemma SortedMapReads(pairs: seq<Pair>, entries: seq<Entry>)
    requires EncodeSortedMap(pairs).Ok? && DistinctKeys(pairs) && PairsRead(Sort(pairs), entries)
    ensures ReadsAs(EncodeSortedMap(pairs).value, Map(entries))
  {
    hide Head, TakeHead, Flatten, Sort, DistinctKeys;
    SortSorts(pairs);
    assert |multiset(Sort(pairs))| == |Sort(pairs)| && |multiset(pairs)| == |pairs|;
    var (head, body) := (Head(5, |pairs|), Flatten(Sort(pairs)));
    forall suffix: Buffer ensures Take(head + body + suffix) == Some(ReadItem(Map(entries), suffix)) {
      HeadReads(5, |pairs|, body + suffix);
      assert head + body + suffix == head + (body + suffix);
      assert entries + [] == entries;
      FlattenReads(Sort(pairs), entries, suffix, []);
    }
  }

  // ----- The request -----

  datatype Secrets = Secrets(reference: A.Hex, location: int)

  /** The parameters, type-checked: text as UTF-8 octets, hex strings as their digits after 0x. */
  datatype Request = Request(source: Buffer, args: seq<Buffer>, bytesArgs: seq<A.Hex>, secrets: Option<Secrets>)

  function AllFromHex(hs: seq<A.Hex>): (bs: seq<Buffer>)
    ensures |bs| == |hs|
  {
    seq(|hs|, i requires 0 <= i < |hs| => A.FromHex(hs[i]))
  }

  // Member names are short and ASCII, so that their octets are their character codes.
  predicate IsName(name: string) {
    |name| < 24 && forall i :: 0 <= i < |name| ==> name[i] as int < 128
  }

  type Name = s: string | IsName(s)

  const CODE_LOCATION: Name := "codeLocation"
  const CODE_LANGUAGE: Name := "codeLanguage"
  const SOURCE: Name := "source"
  const ARGS: Name := "args"
  const BYTES_ARGS: Name := "bytesArgs"
  const SECRETS_LOCATION: Name := "secretsLocation"
  const SECRETS: Name := "secrets"

  datatype Field = Field(name: Name, value: Buffer)

  function Ascii(name: Name): Buffer {
    seq(|name|, i requires 0 <= i < |name| => name[i] as int)
  }

  function Key(name: Name): Buffer { Head(3, |name|) + Ascii(name) }

  function PairsOf(fields: seq<Field>): (pairs: seq<Pair>)
    ensures |pairs| == |fields|
  {
    seq(|fields|, i requires 0 <= i < |fields| => Pair(Key(fields[i].name), fields[i].value))
  }

  function EncodeCanonicalMap(fields: seq<Field>): Result<Buffer> { EncodeSortedMap(PairsOf(fields)) }

  function ArrayField(name: Name, kind: Kind, values: seq<Buffer>): Result<seq<Field>> {
    if values == [] then Ok([])
    else
      match EncodeArray(kind, values)
      case Err(e) => Err(e)
      case Ok(b) => Ok([Field(name, b)])
  }

  function SecretsFields(secrets: Option<Secrets>): Result<seq<Field>> {
    match secrets
    case None => Ok([])
    case Some(s) =>
      if s.location != 1 && s.location != 2 then Err(InvalidSecretsLocation)
      else
        match EncodeString(ByteString, A.FromHex(s.reference))
        case Err(e) => Err(e)
        case Ok(b) => Ok([Field(SECRETS_LOCATION, Head(0, s.location)), Field(SECRETS, b)])
  }

  function FieldsOf(r: Request): Result<seq<Field>> {
    if r.source == [] then Err(EmptySource)
    else
      match EncodeString(TextString, r.source)
      case Err(e) => Err(e)
      case Ok(source) =>
        match ArrayField(ARGS, TextString, r.args)
        case Err(e) => Err(e)
        case Ok(args) =>
          match ArrayField(BYTES_ARGS, ByteString, AllFromHex(r.bytesArgs))
          case Err(e) => Err(e)
          case Ok(bytesArgs) =>
            match SecretsFields(r.secrets)
            case Err(e) => Err(e)
            case Ok(secrets) =>
              Ok([Field(CODE_LOCATION, Head(0, 0)), Field(CODE_LANGUAGE, Head(0, 0)), Field(SOURCE, source)]
                 + args + bytesArgs + secrets)
  }

  function BuildFunctionsRequest(r: Request): Result<Buffer> {
    match FieldsOf(r)
    case Err(e) => Err(e)
    case Ok(fields) => EncodeCanonicalMap(fields)
  }

  /** The program pushes the entries one by one. */
  method BuildFunctionsRequestCBOR(r: Request) returns (result: Result<Buffer>)
    ensures result == BuildFunctionsRequest(r)
  {
    hide EncodeString, EncodeArray, EncodeCanonicalMap, Head;
    if r.source == [] {
      return Err(EmptySource);
    }
    var source := EncodeString(TextString, r.source);
    if source.Err? {
      return Err(source.error);
    }
    var entries := [Field(CODE_LOCATION, Head(0, 0)), Field(CODE_LANGUAGE, Head(0, 0)), Field(SOURCE, source.value)];
    ghost var base := entries;
    if r.args != [] {
      var args := EncodeArray(TextString, r.args);
      if args.Err? {
        return Err(args.error);
      }
      entries := entries + [Field(ARGS, args.value)];
    }
    ghost var a := ArrayField(ARGS, TextString, r.args).value;
    assert entries == base + a;
    if r.bytesArgs != [] {
      var bytesArgs := EncodeArray(ByteString, AllFromHex(r.bytesArgs));
      if bytesArgs.Err? {
        return Err(bytesArgs.error);
      }
      entries := entries + [Field(BYTES_ARGS, bytesArgs.value)];
    }
    ghost var b := ArrayField(BYTES_ARGS, ByteString, AllFromHex(r.bytesArgs)).value;
    assert entries == base + a + b;
    if r.secrets.Some? {
      var location := r.secrets.value.location;
      if location != 1 && location != 2 {
        return Err(InvalidSecretsLocation);
      }
      entries := entries + [Field(SECRETS_LOCATION, Head(0, location))];
      var secrets := EncodeString(ByteString, A.FromHex(r.secrets.value.reference));
      if secrets.Err? {
        return Err(secrets.error);
      }
      entries := entries + [Field(SECRETS, secrets.value)];
    }
    assert entries == base + a + b + SecretsFields(r.secrets).value;
    result := EncodeCanonicalMap(entries);
  }

  predicate IsLength(n: int) { n <= MAX_SAFE_INTEGER }

  predicate AreLengths(values: seq<Buffer>) {
    IsLength(|values|) && forall i :: 0 <= i < |values| ==> IsLength(|values[i]|)
  }

  lemma {:induction false} StringsEncodeIff(kind: Kind, values: seq<Buffer>)
    ensures EncodeStrings(kind, values).Ok? <==> forall i :: 0 <= i < |values| ==> IsLength(|values[i]|)
    decreases |values|
  {
    hide Head;
    if values != [] {
      StringsEncodeIff(kind, values[..|values| - 1]);
    }
  }

  /** A request is refused for an empty source, an unknown secrets location or an unsafe length only. */
  lemma BuildsIff(r: Request)
    ensures BuildFunctionsRequest(r).Ok?
       <==> && r.source != [] && IsLength(|r.source|)
            && AreLengths(r.args) && AreLengths(AllFromHex(r.bytesArgs))
            && (r.secrets.Some? ==>
                 r.secrets.value.location in {1, 2} && IsLength(|A.FromHex(r.secrets.value.reference)|))
  {
    hide Head, Flatten, Sort, AllFromHex, A.FromHex, EncodeStrings;
    StringsEncodeIff(TextString, r.args);
    StringsEncodeIff(ByteString, AllFromHex(r.bytesArgs));
  }

  // ----- What a reader finds -----

  datatype Received = Received(
    codeLocation: Option<Item>, codeLanguage: Option<Item>, source: Option<Item>, args: Option<Item>,
    bytesArgs: Option<Item>, secretsLocation: Option<Item>, secrets: Option<Item>)

  function Lookup(entries: seq<Entry>, key: Item): Option<Item> {
    if entries == [] then None
    else if entries[0].key == key then Some(entries[0].value)
    else Lookup(entries[1..], key)
  }

  function Member(item: Item, name: Name): Option<Item> {
    match item
    case Map(entries) => Lookup(entries, Text(Ascii(name)))
    case _ => None
  }

  function ReceivedFrom(item: Item): Received {
    Received(Member(item, CODE_LOCATION), Member(item, CODE_LANGUAGE), Member(item, SOURCE), Member(item, ARGS),
             Member(item, BYTES_ARGS), Member(item, SECRETS_LOCATION), Member(item, SECRETS))
  }

  function ArrayOrNone(kind: Kind, values: seq<Buffer>): Option<Item> {
    if values == [] then None else Some(Array(StringItems(kind, values)))
  }

  /** What the caller asked to be sent. */
  function Sent(r: Request): Received {
    Received(Some(Unsigned(0)), Some(Unsigned(0)), Some(Text(r.source)), ArrayOrNone(TextString, r.args),
             ArrayOrNone(ByteString, AllFromHex(r.bytesArgs)),
             if r.secrets.Some? && r.secrets.value.location >= 0 then Some(Unsigned(r.secrets.value.location))
               else None,
             if r.secrets.Some? then Some(Bytes(A.FromHex(r.secrets.value.reference))) else None)
  }

  // ----- Lookups -----

  lemma {:induction false} LookupFinds(entries: seq<Entry>, e: Entry)
    requires e in entries && forall f :: f in entries && f.key == e.key ==> f == e
    ensures Lookup(entries, e.key) == Some(e.value)
    decreases |entries|
  {
    assert entries[0] in entries;
    if entries[0].key != e.key {
      assert entries == [entries[0]] + entries[1..];
      LookupFinds(entries[1..], e);
    }
  }

  lemma {:induction false} LookupMisses(entries: seq<Entry>, key: Item)
    requires forall f :: f in entries ==> f.key != key
    ensures Lookup(entries, key) == None
    decreases |entries|
  {
    if entries != [] {
      assert entries[0] in entries;
      LookupMisses(entries[1..], key);
    }
  }

  lemma AsciiIsOneToOne(a: Name, b: Name)
    requires Ascii(a) == Ascii(b)
    ensures a == b
  {
    assert |Ascii(a)| == |a| && |Ascii(b)| == |b|;
    forall i | 0 <= i < |a| ensures a[i] == b[i] {
      assert Ascii(a)[i] == Ascii(b)[i];
    }
  }

  lemma KeyReads(name: Name)
    ensures ReadsAs(Key(name), Text(Ascii(name)))
  {
    hide Head;
    assert EncodeString(TextString, Ascii(name)) == Ok(Key(name));
    StringReads(TextString, Ascii(name));
  }

  lemma ReadsOnce(b: Buffer, x: Item, y: Item)
    requires ReadsAs(b, x) && ReadsAs(b, y)
    ensures x == y
  {
    hide Take;
    var empty: Buffer := [];
    assert Take(b + empty) == Some(ReadItem(x, []));
    assert Take(b + empty) == Some(ReadItem(y, []));
  }

  /** A field and what it reads as. */
  datatype Meaning = Meaning(name: Name, item: Item)

  ghost predicate Means(f: Field, m: Meaning) { f.name == m.name && ReadsAs(f.value, m.item) }

  ghost predicate AllMean(fields: seq<Field>, ms: seq<Meaning>) {
    |fields| == |ms| && forall i :: 0 <= i < |fields| ==> Means(fields[i], ms[i])
  }

  predicate DistinctNames(ms: seq<Meaning>) {
    forall i, j :: 0 <= i < j < |ms| ==> ms[i].name != ms[j].name
  }

  function EntryOf(m: Meaning): Entry { Entry(Text(Ascii(m.name)), m.item) }

  lemma KeysAreDistinct(fields: seq<Field>, ms: seq<Meaning>)
    requires AllMean(fields, ms) && DistinctNames(ms)
    ensures DistinctKeys(PairsOf(fields))
  {
    hide Key, ReadsAs, Ascii;
    var pairs := PairsOf(fields);
    forall i, j | 0 <= i < j < |pairs| ensures pairs[i].key != pairs[j].key {
      assert Means(fields[i], ms[i]) && Means(fields[j], ms[j]);
      KeyReads(ms[i].name);
      KeyReads(ms[j].name);
      if pairs[i].key == pairs[j].key {
        ReadsOnce(pairs[i].key, Text(Ascii(ms[i].name)), Text(Ascii(ms[j].name)));
        AsciiIsOneToOne(ms[i].name, ms[j].name);
      }
    }
  }

  /** The entry a pair of the map stands for. */
  lemma PairMeans(fields: seq<Field>, ms: seq<Meaning>, p: Pair) returns (m: Meaning)
    requires AllMean(fields, ms) && p in PairsOf(fields)
    ensures m in ms && PairReads(p, EntryOf(m))
  {
    hide Key, ReadsAs, Ascii;
    var i :| 0 <= i < |fields| && PairsOf(fields)[i] == p;
    assert Means(fields[i], ms[i]);
    m := ms[i];
    KeyReads(m.name);
  }

  ghost predicate Covers(pairs: seq<Pair>, entries: seq<Entry>, ms: seq<Meaning>) {
    PairsRead(pairs, entries) && forall e :: e in entries ==> exists m :: m in ms && e == EntryOf(m)
  }

  lemma {:induction false} EntriesOfPairs(fields: seq<Field>, ms: seq<Meaning>, pairs: seq<Pair>)
    returns (entries: seq<Entry>)
    requires AllMean(fields, ms) && forall p :: p in pairs ==> p in PairsOf(fields)
    ensures Covers(pairs, entries, ms)
    decreases |pairs|
  {
    hide PairReads, EntryOf, PairsOf, AllMean;
    if pairs == [] {
      return [];
    }
    var n := |pairs| - 1;
    var front := EntriesOfPairs(fields, ms, pairs[..n]);
    var m := PairMeans(fields, ms, pairs[n]);
    entries := front + [EntryOf(m)];
  }

  /** Every meaning is found under its name, however the pairs were sorted. */
  lemma MeaningIsThere(fields: seq<Field>, ms: seq<Meaning>, pairs: seq<Pair>, entries: seq<Entry>, m: Meaning)
    requires AllMean(fields, ms) && Covers(pairs, entries, ms) && m in ms
    requires multiset(pairs) == multiset(PairsOf(fields))
    ensures EntryOf(m) in entries
  {
    hide ReadsAs, Key, Ascii;
    var i :| 0 <= i < |ms| && ms[i] == m;
    assert Means(fields[i], ms[i]);
    var p := PairsOf(fields)[i];
    assert p in multiset(pairs);
    var k :| 0 <= k < |pairs| && pairs[k] == p;
    assert PairReads(pairs[k], entries[k]);
    KeyReads(m.name);
    ReadsOnce(p.key, entries[k].key, Text(Ascii(m.name)));
    ReadsOnce(p.value, entries[k].value, m.item);
    assert entries[k] == EntryOf(m);
  }

  lemma MapReads(fields: seq<Field>, ms: seq<Meaning>) returns (item: Item)
    requires AllMean(fields, ms) && DistinctNames(ms) && EncodeCanonicalMap(fields).Ok?
    ensures ReadsAs(EncodeCanonicalMap(fields).value, item) && item.Map? && |item.entries| == |fields|
    ensures forall m :: m in ms ==> Member(item, m.name) == Some(m.item)
    ensures forall name: Name :: (forall m :: m in ms ==> m.name != name) ==> Member(item, name) == None
  {
    hide PairsOf, ReadsAs, AllMean, Sort, DistinctKeys, StrictlyIncreasing, PairsRead, Ascii, Lookup;
    KeysAreDistinct(fields, ms);
    var pairs := PairsOf(fields);
    SortSorts(pairs);
    forall p | p in Sort(pairs) ensures p in pairs {
      assert p in multiset(Sort(pairs));
    }
    var entries := EntriesOfPairs(fields, ms, Sort(pairs));
    SortedMapReads(pairs, entries);
    item := Map(entries);
    SameLength(Sort(pairs), entries);
    assert |multiset(pairs)| == |multiset(Sort(pairs))|;
    forall m | m in ms ensures Lookup(entries, Text(Ascii(m.name))) == Some(m.item) {
      MeaningIsThere(fields, ms, Sort(pairs), entries, m);
      forall f | f in entries && f.key == EntryOf(m).key ensures f == EntryOf(m) {
        var other :| other in ms && f == EntryOf(other);
        AsciiIsOneToOne(other.name, m.name);
        SameNameSameMeaning(ms, other, m);
      }
      LookupFinds(entries, EntryOf(m));
    }
    forall name: Name | forall m :: m in ms ==> m.name != name ensures Lookup(entries, Text(Ascii(name))) == None {
      forall f | f in entries ensures f.key != Text(Ascii(name)) {
        var other :| other in ms && f == EntryOf(other);
        if Ascii(other.name) == Ascii(name) {
          AsciiIsOneToOne(other.name, name);
        }
      }
      LookupMisses(entries, Text(Ascii(name)));
    }
  }

  lemma SameLength(pairs: seq<Pair>, entries: seq<Entry>)
    requires PairsRead(pairs, entries)
    ensures |pairs| == |entries|
  {
  }

  lemma SameNameSameMeaning(ms: seq<Meaning>, a: Meaning, b: Meaning)
    requires DistinctNames(ms) && a in ms && b in ms && a.name == b.name
    ensures a == b
  {
    var i :| 0 <= i < |ms| && ms[i] == a;
    var j :| 0 <= j < |ms| && ms[j] == b;
    assert i <= j && j <= i;
  }

  // ----- The request read back -----

  function Order(name: string): int {
    if name == CODE_LOCATION then 0 else if name == CODE_LANGUAGE then 1 else if name == SOURCE then 2
    else if name == ARGS then 3 else if name == BYTES_ARGS then 4 else if name == SECRETS_LOCATION then 5
    else if name == SECRETS then 6 else 7
  }

  predicate Increasing(ms: seq<Meaning>, low: int, high: int) {
    && (forall i :: 0 <= i < |ms| ==> low <= Order(ms[i].name) < high)
    && forall i, j :: 0 <= i < j < |ms| ==> Order(ms[i].name) < Order(ms[j].name)
  }

  lemma Joined(f: seq<Field>, g: seq<Field>, a: seq<Meaning>, b: seq<Meaning>, low: int, mid: int, high: int)
    requires AllMean(f, a) && AllMean(g, b) && Increasing(a, low, mid) && Increasing(b, mid, high)
    requires low <= mid <= high
    ensures AllMean(f + g, a + b) && Increasing(a + b, low, high)
  {
    hide Means, Order;
  }

  lemma BaseMeans(source: Buffer)
    requires EncodeString(TextString, source).Ok?
    ensures AllMean([Field(CODE_LOCATION, Head(0, 0)), Field(CODE_LANGUAGE, Head(0, 0)),
                     Field(SOURCE, EncodeString(TextString, source).value)],
                    [Meaning(CODE_LOCATION, Unsigned(0)), Meaning(CODE_LANGUAGE, Unsigned(0)),
                     Meaning(SOURCE, Text(source))])
    ensures Increasing([Meaning(CODE_LOCATION, Unsigned(0)), Meaning(CODE_LANGUAGE, Unsigned(0)),
                        Meaning(SOURCE, Text(source))], 0, 3)
  {
    hide Head, EncodeString, ReadsAs;
    UnsignedReads(0);
    StringReads(TextString, source);
  }

  function ArrayMeaning(name: Name, kind: Kind, values: seq<Buffer>): seq<Meaning> {
    if values == [] then [] else [Meaning(name, Array(StringItems(kind, values)))]
  }

  lemma ArrayMeans(name: Name, kind: Kind, values: seq<Buffer>)
    requires ArrayField(name, kind, values).Ok?
    ensures AllMean(ArrayField(name, kind, values).value, ArrayMeaning(name, kind, values))
    ensures Increasing(ArrayMeaning(name, kind, values), Order(name), Order(name) + 1)
  {
    hide EncodeArray, ReadsAs, Order;
    if values != [] {
      ArrayReads(kind, values);
    }
  }

  function SecretsMeaning(secrets: Option<Secrets>): seq<Meaning> {
    match secrets
    case None => []
    case Some(s) =>
      if s.location < 0 then []
      else [Meaning(SECRETS_LOCATION, Unsigned(s.location)), Meaning(SECRETS, Bytes(A.FromHex(s.reference)))]
  }

  lemma SecretsMean(secrets: Option<Secrets>)
    requires SecretsFields(secrets).Ok?
    ensures AllMean(SecretsFields(secrets).value, SecretsMeaning(secrets))
    ensures Increasing(SecretsMeaning(secrets), 5, 7)
  {
    hide Head, EncodeString, ReadsAs, A.FromHex;
    if secrets.Some? {
      UnsignedReads(secrets.value.location);
      StringReads(ByteString, A.FromHex(secrets.value.reference));
    }
  }

  function MeaningsOf(r: Request): seq<Meaning> {
    [Meaning(CODE_LOCATION, Unsigned(0)), Meaning(CODE_LANGUAGE, Unsigned(0)), Meaning(SOURCE, Text(r.source))]
    + ArrayMeaning(ARGS, TextString, r.args) + ArrayMeaning(BYTES_ARGS, ByteString, AllFromHex(r.bytesArgs))
    + SecretsMeaning(r.secrets)
  }

  lemma FieldsMean(r: Request)
    requires FieldsOf(r).Ok?
    ensures AllMean(FieldsOf(r).value, MeaningsOf(r)) && Increasing(MeaningsOf(r), 0, 7)
  {
    hide Head, EncodeString, ArrayField, SecretsFields, ArrayMeaning, SecretsMeaning, AllMean, Increasing, AllFromHex,
      Order;
    var source := [Field(CODE_LOCATION, Head(0, 0)), Field(CODE_LANGUAGE, Head(0, 0)),
                   Field(SOURCE, EncodeString(TextString, r.source).value)];
    var base := [Meaning(CODE_LOCATION, Unsigned(0)), Meaning(CODE_LANGUAGE, Unsigned(0)),
                 Meaning(SOURCE, Text(r.source))];
    var (args, bytesArgs) := (ArrayField(ARGS, TextString, r.args).value,
                              ArrayField(BYTES_ARGS, ByteString, AllFromHex(r.bytesArgs)).value);
    var (a, b) := (ArrayMeaning(ARGS, TextString, r.args),
                   ArrayMeaning(BYTES_ARGS, ByteString, AllFromHex(r.bytesArgs)));
    BaseMeans(r.source);
    OrderOfArrays();
    ArrayMeans(ARGS, TextString, r.args);
    ArrayMeans(BYTES_ARGS, ByteString, AllFromHex(r.bytesArgs));
    SecretsMean(r.secrets);
    Joined(source, args, base, a, 0, 3, 4);
    Joined(source + args, bytesArgs, base + a, b, 0, 4, 5);
    Joined(source + args + bytesArgs, SecretsFields(r.secrets).value, base + a + b, SecretsMeaning(r.secrets), 0, 5, 7);
  }

  lemma OrderOfArrays()
    ensures Order(ARGS) == 3 && Order(BYTES_ARGS) == 4
  {
  }

  lemma IncreasingIsDistinct(ms: seq<Meaning>, low: int, high: int)
    requires Increasing(ms, low, high)
    ensures DistinctNames(ms)
  {
    hide Order;
  }

  lemma AbsentNames(r: Request)
    requires FieldsOf(r).Ok?
    ensures r.args == [] ==> forall m :: m in MeaningsOf(r) ==> m.name != ARGS
    ensures r.bytesArgs == [] ==> forall m :: m in MeaningsOf(r) ==> m.name != BYTES_ARGS
    ensures r.secrets == None ==> forall m :: m in MeaningsOf(r) ==> m.name != SECRETS && m.name != SECRETS_LOCATION
  {
    hide Head, EncodeString, ArrayField, SecretsFields, ReadsAs, AllFromHex, StringItems, A.FromHex;
  }

  lemma PresentNames(r: Request)
    requires FieldsOf(r).Ok?
    ensures Meaning(CODE_LOCATION, Unsigned(0)) in MeaningsOf(r)
    ensures Meaning(CODE_LANGUAGE, Unsigned(0)) in MeaningsOf(r)
    ensures Meaning(SOURCE, Text(r.source)) in MeaningsOf(r)
    ensures r.args != [] ==> Meaning(ARGS, Array(StringItems(TextString, r.args))) in MeaningsOf(r)
    ensures r.bytesArgs != [] ==> Meaning(BYTES_ARGS,
                                          Array(StringItems(ByteString, AllFromHex(r.bytesArgs)))) in MeaningsOf(r)
    ensures r.secrets.Some? ==> r.secrets.value.location >= 0
    ensures r.secrets.Some? ==> Meaning(SECRETS_LOCATION, Unsigned(r.secrets.value.location)) in MeaningsOf(r)
    ensures r.secrets.Some? ==> Meaning(SECRETS, Bytes(A.FromHex(r.secrets.value.reference))) in MeaningsOf(r)
  {
    hide Head, EncodeString, ArrayField, ReadsAs, AllFromHex, StringItems, A.FromHex, EncodeArray;
    var base := [Meaning(CODE_LOCATION, Unsigned(0)), Meaning(CODE_LANGUAGE, Unsigned(0)),
                 Meaning(SOURCE, Text(r.source))];
    assert base[0] in base && base[1] in base && base[2] in base;
    if r.secrets.Some? {
      var secrets := SecretsMeaning(r.secrets);
      assert secrets[0] in secrets && secrets[1] in secrets;
    }
  }

  /** The request is read back exactly, whatever bytes follow it. */
  lemma RequestRoundTrip(r: Request) returns (item: Item)
    requires BuildFunctionsRequest(r).Ok?
    ensures forall suffix: Buffer :: Take(BuildFunctionsRequest(r).value + suffix) == Some(ReadItem(item, suffix))
    ensures ReceivedFrom(item) == Sent(r) && item.Map? && |item.entries| == |FieldsOf(r).value|
  {
    hide FieldsOf, MeaningsOf, EncodeCanonicalMap, Take, Member, AllMean, Increasing, DistinctNames, StringItems,
      AllFromHex, A.FromHex;
    FieldsMean(r);
    IncreasingIsDistinct(MeaningsOf(r), 0, 7);
    PresentNames(r);
    AbsentNames(r);
    item := MapReads(FieldsOf(r).value, MeaningsOf(r));
  }

  /** The item is a map in which this text is the key of this value. */
  ghost predicate HasMember(item: Item, name: string, value: Item) {
    && item.Map?
    && exists e :: e in item.entries && e.value == value && e.key.Text? && |e.key.data| == |name|
                   && forall i :: 0 <= i < |name| ==> e.key.data[i] == name[i] as int
  }

  /** These octets are spelled by these hexadecimal digits, high digit first. */
  predicate AreOctetsOf(b: Buffer, digits: A.Hex) {
    |b| == |digits| / 2 && forall i :: 0 <= i < |b| ==> b[i] == 16 * (digits[2 * i] as int) + digits[2 * i + 1]
  }

  lemma {:induction false} LookupIsThere(entries: seq<Entry>, key: Item)
    ensures Lookup(entries, key).Some? ==> Entry(key, Lookup(entries, key).value) in entries
  {
    if entries != [] {
      LookupIsThere(entries[1..], key);
    }
  }

  lemma MemberIsHad(item: Item, name: Name, value: Item)
    requires Member(item, name) == Some(value)
    ensures HasMember(item, name, value)
  {
    LookupIsThere(item.entries, Text(Ascii(name)));
    var e := Entry(Text(Ascii(name)), value);
    assert e in item.entries;
  }

  lemma FieldCount(r: Request)
    requires FieldsOf(r).Ok?
    ensures |FieldsOf(r).value|
         == 3 + (if r.args == [] then 0 else 1) + (if r.bytesArgs == [] then 0 else 1)
            + (if r.secrets.Some? then 2 else 0)
    ensures r.secrets.Some? ==> r.secrets.value.location in {1, 2}
  {
    hide EncodeString, EncodeArray, Head;
  }

  /** The member is an array of just these texts. */
  ghost predicate HasTexts(item: Item, name: string, texts: seq<Buffer>) {
    exists items: seq<Item> ::
      && HasMember(item, name, Array(items)) && |items| == |texts|
      && forall i :: 0 <= i < |items| ==> items[i] == Text(texts[i])
  }

  /** The member is an array of just the byte strings that these digits spell. */
  ghost predicate HasByteStrings(item: Item, name: string, digits: seq<A.Hex>) {
    exists items: seq<Item> ::
      && HasMember(item, name, Array(items)) && |items| == |digits|
      && forall i :: 0 <= i < |items| ==> items[i].Bytes? && AreOctetsOf(items[i].data, digits[i])
  }

  lemma TextsAreHad(item: Item, name: string, texts: seq<Buffer>)
    requires HasMember(item, name, Array(StringItems(TextString, texts)))
    ensures HasTexts(item, name, texts)
  {
    hide HasMember;
    var items := StringItems(TextString, texts);
    assert |items| == |texts| && forall i :: 0 <= i < |items| ==> items[i] == Text(texts[i]);
  }

  lemma ByteStringsAreHad(item: Item, name: string, digits: seq<A.Hex>)
    requires HasMember(item, name, Array(StringItems(ByteString, AllFromHex(digits))))
    ensures HasByteStrings(item, name, digits)
  {
    hide HasMember, A.FromHex, AreOctetsOf;
    var items := StringItems(ByteString, AllFromHex(digits));
    forall i | 0 <= i < |items| ensures items[i].Bytes? && AreOctetsOf(items[i].data, digits[i]) {
      FromHexReads(digits[i]);
    }
  }

  lemma FromHexReads(digits: A.Hex)
    ensures AreOctetsOf(A.FromHex(digits), digits)
  {
  }

  /**
    By their names, in text: the code is inline JavaScript, the source is what was sent, and the
    arguments and the secrets are there when they were given, and nothing else is.
   */
  lemma RequestSays(r: Request) returns (item: Item)
    requires BuildFunctionsRequest(r).Ok?
    ensures forall suffix: Buffer :: Take(BuildFunctionsRequest(r).value + suffix) == Some(ReadItem(item, suffix))
    ensures item.Map? && |item.entries|
         == 3 + (if r.args == [] then 0 else 1) + (if r.bytesArgs == [] then 0 else 1)
            + (if r.secrets.Some? then 2 else 0)
    ensures HasMember(item, "codeLocation", Unsigned(0)) && HasMember(item, "codeLanguage", Unsigned(0))
    ensures HasMember(item, "source", Text(r.source))
    ensures r.args != [] ==> HasTexts(item, "args", r.args)
    ensures r.bytesArgs != [] ==> HasByteStrings(item, "bytesArgs", r.bytesArgs)
    ensures r.secrets.Some? ==>
      var s := r.secrets.value;
      && s.location in {1, 2} && HasMember(item, "secretsLocation", Unsigned(s.location))
      && exists b: Buffer :: HasMember(item, "secrets", Bytes(b)) && AreOctetsOf(b, s.reference)
  {
    hide BuildFunctionsRequest, Take, Member, HasMember, HasTexts, HasByteStrings, Ascii, StringItems, AllFromHex,
      A.FromHex, AreOctetsOf;
    item := RequestRoundTrip(r);
    FieldsAreBuilt(r);
    FieldCount(r);
    hide FieldsOf;
    MemberIsHad(item, CODE_LOCATION, Unsigned(0));
    MemberIsHad(item, CODE_LANGUAGE, Unsigned(0));
    MemberIsHad(item, SOURCE, Text(r.source));
    if r.args != [] {
      MemberIsHad(item, ARGS, Array(StringItems(TextString, r.args)));
      TextsAreHad(item, ARGS, r.args);
    }
    if r.bytesArgs != [] {
      MemberIsHad(item, BYTES_ARGS, Array(StringItems(ByteString, AllFromHex(r.bytesArgs))));
      ByteStringsAreHad(item, BYTES_ARGS, r.bytesArgs);
    }
    if r.secrets.Some? {
      MemberIsHad(item, SECRETS_LOCATION, Unsigned(r.secrets.value.location));
      MemberIsHad(item, SECRETS, Bytes(A.FromHex(r.secrets.value.reference)));
      FromHexReads(r.secrets.value.reference);
    }
  }

  lemma FieldsAreBuilt(r: Request)
    requires BuildFunctionsRequest(r).Ok?
    ensures FieldsOf(r).Ok?
  {
    hide FieldsOf;
  }

  /** So two requests with the same bytes are the same request to the reader. */
  lemma RequestIsInjective(a: Request, b: Request)
    requires BuildFunctionsRequest(a).Ok? && BuildFunctionsRequest(a) == BuildFunctionsRequest(b)
    ensures Sent(a) == Sent(b)
  {
    hide BuildFunctionsRequest, Take, ReceivedFrom, Sent;
    var x := RequestRoundTrip(a);
    var y := RequestRoundTrip(b);
    var bytes := BuildFunctionsRequest(a).value;
    var empty: Buffer := [];
    assert Take(bytes + empty) == Some(ReadItem(x, empty));
    assert Take(bytes + empty) == Some(ReadItem(y, empty));
  }
}
