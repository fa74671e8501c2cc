/**
  spendPlanDigest: the hash of a plan's canonical JSON text names one plan (PlanDigestBinds).

  Numbers are written in decimal and byte strings in hex. How a 32-byte word is spelled in hex is
  a parameter, of which only that it is one-to-one is used; Spelled is one that spells every 32-byte
  number as the program does.
 */
module PlanDigest {
  import A = Abi
  import P = SpendPlan
  import opened BridgeTypes
  import opened CanonicalJson

  type Spelling = Bytes32 -> seq<Byte>

  ghost predicate IsSpelling(hex: Spelling) {
    forall v, w :: hex(v) == hex(w) ==> v == w
  }

  // ----- Numbers and bytes as text -----

  const MINUS: Byte := 45

  /** String(n) */
  function Decimal(n: nat): (t: seq<Byte>)
    ensures |t| >= 1 && forall i :: 0 <= i < |t| ==> 48 <= t[i] < 58
  {
    if n < 10 then [48 + n] else Decimal(n / 10) + [48 + n % 10]
  }

  function SignedDecimal(n: int): (t: seq<Byte>) {
    if n >= 0 then Decimal(n) else [MINUS] + Decimal(-n)
  }

  lemma {:induction false} DecimalIsOneToOne(m: nat, n: nat)
    requires Decimal(m) == Decimal(n)
    ensures m == n
    decreases m
  {
    var (s, t) := (Decimal(m), Decimal(n));
    if m >= 10 && n >= 10 {
      assert s[..|s| - 1] == Decimal(m / 10) && t[..|t| - 1] == Decimal(n / 10);
      assert s[|s| - 1] == 48 + m % 10 && t[|t| - 1] == 48 + n % 10;
      DecimalIsOneToOne(m / 10, n / 10);
    }
  }

  lemma SignedDecimalIsOneToOne(m: int, n: int)
    requires SignedDecimal(m) == SignedDecimal(n)
    ensures m == n
  {
    assert SignedDecimal(m)[0] == MINUS <==> m < 0;
    assert SignedDecimal(n)[0] == MINUS <==> n < 0;
    if m < 0 {
      assert SignedDecimal(m)[1..] == Decimal(-m) && SignedDecimal(n)[1..] == Decimal(-n);
      DecimalIsOneToOne(-m, -n);
    } else {
      DecimalIsOneToOne(m, n);
    }
  }

  function HexDigit(n: A.Nibble): Byte { if n < 10 then 48 + n else 87 + n }

  /** 0x and two digits a byte */
  function HexText(b: seq<Byte>): (t: seq<Byte>) {
    [48, 120] + HexDigits(A.HexOf(b))
  }

  function HexDigits(h: A.Hex): (t: seq<Byte>)
    ensures |t| == |h|
  {
    seq(|h|, i requires 0 <= i < |h| => HexDigit(h[i]))
  }

  lemma HexTextIsOneToOne(a: seq<Byte>, b: seq<Byte>)
    requires HexText(a) == HexText(b)
    ensures a == b
  {
    hide A.HexOf;
    var (g, h) := (A.HexOf(a), A.HexOf(b));
    assert HexText(a)[2..] == HexDigits(g) && HexText(b)[2..] == HexDigits(h);
    forall i | 0 <= i < |g| ensures g[i] == h[i] {
      assert HexDigits(g)[i] == HexDigits(h)[i];
    }
    assert g == h;
    A.BytesSurviveHex(a);
    A.BytesSurviveHex(b);
  }

  // ----- The plan as JSON -----

  const BTC_NETWORK: seq<Byte> := [98, 116, 99, 78, 101, 116, 119, 111, 114, 107]
  const INPUTS: seq<Byte> := [105, 110, 112, 117, 116, 115]
  const OUTPUTS: seq<Byte> := [111, 117, 116, 112, 117, 116, 115]
  const FEE_SATS: seq<Byte> := [102, 101, 101, 83, 97, 116, 115]
  const N_VERSION: seq<Byte> := [110, 86, 101, 114, 115, 105, 111, 110]
  const N_LOCK_TIME: seq<Byte> := [110, 76, 111, 99, 107, 84, 105, 109, 101]
  const SIGHASH_TYPE: seq<Byte> := [115, 105, 103, 104, 97, 115, 104, 84, 121, 112, 101]
  const BTC_TX_ID: seq<Byte> := [98, 116, 99, 84, 120, 73, 100]
  const VOUT: seq<Byte> := [118, 111, 117, 116]
  const VALUE_SATS: seq<Byte> := [118, 97, 108, 117, 101, 83, 97, 116, 115]
  const SCRIPT_TEMPLATE_ID: seq<Byte> := [115, 99, 114, 105, 112, 116, 84, 101, 109, 112, 108, 97, 116, 101, 73, 100]
  const SCRIPT_PUB_KEY_HEX: seq<Byte> := [115, 99, 114, 105, 112, 116, 80, 117, 98, 75, 101, 121, 72, 101, 120]

  function InputJson(hex: Spelling, i: P.Input): Json {
    Record([Member(BTC_TX_ID, Text(hex(i.btcTxId))), Member(VOUT, Text(SignedDecimal(i.vout))),
            Member(VALUE_SATS, Text(SignedDecimal(i.valueSats))),
            Member(SCRIPT_TEMPLATE_ID, Text(hex(i.scriptTemplateId)))])
  }

  function OutputJson(o: P.Output): Json {
    Record([Member(SCRIPT_PUB_KEY_HEX, Text(HexText(o.script))), Member(VALUE_SATS, Text(SignedDecimal(o.valueSats)))])
  }

  function InputsJson(hex: Spelling, inputs: seq<P.Input>): Json {
    List(seq(|inputs|, i requires 0 <= i < |inputs| => InputJson(hex, inputs[i])))
  }

  function OutputsJson(outputs: seq<P.Output>): Json {
    List(seq(|outputs|, i requires 0 <= i < |outputs| => OutputJson(outputs[i])))
  }

  function PlanJson(hex: Spelling, p: P.Plan): Json {
    Record([Member(BTC_NETWORK, Text(SignedDecimal(p.btcNetwork))), Member(INPUTS, InputsJson(hex, p.inputs)),
            Member(OUTPUTS, OutputsJson(p.outputs)), Member(FEE_SATS, Text(SignedDecimal(p.feeSats))),
            Member(N_VERSION, Text(SignedDecimal(p.nVersion))), Member(N_LOCK_TIME, Text(SignedDecimal(p.nLockTime))),
            Member(SIGHASH_TYPE, Text(SignedDecimal(p.sighashType)))])
  }

  function SpendPlanDigest(hex: Spelling, p: P.Plan): Bytes32 { KeccakBytes(Write(PlanJson(hex, p))) }

  // ----- The digest names one plan -----

  /** The names of one object differ: in length, or else in the first letter. */
  lemma NamesDiffer()
    ensures |BTC_NETWORK| == 10 && |INPUTS| == 6 && |OUTPUTS| == 7 && |FEE_SATS| == 7 && OUTPUTS[0] != FEE_SATS[0]
    ensures |N_VERSION| == 8 && |N_LOCK_TIME| == 9 && |SIGHASH_TYPE| == 11
    ensures |BTC_TX_ID| == 7 && |VOUT| == 4 && |VALUE_SATS| == 9 && |SCRIPT_TEMPLATE_ID| == 16
      && |SCRIPT_PUB_KEY_HEX| == 15
  {
  }

  lemma TextsAgree(a: seq<Byte>, b: seq<Byte>)
    requires Write(Text(a)) == Write(Text(b))
    ensures a == b
  {
    hide Write;
    TextDetermines(Text(a), Text(b));
  }

  lemma InputIsJson(hex: Spelling, i: P.Input)
    ensures IsJson(InputJson(hex, i))
  {
    hide SignedDecimal;
    NamesDiffer();
  }

  lemma OutputIsJson(o: P.Output)
    ensures IsJson(OutputJson(o))
  {
    hide SignedDecimal, HexText;
    NamesDiffer();
  }

  lemma InputJsonBinds(hex: Spelling, i: P.Input, j: P.Input)
    requires IsSpelling(hex) && Write(InputJson(hex, i)) == Write(InputJson(hex, j))
    ensures i == j
  {
    hide SignedDecimal, Write, IsJson;
    var (v, w) := (InputJson(hex, i), InputJson(hex, j));
    InputIsJson(hex, i);
    InputIsJson(hex, j);
    RecordDetermines(v, w, 0, 0);
    RecordDetermines(v, w, 1, 1);
    RecordDetermines(v, w, 2, 2);
    RecordDetermines(v, w, 3, 3);
    TextsAgree(hex(i.btcTxId), hex(j.btcTxId));
    TextsAgree(hex(i.scriptTemplateId), hex(j.scriptTemplateId));
    NumbersAgree(i.vout, j.vout);
    NumbersAgree(i.valueSats, j.valueSats);
  }

  lemma NumbersAgree(m: int, n: int)
    requires Write(Text(SignedDecimal(m))) == Write(Text(SignedDecimal(n)))
    ensures m == n
  {
    hide SignedDecimal, Write;
    TextsAgree(SignedDecimal(m), SignedDecimal(n));
    SignedDecimalIsOneToOne(m, n);
  }

  lemma OutputJsonBinds(o: P.Output, q: P.Output)
    requires Write(OutputJson(o)) == Write(OutputJson(q))
    ensures o == q
  {
    hide SignedDecimal, HexText, Write, IsJson;
    OutputIsJson(o);
    OutputIsJson(q);
    RecordDetermines(OutputJson(o), OutputJson(q), 0, 0);
    RecordDetermines(OutputJson(o), OutputJson(q), 1, 1);
    TextsAgree(HexText(o.script), HexText(q.script));
    HexTextIsOneToOne(o.script, q.script);
    NumbersAgree(o.valueSats, q.valueSats);
  }

  lemma InputsAgree(hex: Spelling, a: seq<P.Input>, b: seq<P.Input>)
    requires IsSpelling(hex) && IsJson(InputsJson(hex, a)) && IsJson(InputsJson(hex, b))
    requires Write(InputsJson(hex, a)) == Write(InputsJson(hex, b))
    ensures a == b
  {
    hide InputJson, Write, IsJson;
    ListDetermines(InputsJson(hex, a), InputsJson(hex, b));
    forall i | 0 <= i < |a| ensures a[i] == b[i] {
      assert InputsJson(hex, a).items[i] == InputJson(hex, a[i]) && InputsJson(hex, b).items[i] == InputJson(hex, b[i]);
      InputJsonBinds(hex, a[i], b[i]);
    }
  }

  lemma OutputsAgree(a: seq<P.Output>, b: seq<P.Output>)
    requires IsJson(OutputsJson(a)) && IsJson(OutputsJson(b))
    requires Write(OutputsJson(a)) == Write(OutputsJson(b))
    ensures a == b
  {
    hide OutputJson, Write, IsJson;
    ListDetermines(OutputsJson(a), OutputsJson(b));
    forall i | 0 <= i < |a| ensures a[i] == b[i] {
      assert OutputsJson(a).items[i] == OutputJson(a[i]) && OutputsJson(b).items[i] == OutputJson(b[i]);
      OutputJsonBinds(a[i], b[i]);
    }
  }

  lemma PlanIsJson(hex: Spelling, p: P.Plan)
    ensures IsJson(PlanJson(hex, p)) && IsJson(InputsJson(hex, p.inputs)) && IsJson(OutputsJson(p.outputs))
  {
    hide SignedDecimal, InputJson, OutputJson;
    NamesDiffer();
    forall i | 0 <= i < |p.inputs| ensures IsJson(InputJson(hex, p.inputs[i])) { InputIsJson(hex, p.inputs[i]); }
    forall i | 0 <= i < |p.outputs| ensures IsJson(OutputJson(p.outputs[i])) { OutputIsJson(p.outputs[i]); }
  }

  /** Two plans with one digest are one plan. */
  lemma PlanDigestBinds(hex: Spelling, p: P.Plan, q: P.Plan)
    requires IsSpelling(hex) && SpendPlanDigest(hex, p) == SpendPlanDigest(hex, q)
    ensures p == q
  {
    hide SignedDecimal, InputsJson, OutputsJson, Write, IsJson, IsSpelling;
    var (v, w) := (PlanJson(hex, p), PlanJson(hex, q));
    PlanIsJson(hex, p);
    PlanIsJson(hex, q);
    RecordDetermines(v, w, 0, 0);
    RecordDetermines(v, w, 1, 1);
    RecordDetermines(v, w, 2, 2);
    RecordDetermines(v, w, 3, 3);
    RecordDetermines(v, w, 4, 4);
    RecordDetermines(v, w, 5, 5);
    RecordDetermines(v, w, 6, 6);
    NumbersAgree(p.btcNetwork, q.btcNetwork);
    InputsAgree(hex, p.inputs, q.inputs);
    OutputsAgree(p.outputs, q.outputs);
    NumbersAgree(p.feeSats, q.feeSats);
    NumbersAgree(p.nVersion, q.nVersion);
    NumbersAgree(p.nLockTime, q.nLockTime);
    NumbersAgree(p.sighashType, q.sighashType);
  }

  // ----- A spelling -----

  const ONE: Byte := 49
  const DOT: Byte := 46

  function Unary(n: nat): seq<Byte> { if n == 0 then [DOT] else [ONE] + Unary(n - 1) }

  /** The free hashes are spelled as trees: a letter, a count, then the parts. */
  function Spell(w: Bytes32): seq<Byte>
    decreases w
  {
    match w
    case Word(n) => [119] + Unary(n)
    case Keccak(words) => [107] + (Unary(|words|) + SpellAll(words))
    case KeccakBytes(data) => [98] + (Unary(|data|) + SpellBytes(data))
  }

  function SpellAll(words: seq<Bytes32>): seq<Byte>
    decreases words
  {
    if words == [] then [] else Spell(words[0]) + SpellAll(words[1..])
  }

  function SpellBytes(data: seq<Byte>): seq<Byte> {
    if data == [] then [] else Unary(data[0]) + SpellBytes(data[1..])
  }

  lemma Reassociate(a: seq<Byte>, b: seq<Byte>, x: seq<Byte>)
    ensures (a + b) + x == a + (b + x)
  {
  }

  lemma {:induction false} UnaryReads(m: nat, n: nat, x: seq<Byte>, y: seq<Byte>)
    requires Unary(m) + x == Unary(n) + y
    ensures m == n && x == y
  {
    assert (Unary(m) + x)[0] == Unary(m)[0] && (Unary(n) + y)[0] == Unary(n)[0];
    if m == 0 {
      assert (Unary(m) + x)[1..] == x && (Unary(n) + y)[1..] == y;
    } else {
      assert (Unary(m) + x)[1..] == Unary(m - 1) + x && (Unary(n) + y)[1..] == Unary(n - 1) + y;
      UnaryReads(m - 1, n - 1, x, y);
    }
  }

  lemma {:induction false} BytesRead(a: seq<Byte>, b: seq<Byte>, x: seq<Byte>, y: seq<Byte>)
    requires |a| == |b| && SpellBytes(a) + x == SpellBytes(b) + y
    ensures a == b && x == y
    decreases |a|
  {
    if a != [] {
      Reassociate(Unary(a[0]), SpellBytes(a[1..]), x);
      Reassociate(Unary(b[0]), SpellBytes(b[1..]), y);
      UnaryReads(a[0], b[0], SpellBytes(a[1..]) + x, SpellBytes(b[1..]) + y);
      BytesRead(a[1..], b[1..], x, y);
    } else {
      assert [] + x == x && [] + y == y;
    }
  }

  lemma {:induction false} AllRead(vs: seq<Bytes32>, ws: seq<Bytes32>, x: seq<Byte>, y: seq<Byte>)
    requires |vs| == |ws| && SpellAll(vs) + x == SpellAll(ws) + y
    ensures vs == ws && x == y
    decreases vs
  {
    hide Spell;
    if vs != [] {
      Reassociate(Spell(vs[0]), SpellAll(vs[1..]), x);
      Reassociate(Spell(ws[0]), SpellAll(ws[1..]), y);
      SpellReads(vs[0], ws[0], SpellAll(vs[1..]) + x, SpellAll(ws[1..]) + y);
      AllRead(vs[1..], ws[1..], x, y);
    } else {
      assert [] + x == x && [] + y == y;
    }
  }

  /** No spelling is the beginning of another. */
  lemma {:induction false} SpellReads(v: Bytes32, w: Bytes32, x: seq<Byte>, y: seq<Byte>)
    requires Spell(v) + x == Spell(w) + y
    ensures v == w && x == y
    decreases v
  {
    hide Unary, SpellBytes, SpellAll;
    var (s, t) := (Spell(v)[1..], Spell(w)[1..]);
    assert (Spell(v) + x)[0] == Spell(v)[0] && (Spell(w) + y)[0] == Spell(w)[0];
    assert (Spell(v) + x)[1..] == s + x && (Spell(w) + y)[1..] == t + y;
    match v {
      case Word(n) => UnaryReads(n, w.n, x, y);
      case Keccak(words) =>
        Reassociate(Unary(|words|), SpellAll(words), x);
        Reassociate(Unary(|w.words|), SpellAll(w.words), y);
        UnaryReads(|words|, |w.words|, SpellAll(words) + x, SpellAll(w.words) + y);
        AllRead(words, w.words, x, y);
      case KeccakBytes(data) =>
        Reassociate(Unary(|data|), SpellBytes(data), x);
        Reassociate(Unary(|w.data|), SpellBytes(w.data), y);
        UnaryReads(|data|, |w.data|, SpellBytes(data) + x, SpellBytes(w.data) + y);
        BytesRead(data, w.data, x, y);
    }
  }

  /** A 32-byte number in hex; a hash, whose bytes are not modelled, as its tree, after a zero byte. */
  function Spelled(w: Bytes32): seq<Byte> {
    if w.Word? && w.n < TWO_256 then [48, 120] + HexDigits(A.Word(w.n)) else [0] + Spell(w)
  }

  lemma HexDigitsAreOneToOne(g: A.Hex, h: A.Hex)
    requires HexDigits(g) == HexDigits(h)
    ensures g == h
  {
    assert |g| == |HexDigits(g)| == |HexDigits(h)| == |h|;
    forall i | 0 <= i < |g| ensures g[i] == h[i] {
      assert HexDigits(g)[i] == HexDigits(h)[i];
    }
  }

  /** What the digest theorem asks of a spelling can be had. */
  lemma SpelledIsSpelling()
    ensures IsSpelling(Spelled)
  {
    hide Spell, A.Word, A.HexValue;
    forall v, w | Spelled(v) == Spelled(w) ensures v == w {
      var (s, t) := (Spelled(v), Spelled(w));
      assert s[0] == t[0];
      if s[0] == 48 {
        assert s[2..] == HexDigits(A.Word(v.n)) && t[2..] == HexDigits(A.Word(w.n));
        HexDigitsAreOneToOne(A.Word(v.n), A.Word(w.n));
        A.WordReads(v.n);
        A.WordReads(w.n);
      } else {
        assert s[1..] == Spell(v) && t[1..] == Spell(w);
        SpellReads(v, w, [], []);
      }
    }
  }

  /** The last digit of the number ten is a letter. */
  lemma TenIsALetter()
    ensures |Spelled(Word(10))| == 66 && Spelled(Word(10))[65] == 97
  {
    assert A.Word(10)[63] == 10;
    assert HexDigits(A.Word(10))[63] == 97;
  }
}
