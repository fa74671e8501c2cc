/**
  What the text that names a spend plan says, to a reader of JSON, decimal and hexadecimal numbers.

  The digest of a plan is the hash of this text (PlanDigest); here the text is read back member by
  member, under the names of the spend plan's schema.
 */
module PlanText {
  import A = Abi
  import P = SpendPlan
  import D = PlanDigest
  import J = JsonReader
  import opened CanonicalJson
  import opened BridgeTypes

  // ----- Names and numbers -----

  ghost predicate IsName(b: seq<Byte>, name: string) {
    |b| == |name| && forall i :: 0 <= i < |name| ==> b[i] == name[i] as int
  }

  function DecimalValue(t: seq<Byte>): int {
    if t == [] then 0 else 10 * DecimalValue(t[..|t| - 1]) + (t[|t| - 1] - '0' as int)
  }

  /** Decimal digits without a leading zero. */
  predicate IsNatural(t: seq<Byte>, n: nat) {
    && t != [] && (forall i :: 0 <= i < |t| ==> '0' as int <= t[i] <= '9' as int)
    && (|t| > 1 ==> t[0] != '0' as int) && DecimalValue(t) == n
  }

  /** With a minus sign before a negative number. */
  predicate IsDecimal(t: seq<Byte>, n: int) {
    if n >= 0 then IsNatural(t, n) else t != [] && t[0] == '-' as int && IsNatural(t[1..], -n)
  }

  /** 0x and two lower-case hexadecimal digits for each byte. */
  predicate IsHexText(t: seq<Byte>, bytes: seq<Byte>) {
    && |t| == 2 + 2 * |bytes| && t[0] == '0' as int && t[1] == 'x' as int
    && forall i :: 0 <= i < |bytes| ==> IsHexByte(t[2 + 2 * i], t[3 + 2 * i], bytes[i])
  }

  predicate IsHexByte(high: Byte, low: Byte, b: Byte) {
    && !('A' as int <= high <= 'F' as int) && !('A' as int <= low <= 'F' as int)
    && J.HexDigitValue(high).Some? && J.HexDigitValue(low).Some?
    && b == 16 * J.HexDigitValue(high).value + J.HexDigitValue(low).value
  }

  lemma {:induction false} DecimalReads(n: nat)
    ensures IsNatural(D.Decimal(n), n) && (n > 0 ==> D.Decimal(n)[0] != '0' as int)
  {
    var t := D.Decimal(n);
    if n >= 10 {
      DecimalReads(n / 10);
      assert t[..|t| - 1] == D.Decimal(n / 10);
      assert t[0] == D.Decimal(n / 10)[0];
    }
  }

  lemma SignedDecimalReads(n: int)
    ensures IsDecimal(D.SignedDecimal(n), n)
  {
    hide D.Decimal, IsNatural;
    DecimalReads(if n >= 0 then n else -n);
    if n < 0 {
      assert D.SignedDecimal(n)[1..] == D.Decimal(-n);
    }
  }

  lemma HexByteReads(b: Byte)
    ensures IsHexByte(D.HexDigit(b / 16), D.HexDigit(b % 16), b)
  {
  }

  lemma DigitsOfByte(bytes: seq<Byte>, i: nat)
    requires i < |bytes|
    ensures |A.HexOf(bytes)| == 2 * |bytes|
    ensures A.HexOf(bytes)[2 * i] == bytes[i] / 16 && A.HexOf(bytes)[2 * i + 1] == bytes[i] % 16
  {
  }

  lemma HexTextReads(bytes: seq<Byte>)
    ensures IsHexText(D.HexText(bytes), bytes)
  {
    hide D.HexDigit, IsHexByte, A.HexOf;
    var (h, t) := (A.HexOf(bytes), D.HexText(bytes));
    A.BytesSurviveHex(bytes);
    assert t == [48, 120] + D.HexDigits(h);
    forall i | 0 <= i < |bytes| ensures IsHexByte(t[2 + 2 * i], t[3 + 2 * i], bytes[i]) {
      HexByteReads(bytes[i]);
      DigitsOfByte(bytes, i);
      assert t[2 + 2 * i] == D.HexDigit(h[2 * i]) && t[3 + 2 * i] == D.HexDigit(h[2 * i + 1]);
    }
  }

  lemma PlanNames()
    ensures IsName(D.BTC_NETWORK, "btcNetwork") && IsName(D.INPUTS, "inputs") && IsName(D.OUTPUTS, "outputs")
    ensures IsName(D.FEE_SATS, "feeSats") && IsName(D.N_VERSION, "nVersion") && IsName(D.N_LOCK_TIME, "nLockTime")
    ensures IsName(D.SIGHASH_TYPE, "sighashType")
  {
  }

  lemma InputNames()
    ensures IsName(D.BTC_TX_ID, "btcTxId") && IsName(D.VOUT, "vout") && IsName(D.VALUE_SATS, "valueSats")
    ensures IsName(D.SCRIPT_TEMPLATE_ID, "scriptTemplateId") && IsName(D.SCRIPT_PUB_KEY_HEX, "scriptPubKeyHex")
  {
  }

  // ----- Members -----

  ghost predicate HasValue(r: Json, name: string, value: Json) {
    r.Record? && exists m :: m in r.fields && IsName(m.name, name) && m.value == value
  }

  ghost predicate HasDecimal(r: Json, name: string, n: int) {
    exists t: seq<Byte> :: HasValue(r, name, Text(t)) && IsDecimal(t, n)
  }

  ghost predicate IsInput(r: Json, hex: D.Spelling, i: P.Input) {
    && r.Record? && |r.fields| == 4
    && HasValue(r, "btcTxId", Text(hex(i.btcTxId))) && HasDecimal(r, "vout", i.vout)
    && HasDecimal(r, "valueSats", i.valueSats) && HasValue(r, "scriptTemplateId", Text(hex(i.scriptTemplateId)))
  }

  ghost predicate IsOutput(r: Json, o: P.Output) {
    && r.Record? && |r.fields| == 2 && HasDecimal(r, "valueSats", o.valueSats)
    && exists t: seq<Byte> :: HasValue(r, "scriptPubKeyHex", Text(t)) && IsHexText(t, o.script)
  }

  ghost predicate HasInputs(r: Json, hex: D.Spelling, inputs: seq<P.Input>) {
    exists items: seq<Json> ::
      && HasValue(r, "inputs", List(items)) && |items| == |inputs|
      && forall i :: 0 <= i < |items| ==> IsInput(items[i], hex, inputs[i])
  }

  ghost predicate HasOutputs(r: Json, outputs: seq<P.Output>) {
    exists items: seq<Json> ::
      && HasValue(r, "outputs", List(items)) && |items| == |outputs|
      && forall i :: 0 <= i < |items| ==> IsOutput(items[i], outputs[i])
  }

  /** The member of a value that is read. */
  lemma MemberSays(r: Json, v: Json, i: nat, name: string) returns (value: Json)
    requires v.Record? && J.Says(r, v) && i < |v.fields| && IsName(v.fields[i].name, name)
    ensures HasValue(r, name, value) && J.Says(value, v.fields[i].value)
  {
    hide IsName;
    assert J.HasMember(r.fields, v.fields[i]);
    var j :| 0 <= j < |r.fields| && r.fields[j].name == v.fields[i].name
      && J.Says(r.fields[j].value, v.fields[i].value);
    value := r.fields[j].value;
    assert r.fields[j] in r.fields;
  }

  lemma TextSays(r: Json, v: Json, i: nat, name: string, t: seq<Byte>)
    requires v.Record? && J.Says(r, v) && i < |v.fields| && IsName(v.fields[i].name, name)
    requires v.fields[i].value == Text(t)
    ensures HasValue(r, name, Text(t))
  {
    hide HasValue, IsName;
    var value := MemberSays(r, v, i, name);
  }

  lemma DecimalSays(r: Json, v: Json, i: nat, name: string, n: int)
    requires v.Record? && J.Says(r, v) && i < |v.fields| && IsName(v.fields[i].name, name)
    requires v.fields[i].value == Text(D.SignedDecimal(n))
    ensures HasDecimal(r, name, n)
  {
    hide HasValue, IsName, D.SignedDecimal, IsDecimal, J.Says;
    TextSays(r, v, i, name, D.SignedDecimal(n));
    SignedDecimalReads(n);
  }

  lemma InputSays(r: Json, hex: D.Spelling, i: P.Input)
    requires J.Says(r, D.InputJson(hex, i))
    ensures IsInput(r, hex, i)
  {
    hide HasValue, HasDecimal, IsName, D.SignedDecimal, J.HasMember, J.NamesAscend;
    var v := D.InputJson(hex, i);
    assert |r.fields| == 4;
    InputNames();
    hide J.Says;
    TextSays(r, v, 0, "btcTxId", hex(i.btcTxId));
    DecimalSays(r, v, 1, "vout", i.vout);
    DecimalSays(r, v, 2, "valueSats", i.valueSats);
    TextSays(r, v, 3, "scriptTemplateId", hex(i.scriptTemplateId));
  }

  lemma OutputSays(r: Json, o: P.Output)
    requires J.Says(r, D.OutputJson(o))
    ensures IsOutput(r, o)
  {
    hide HasValue, HasDecimal, IsName, D.SignedDecimal, D.HexText, IsHexText, J.HasMember, J.NamesAscend;
    var v := D.OutputJson(o);
    assert |r.fields| == 2;
    InputNames();
    HexTextReads(o.script);
    hide J.Says;
    TextSays(r, v, 0, "scriptPubKeyHex", D.HexText(o.script));
    DecimalSays(r, v, 1, "valueSats", o.valueSats);
  }

  lemma InputsSay(r: Json, v: Json, k: nat, hex: D.Spelling, inputs: seq<P.Input>)
    requires v.Record? && J.Says(r, v) && k < |v.fields| && IsName(v.fields[k].name, "inputs")
    requires v.fields[k].value == D.InputsJson(hex, inputs)
    ensures HasInputs(r, hex, inputs)
  {
    hide HasValue, IsName, IsInput, D.InputJson;
    var value := MemberSays(r, v, k, "inputs");
    forall i | 0 <= i < |inputs| ensures IsInput(value.items[i], hex, inputs[i]) {
      assert D.InputsJson(hex, inputs).items[i] == D.InputJson(hex, inputs[i]);
      InputSays(value.items[i], hex, inputs[i]);
    }
  }

  lemma OutputsSay(r: Json, v: Json, k: nat, outputs: seq<P.Output>)
    requires v.Record? && J.Says(r, v) && k < |v.fields| && IsName(v.fields[k].name, "outputs")
    requires v.fields[k].value == D.OutputsJson(outputs)
    ensures HasOutputs(r, outputs)
  {
    hide HasValue, IsName, IsOutput, D.OutputJson;
    var value := MemberSays(r, v, k, "outputs");
    forall i | 0 <= i < |outputs| ensures IsOutput(value.items[i], outputs[i]) {
      assert D.OutputsJson(outputs).items[i] == D.OutputJson(outputs[i]);
      OutputSays(value.items[i], outputs[i]);
    }
  }

  /** The digest of a plan is the hash of a text that is read as just its seven members, in any surroundings. */
  lemma PlanTextReads(hex: D.Spelling, p: P.Plan) returns (text: seq<Byte>, r: Json)
    ensures D.SpendPlanDigest(hex, p) == KeccakBytes(text) && J.ReadsAs(text, r)
    ensures r.Record? && |r.fields| == 7
    ensures HasDecimal(r, "btcNetwork", p.btcNetwork) && HasDecimal(r, "feeSats", p.feeSats)
    ensures HasDecimal(r, "nVersion", p.nVersion) && HasDecimal(r, "nLockTime", p.nLockTime)
    ensures HasDecimal(r, "sighashType", p.sighashType)
    ensures HasInputs(r, hex, p.inputs) && HasOutputs(r, p.outputs)
  {
    hide HasDecimal, HasInputs, HasOutputs, IsName, D.SignedDecimal, D.InputsJson, D.OutputsJson, J.ReadsAs, Write,
      IsJson,
      J.HasMember, J.NamesAscend;
    var v := D.PlanJson(hex, p);
    D.PlanIsJson(hex, p);
    text := Write(v);
    r := J.CanonicalTextReads(v);
    assert r.Record? && |r.fields| == 7;
    PlanNames();
    hide J.Says;
    DecimalSays(r, v, 0, "btcNetwork", p.btcNetwork);
    InputsSay(r, v, 1, hex, p.inputs);
    OutputsSay(r, v, 2, p.outputs);
    DecimalSays(r, v, 3, "feeSats", p.feeSats);
    DecimalSays(r, v, 4, "nVersion", p.nVersion);
    DecimalSays(r, v, 5, "nLockTime", p.nLockTime);
    DecimalSays(r, v, 6, "sighashType", p.sighashType);
  }
}
