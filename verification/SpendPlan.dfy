/**
  Spend plans: what a release authorization commits to, what a PSBT spends, and what a finalized
  transaction pays.

  A plan is checked against an authorization by its hashes (verifyReleaseSpendPlan); it is derived
  from a PSBT by adding up its inputs and outputs (extractNormalizedSpendPlanFromPsbt); a finished
  transaction is compared with it field by field (assertFinalTransactionMatchesSpendPlan). The main
  results: an authorization accepts one plan (PlanIsDetermined), an accepted PSBT conserves value
  within the authorized fee (AcceptedPsbtConservesValue), and every transaction accepted for an
  authorization has the same inputs and exactly the committed outputs (TransactionIsDetermined).
 */
module SpendPlan {
  import A = Abi
  import B = BitGroups
  import opened BridgeTypes

  datatype Input = Input(btcTxId: Bytes32, vout: nat, valueSats: nat, scriptTemplateId: Bytes32)

  datatype Output = Output(script: seq<Byte>, valueSats: nat)

  datatype Plan = Plan(
    btcNetwork: nat, inputs: seq<Input>, outputs: seq<Output>,
    feeSats: nat, nVersion: int, nLockTime: nat, sighashType: nat)

  datatype PlanError =
    | InvalidPlan | ValueOutOfRange | NetworkMismatch | InputsMismatch | OutputsMismatch | PolicyMismatch
    | FeeTooHigh | NoDestinationOutput
    | MissingUtxo | MissingReferencedOutput | MixedSighashTypes | SpendsMoreThanInputs
    | InsufficientValue | ChangeAddressRequired
    | VersionMismatch | LocktimeMismatch | InputCountMismatch | OutputCountMismatch | InputMismatch | OutputMismatch

  datatype Result<+T> = Ok(value: T) | Err(error: PlanError)

  // ----- Commitments -----

  /** abi.encode refuses what its types cannot hold. */
  predicate InputFits(i: Input) { i.vout < TWO_32 && i.valueSats < TWO_64 }

  predicate OutputFits(o: Output) { o.valueSats < TWO_64 && |o.script| < TWO_256 / 2 }

  predicate PolicyFits(p: Plan) {
    p.feeSats < TWO_64 && -(TWO_32 / 2) <= p.nVersion < TWO_32 / 2 && p.nLockTime < TWO_64 && p.sighashType < TWO_32
  }

  predicate Fits(p: Plan) {
    && (forall i :: 0 <= i < |p.inputs| ==> InputFits(p.inputs[i]))
    && (forall i :: 0 <= i < |p.outputs| ==> OutputFits(p.outputs[i]))
    && PolicyFits(p)
  }

  function InputLeaf(i: Input): Bytes32 {
    Keccak([i.btcTxId, Word(i.vout), Word(i.valueSats), i.scriptTemplateId])
  }

  /** The 32-byte words of an encoding. */
  function WordsOf(h: A.Hex): (w: seq<Bytes32>)
    ensures |w| == |h| / 64
  {
    seq(|h| / 64, i requires 0 <= i < |h| / 64 => Word(A.HexValue(h[64 * i..64 * i + 64])))
  }

  function OutputValues(o: Output): seq<A.Value>
    requires OutputFits(o)
  {
    [A.Bytes(A.HexOf(o.script)), A.Uint(o.valueSats)]
  }

  /** abi.encode(bytes, uint64): the output leaf is the one dynamic encoding. */
  function OutputEncoding(o: Output): (h: A.Hex)
    requires OutputFits(o)
    ensures h == A.Word(64) + A.Word(o.valueSats) + A.BytesTail(A.HexOf(o.script))
    ensures A.IsEncodable(OutputValues(o)) && h == A.Encode(OutputValues(o))
  {
    A.BytesSurviveHex(o.script);
    OutputIsEncodable(A.HexOf(o.script), o.valueSats);
    A.Encode(OutputValues(o))
  }

  lemma OutputIsEncodable(digits: A.Hex, value: Uint64)
    requires |digits| % 2 == 0 && |digits| / 2 < TWO_256 / 2
    ensures A.IsEncodable([A.Bytes(digits), A.Uint(value)])
    ensures A.Encode([A.Bytes(digits), A.Uint(value)]) == A.Word(64) + A.Word(value) + A.BytesTail(digits)
  {
    hide A.Word, A.BytesTail, A.PadLength;
    var vs := [A.Bytes(digits), A.Uint(value)];
    assert vs[..1][..0] == [] && vs[..2] == vs && vs[..2][..1] == vs[..1] && vs[..0] == [];
    assert A.Tails(vs[..1]) == A.BytesTail(digits);
    assert A.Tails(vs) == A.BytesTail(digits);
    A.TailIsShort(digits);
    assert A.Offset(vs, 0) == 64;
    assert A.Heads(vs, 1) == A.Word(64);
    assert A.Heads(vs, 2) == A.Word(64) + A.Word(value);
  }

  function OutputLeaf(o: Output): Bytes32
    requires OutputFits(o)
  {
    Keccak(WordsOf(OutputEncoding(o)))
  }

  /** abi.encode(bytes32[]): offset, length, elements. */
  function Commitment(leaves: seq<Bytes32>): Bytes32 { Keccak([Word(32), Word(|leaves|)] + leaves) }

  function InputsCommitment(inputs: seq<Input>): Bytes32 {
    Commitment(seq(|inputs|, i requires 0 <= i < |inputs| => InputLeaf(inputs[i])))
  }

  function OutputsCommitment(outputs: seq<Output>): Bytes32
    requires forall i :: 0 <= i < |outputs| ==> OutputFits(outputs[i])
  {
    Commitment(seq(|outputs|, i requires 0 <= i < |outputs| => OutputLeaf(outputs[i])))
  }

  /** A signed integer as a word: two's complement. */
  function SignedWord(n: int): Bytes32
    requires -(TWO_32 / 2) <= n
  {
    Word(if n >= 0 then n else TWO_256 + n)
  }

  function PsbtPolicyHash(p: Plan, changePolicyHash: Bytes32): Bytes32
    requires PolicyFits(p)
  {
    Keccak([Word(p.feeSats), SignedWord(p.nVersion), Word(p.nLockTime), Word(p.sighashType), changePolicyHash])
  }

  // ----- verifyReleaseSpendPlan -----

  predicate IsDestination(a: ReleaseAuthorization, o: Output) {
    KeccakBytes(o.script) == a.destinationScriptHash && o.valueSats == a.amountSats
  }

  function FindDestination(a: ReleaseAuthorization, outputs: seq<Output>): Option<Output> {
    if outputs == [] then None
    else if IsDestination(a, outputs[0]) then Some(outputs[0])
    else FindDestination(a, outputs[1..])
  }

  function VerifyReleaseSpendPlan(a: ReleaseAuthorization, p: Plan): Result<Output> {
    if p.inputs == [] || p.outputs == [] then Err(InvalidPlan)
    else if !Fits(p) then Err(ValueOutOfRange)
    else if p.btcNetwork != a.btcNetwork then Err(NetworkMismatch)
    else if a.inputsCommitment != InputsCommitment(p.inputs) then Err(InputsMismatch)
    else if a.outputsCommitment != OutputsCommitment(p.outputs) then Err(OutputsMismatch)
    else if a.psbtPolicyHash != PsbtPolicyHash(p, a.changePolicyHash) then Err(PolicyMismatch)
    else if p.feeSats > a.maxMinerFeeSats then Err(FeeTooHigh)
    else
      match FindDestination(a, p.outputs)
      case None => Err(NoDestinationOutput)
      case Some(o) => Ok(o)
  }

  // ----- An authorization accepts one plan -----

  lemma {:induction false} WordsAreOneToOne(g: A.Hex, h: A.Hex)
    requires |g| % 64 == 0 && |h| % 64 == 0 && WordsOf(g) == WordsOf(h)
    ensures g == h
  {
    hide A.HexValue;
    assert |g| == 64 * |WordsOf(g)| && |h| == 64 * |WordsOf(h)|;
    forall k | 0 <= k < |g| ensures g[k] == h[k] {
      var i := k / 64;
      assert WordsOf(g)[i] == WordsOf(h)[i];
      HexValueIsOneToOne(g[64 * i..64 * i + 64], h[64 * i..64 * i + 64]);
      assert g[k] == g[64 * i..64 * i + 64][k - 64 * i];
      assert h[k] == h[64 * i..64 * i + 64][k - 64 * i];
    }
  }

  lemma HexValueIsOneToOne(g: A.Hex, h: A.Hex)
    requires |g| == |h| && A.HexValue(g) == A.HexValue(h)
    ensures g == h
  {
    hide B.Value, B.Digits;
    A.NibblesAreInRange(g);
    A.NibblesAreInRange(h);
    B.DigitsOfValue(g, 4);
    B.DigitsOfValue(h, 4);
  }

  lemma OutputEncodingIsWhole(o: Output)
    requires OutputFits(o)
    ensures |OutputEncoding(o)| % 64 == 0
  {
    hide OutputEncoding, A.Word;
    A.BytesSurviveHex(o.script);
    var n := |A.HexOf(o.script)|;
    assert (n + A.PadLength(n)) % 64 == 0;
  }

  /** The decoder's rules read script and value back, so the encoding determines them. */
  lemma OutputEncodingIsOneToOne(o: Output, p: Output)
    requires OutputFits(o) && OutputFits(p) && OutputEncoding(o) == OutputEncoding(p)
    ensures o == p
  {
    OutputReads(o);
    OutputReads(p);
  }

  lemma OutputReads(o: Output)
    requires OutputFits(o)
    ensures A.UintWord(OutputEncoding(o), 1) == A.Ok(o.valueSats)
    ensures A.BytesWord(OutputEncoding(o), 64) == A.Ok(A.HexOf(o.script))
    ensures A.FromHex(A.HexOf(o.script)) == o.script
  {
    hide OutputEncoding, A.Word, A.BytesTail, A.UintWord, A.BytesWord;
    A.BytesSurviveHex(o.script);
    var tail := A.BytesTail(A.HexOf(o.script));
    A.WordAtReads(A.Word(64), o.valueSats, tail, 1);
    assert A.Word(64) + A.Word(o.valueSats) + tail == A.Word(64) + A.Word(o.valueSats) + tail + [];
    A.BytesWordReads(A.Word(64) + A.Word(o.valueSats), A.HexOf(o.script), []);
  }

  lemma OutputLeafBinds(o: Output, p: Output)
    requires OutputFits(o) && OutputFits(p) && OutputLeaf(o) == OutputLeaf(p)
    ensures o == p
  {
    hide WordsOf, OutputEncoding;
    OutputEncodingIsWhole(o);
    OutputEncodingIsWhole(p);
    WordsAreOneToOne(OutputEncoding(o), OutputEncoding(p));
    OutputEncodingIsOneToOne(o, p);
  }

  lemma CommitmentBinds(a: seq<Bytes32>, b: seq<Bytes32>)
    requires Commitment(a) == Commitment(b)
    ensures a == b
  {
    var (v, w) := (Commitment(a).words, Commitment(b).words);
    assert v[2..] == a && w[2..] == b;
  }

  lemma InputsCommitmentBinds(a: seq<Input>, b: seq<Input>)
    requires InputsCommitment(a) == InputsCommitment(b)
    ensures a == b
  {
    var x := seq(|a|, i requires 0 <= i < |a| => InputLeaf(a[i]));
    var y := seq(|b|, i requires 0 <= i < |b| => InputLeaf(b[i]));
    CommitmentBinds(x, y);
    assert |a| == |x| == |y| == |b|;
    forall i | 0 <= i < |a| ensures a[i] == b[i] {
      assert x[i] == y[i];
      var (v, w) := (InputLeaf(a[i]).words, InputLeaf(b[i]).words);
      assert v[0] == w[0] && v[1] == w[1] && v[2] == w[2] && v[3] == w[3];
    }
  }

  lemma OutputsCommitmentBinds(a: seq<Output>, b: seq<Output>)
    requires forall i :: 0 <= i < |a| ==> OutputFits(a[i])
    requires forall i :: 0 <= i < |b| ==> OutputFits(b[i])
    requires OutputsCommitment(a) == OutputsCommitment(b)
    ensures a == b
  {
    hide OutputLeaf, OutputFits, Commitment;
    var x := seq(|a|, i requires 0 <= i < |a| => OutputLeaf(a[i]));
    var y := seq(|b|, i requires 0 <= i < |b| => OutputLeaf(b[i]));
    CommitmentBinds(x, y);
    assert |a| == |x| == |y| == |b|;
    forall i | 0 <= i < |a| ensures a[i] == b[i] {
      assert x[i] == y[i];
      OutputLeafBinds(a[i], b[i]);
    }
  }

  lemma PolicyBinds(p: Plan, q: Plan, c: Bytes32)
    requires PolicyFits(p) && PolicyFits(q) && PsbtPolicyHash(p, c) == PsbtPolicyHash(q, c)
    ensures p.feeSats == q.feeSats && p.nVersion == q.nVersion && p.nLockTime == q.nLockTime
      && p.sighashType == q.sighashType
  {
    var (v, w) := (PsbtPolicyHash(p, c).words, PsbtPolicyHash(q, c).words);
    assert v[0] == w[0] && v[1] == w[1] && v[2] == w[2] && v[3] == w[3];
  }

  /** Two plans accepted for one authorization agree on every field. */
  lemma PlanIsDetermined(a: ReleaseAuthorization, p: Plan, q: Plan)
    requires VerifyReleaseSpendPlan(a, p).Ok? && VerifyReleaseSpendPlan(a, q).Ok?
    ensures p == q
  {
    hide InputsCommitment, OutputsCommitment, PsbtPolicyHash, FindDestination, InputFits, OutputFits, PolicyFits;
    InputsCommitmentBinds(p.inputs, q.inputs);
    OutputsCommitmentBinds(p.outputs, q.outputs);
    PolicyBinds(p, q, a.changePolicyHash);
  }

  // ----- From a PSBT -----

  datatype Utxo = Utxo(script: seq<Byte>, value: nat)

  /** A parsed input: what it spends, and what the PSBT says about that. */
  datatype PsbtInput = PsbtInput(
    btcTxId: Bytes32, index: nat, witnessUtxo: Option<Utxo>, previousOutputs: Option<seq<Utxo>>,
    sighashType: Option<nat>)

  datatype Psbt = Psbt(btcNetwork: nat, inputs: seq<PsbtInput>, outputs: seq<Output>, version: int, locktime: nat)

  function PsbtInputUtxo(i: PsbtInput): Result<Utxo> {
    if i.witnessUtxo.Some? then Ok(i.witnessUtxo.value)
    else if i.previousOutputs.Some? then
      if i.index < |i.previousOutputs.value| then Ok(i.previousOutputs.value[i.index]) else Err(MissingReferencedOutput)
    else Err(MissingUtxo)
  }

  function ExplicitTypes(inputs: seq<PsbtInput>): seq<nat> {
    if inputs == [] then []
    else (if inputs[0].sighashType.Some? then [inputs[0].sighashType.value] else []) + ExplicitTypes(inputs[1..])
  }

  function SighashTypeFromPsbt(inputs: seq<PsbtInput>): Result<nat> {
    var types := ExplicitTypes(inputs);
    if types == [] then Ok(1)
    else if exists i :: 0 <= i < |types| && types[i] != types[0] then Err(MixedSighashTypes)
    else Ok(types[0])
  }

  function SumInputs(inputs: seq<Input>): nat {
    if inputs == [] then 0 else SumInputs(inputs[..|inputs| - 1]) + inputs[|inputs| - 1].valueSats
  }

  function SumOutputs(outputs: seq<Output>): nat {
    if outputs == [] then 0 else SumOutputs(outputs[..|outputs| - 1]) + outputs[|outputs| - 1].valueSats
  }

  function PlanInput(i: PsbtInput, u: Utxo): Input { Input(i.btcTxId, i.index, u.value, KeccakBytes(u.script)) }

  function PlanInputs(inputs: seq<PsbtInput>): Result<seq<Input>> {
    if inputs == [] then Ok([])
    else
      match PlanInputs(inputs[..|inputs| - 1])
      case Err(e) => Err(e)
      case Ok(front) =>
        match PsbtInputUtxo(inputs[|inputs| - 1])
        case Err(e) => Err(e)
        case Ok(u) => Ok(front + [PlanInput(inputs[|inputs| - 1], u)])
  }

  function ExtractPlan(psbt: Psbt): Result<Plan> {
    match PlanInputs(psbt.inputs)
    case Err(e) => Err(e)
    case Ok(inputs) =>
      if SumInputs(inputs) < SumOutputs(psbt.outputs) then Err(SpendsMoreThanInputs)
      else
        match SighashTypeFromPsbt(psbt.inputs)
        case Err(e) => Err(e)
        case Ok(sighashType) =>
          if inputs == [] || psbt.outputs == [] then Err(InvalidPlan)
          else Ok(Plan(psbt.btcNetwork, inputs, psbt.outputs, SumInputs(inputs) - SumOutputs(psbt.outputs),
                       psbt.version, psbt.locktime, sighashType))
  }

  lemma PlanInputsFail(inputs: seq<PsbtInput>, i: nat)
    requires i <= |inputs| && PlanInputs(inputs[..i]).Err?
    ensures PlanInputs(inputs) == PlanInputs(inputs[..i])
    decreases |inputs| - i
  {
    if i < |inputs| {
      assert inputs[..i + 1][..i] == inputs[..i];
      PlanInputsFail(inputs, i + 1);
    } else {
      assert inputs[..i] == inputs;
    }
  }

  lemma NothingPlanned(inputs: seq<PsbtInput>)
    ensures PlanInputs(inputs[..0]) == Ok([]) && SumInputs([]) == 0
  {
  }

  lemma PlanInputsNext(inputs: seq<PsbtInput>, i: nat, planned: seq<Input>)
    requires i < |inputs| && PlanInputs(inputs[..i]) == Ok(planned)
    ensures PsbtInputUtxo(inputs[i]).Err? ==> PlanInputs(inputs) == Err(PsbtInputUtxo(inputs[i]).error)
    ensures PsbtInputUtxo(inputs[i]).Ok? ==>
      var u := PsbtInputUtxo(inputs[i]).value;
      var next := planned + [PlanInput(inputs[i], u)];
      PlanInputs(inputs[..i + 1]) == Ok(next) && SumInputs(next) == SumInputs(planned) + u.value
  {
    hide PsbtInputUtxo;
    assert inputs[..i + 1][..i] == inputs[..i];
    if PsbtInputUtxo(inputs[i]).Err? {
      PlanInputsFail(inputs, i + 1);
    } else {
      var next := planned + [PlanInput(inputs[i], PsbtInputUtxo(inputs[i]).value)];
      assert next[..|planned|] == planned;
    }
  }

  method ExtractNormalizedSpendPlan(psbt: Psbt) returns (result: Result<Plan>)
    ensures result == ExtractPlan(psbt)
  {
    hide PsbtInputUtxo, PlanInput, PlanInputs, SumInputs, SighashTypeFromPsbt;
    var inputs: seq<Input> := [];
    var totalInputSats := 0;
    NothingPlanned(psbt.inputs);
    for i := 0 to |psbt.inputs|
      invariant PlanInputs(psbt.inputs[..i]) == Ok(inputs) && totalInputSats == SumInputs(inputs)
    {
      var utxo := PsbtInputUtxo(psbt.inputs[i]);
      PlanInputsNext(psbt.inputs, i, inputs);
      if utxo.Err? {
        return Err(utxo.error);
      }
      totalInputSats := totalInputSats + utxo.value.value;
      inputs := inputs + [PlanInput(psbt.inputs[i], utxo.value)];
    }
    assert psbt.inputs[..|psbt.inputs|] == psbt.inputs;
    var totalOutputSats := 0;
    for i := 0 to |psbt.outputs|
      invariant totalOutputSats == SumOutputs(psbt.outputs[..i])
    {
      assert psbt.outputs[..i + 1][..i] == psbt.outputs[..i];
      totalOutputSats := totalOutputSats + psbt.outputs[i].valueSats;
    }
    assert psbt.outputs[..|psbt.outputs|] == psbt.outputs;
    if totalInputSats < totalOutputSats {
      return Err(SpendsMoreThanInputs);
    }
    var sighashType := SighashTypeFromPsbt(psbt.inputs);
    if sighashType.Err? {
      return Err(sighashType.error);
    }
    if inputs == [] || psbt.outputs == [] {
      return Err(InvalidPlan);
    }
    return Ok(Plan(psbt.btcNetwork, inputs, psbt.outputs, totalInputSats - totalOutputSats,
                   psbt.version, psbt.locktime, sighashType.value));
  }

  // ----- What a plan says of its PSBT -----

  /** The output an input spends: its own record of it, or else the one it points at in the previous transaction. */
  predicate Spends(i: PsbtInput, u: Utxo) {
    if i.witnessUtxo.Some? then u == i.witnessUtxo.value
    else i.previousOutputs.Some? && i.index < |i.previousOutputs.value| && u == i.previousOutputs.value[i.index]
  }

  /** An input of the plan names the spent output, its value and the hash of its script. */
  ghost predicate Describes(planned: Input, i: PsbtInput) {
    && planned.btcTxId == i.btcTxId && planned.vout == i.index
    && exists u :: Spends(i, u) && planned.valueSats == u.value && planned.scriptTemplateId == KeccakBytes(u.script)
  }

  ghost predicate DescribesAll(planned: seq<Input>, inputs: seq<PsbtInput>) {
    |planned| == |inputs| && forall i :: 0 <= i < |inputs| ==> Describes(planned[i], inputs[i])
  }

  /** Every input says what it spends, and together they cover the outputs. */
  ghost predicate IsCovered(psbt: Psbt) {
    exists planned :: DescribesAll(planned, psbt.inputs) && SumInputs(planned) >= SumOutputs(psbt.outputs)
  }

  /** Every input that names a sighash type names this one, which is 1 when none does. */
  predicate IsSighashType(inputs: seq<PsbtInput>, t: nat) {
    && (forall i :: 0 <= i < |inputs| && inputs[i].sighashType.Some? ==> inputs[i].sighashType.value == t)
    && ((forall i :: 0 <= i < |inputs| ==> inputs[i].sighashType.None?) ==> t == 1)
  }

  lemma {:induction false} PlanInputsDescribe(inputs: seq<PsbtInput>)
    ensures PlanInputs(inputs).Ok? <==> exists planned :: DescribesAll(planned, inputs)
    ensures forall planned :: DescribesAll(planned, inputs) ==> PlanInputs(inputs) == Ok(planned)
    ensures PlanInputs(inputs).Ok? ==> DescribesAll(PlanInputs(inputs).value, inputs)
    decreases |inputs|
  {
    if inputs == [] {
      assert DescribesAll([], inputs);
    } else {
      var n := |inputs| - 1;
      PlanInputsDescribe(inputs[..n]);
      UtxoIsSpent(inputs[n]);
      forall planned | DescribesAll(planned, inputs)
        ensures DescribesAll(planned[..n], inputs[..n]) && PsbtInputUtxo(inputs[n]).Ok?
        ensures PlanInputs(inputs) == Ok(planned)
      {
        assert Describes(planned[n], inputs[n]);
        assert planned == planned[..n] + [planned[n]];
      }
      if PlanInputs(inputs).Ok? {
        assert DescribesAll(PlanInputs(inputs).value, inputs);
      }
    }
  }

  lemma UtxoIsSpent(i: PsbtInput)
    ensures forall u :: Spends(i, u) <==> PsbtInputUtxo(i) == Ok(u)
  {
  }

  lemma {:induction false} TypesAreExplicit(inputs: seq<PsbtInput>)
    ensures forall t :: t in ExplicitTypes(inputs) <==>
      exists i :: 0 <= i < |inputs| && inputs[i].sighashType == Some(t)
    decreases |inputs|
  {
    if inputs != [] {
      TypesAreExplicit(inputs[1..]);
      forall t ensures t in ExplicitTypes(inputs)
        <==> exists i :: 0 <= i < |inputs| && inputs[i].sighashType == Some(t) {
        if i :| 0 <= i < |inputs[1..]| && inputs[1..][i].sighashType == Some(t) {
          assert inputs[i + 1].sighashType == Some(t);
        }
        if i :| 0 < i < |inputs| && inputs[i].sighashType == Some(t) {
          assert inputs[1..][i - 1].sighashType == Some(t);
        }
      }
    }
  }

  lemma SighashTypeIsDecided(inputs: seq<PsbtInput>)
    ensures SighashTypeFromPsbt(inputs).Ok? <==> exists t: nat :: IsSighashType(inputs, t)
    ensures forall t: nat :: IsSighashType(inputs, t) ==> SighashTypeFromPsbt(inputs) == Ok(t)
    ensures SighashTypeFromPsbt(inputs).Ok? ==> IsSighashType(inputs, SighashTypeFromPsbt(inputs).value)
  {
    hide ExplicitTypes;
    TypesAreExplicit(inputs);
    var types := ExplicitTypes(inputs);
    forall i | 0 <= i < |inputs| && inputs[i].sighashType.Some? ensures inputs[i].sighashType.value in types {}
    if types == [] {
      assert IsSighashType(inputs, 1);
    } else {
      assert types[0] in types;
      forall t: nat | IsSighashType(inputs, t) ensures forall k :: 0 <= k < |types| ==> types[k] == t {
        forall k | 0 <= k < |types| ensures types[k] == t {
          assert types[k] in types;
        }
      }
      if forall k :: 0 <= k < |types| ==> types[k] == types[0] {
        assert IsSighashType(inputs, types[0]);
      }
    }
  }

  /**
    Exactly when a plan is derived: every input says what it spends, the inputs cover the outputs, they
    name at most one sighash type, and there are inputs and outputs. The plan then describes each of
    them in order, and its fee is what the inputs have over the outputs.
   */
  lemma ExtractionIsDecided(psbt: Psbt)
    ensures ExtractPlan(psbt).Ok? <==>
      && psbt.inputs != [] && psbt.outputs != [] && (exists t: nat :: IsSighashType(psbt.inputs, t))
      && IsCovered(psbt)
    ensures ExtractPlan(psbt).Ok? ==>
      var p := ExtractPlan(psbt).value;
      && DescribesAll(p.inputs, psbt.inputs) && p.outputs == psbt.outputs && p.btcNetwork == psbt.btcNetwork
      && p.nVersion == psbt.version && p.nLockTime == psbt.locktime && IsSighashType(psbt.inputs, p.sighashType)
      && SumInputs(p.inputs) == SumOutputs(p.outputs) + p.feeSats
    ensures ExtractPlan(psbt) == Err(SpendsMoreThanInputs) <==>
      exists planned :: DescribesAll(planned, psbt.inputs) && SumInputs(planned) < SumOutputs(psbt.outputs)
    ensures ExtractPlan(psbt).Err? && IsCovered(psbt) ==>
      ExtractPlan(psbt).error
      == if !(exists t: nat :: IsSighashType(psbt.inputs, t)) then MixedSighashTypes else InvalidPlan
    ensures !(exists planned :: DescribesAll(planned, psbt.inputs)) ==>
      ExtractPlan(psbt) in {Err(MissingUtxo), Err(MissingReferencedOutput)}
  {
    hide PlanInputs, SighashTypeFromPsbt, DescribesAll, IsSighashType, SumInputs, SumOutputs;
    PlanInputsDescribe(psbt.inputs);
    SighashTypeIsDecided(psbt.inputs);
    RefusedForOtherReasons(psbt.inputs);
  }

  lemma RefusedForOtherReasons(inputs: seq<PsbtInput>)
    ensures PlanInputs(inputs).Err? ==> PlanInputs(inputs).error in {MissingUtxo, MissingReferencedOutput}
    ensures SighashTypeFromPsbt(inputs).Err? ==> SighashTypeFromPsbt(inputs).error == MixedSighashTypes
  {
  }

  lemma {:induction false} DestinationIsFoundIff(a: ReleaseAuthorization, outputs: seq<Output>)
    ensures FindDestination(a, outputs).Some?
        <==> exists i :: 0 <= i < |outputs| && KeccakBytes(outputs[i].script) == a.destinationScriptHash
                         && outputs[i].valueSats == a.amountSats
  {
    if outputs != [] {
      DestinationIsFoundIff(a, outputs[1..]);
      forall i | 0 < i < |outputs| ensures outputs[i] == outputs[1..][i - 1] {}
    }
  }

  /** The widths of the encoded types: uint32 and uint64, int32 for the version. */
  lemma FitsIsDecided(p: Plan)
    ensures Fits(p) <==>
      && (forall i :: i in p.inputs ==> i.vout < 0x1_0000_0000 && i.valueSats < 0x1_0000_0000_0000_0000)
      && (forall o :: o in p.outputs ==> o.valueSats < 0x1_0000_0000_0000_0000 && |o.script| < TWO_256 / 2)
      && p.feeSats < 0x1_0000_0000_0000_0000 && -0x8000_0000 <= p.nVersion < 0x8000_0000
      && p.nLockTime < 0x1_0000_0000_0000_0000 && p.sighashType < 0x1_0000_0000
  {
  }

  /**
    Exactly when a plan is accepted for an authorization: it fits the types, it is for the network, its
    three commitments are the authorized ones, its fee is within the budget, and an output pays the
    amount to the script.
   */
  lemma AcceptanceIsDecided(a: ReleaseAuthorization, p: Plan)
    ensures VerifyReleaseSpendPlan(a, p).Ok? <==>
      && p.inputs != [] && p.outputs != [] && Fits(p) && p.btcNetwork == a.btcNetwork
      && a.inputsCommitment == InputsCommitment(p.inputs) && a.outputsCommitment == OutputsCommitment(p.outputs)
      && a.psbtPolicyHash == PsbtPolicyHash(p, a.changePolicyHash) && p.feeSats <= a.maxMinerFeeSats
      && exists i :: 0 <= i < |p.outputs| && KeccakBytes(p.outputs[i].script) == a.destinationScriptHash
                     && p.outputs[i].valueSats == a.amountSats
    ensures VerifyReleaseSpendPlan(a, p).Err? ==>
      VerifyReleaseSpendPlan(a, p).error
      == if p.inputs == [] || p.outputs == [] then InvalidPlan
         else if !Fits(p) then ValueOutOfRange
         else if p.btcNetwork != a.btcNetwork then NetworkMismatch
         else if a.inputsCommitment != InputsCommitment(p.inputs) then InputsMismatch
         else if a.outputsCommitment != OutputsCommitment(p.outputs) then OutputsMismatch
         else if a.psbtPolicyHash != PsbtPolicyHash(p, a.changePolicyHash) then PolicyMismatch
         else if p.feeSats > a.maxMinerFeeSats then FeeTooHigh
         else NoDestinationOutput
  {
    hide InputsCommitment, OutputsCommitment, PsbtPolicyHash, FindDestination, InputFits, OutputFits, PolicyFits;
    DestinationIsFoundIff(a, p.outputs);
  }

  // ----- Conservation -----

  lemma {:induction false} SumSplits(outputs: seq<Output>, i: nat)
    requires i < |outputs|
    ensures SumOutputs(outputs) == SumOutputs(outputs[..i] + outputs[i + 1..]) + outputs[i].valueSats
    decreases |outputs|
  {
    var n := |outputs| - 1;
    if i == n {
      assert outputs[..i] + outputs[i + 1..] == outputs[..n];
    } else {
      SumSplits(outputs[..n], i);
      var without := outputs[..i] + outputs[i + 1..];
      assert without[..n - 1] == outputs[..n][..i] + outputs[..n][i + 1..];
      assert without[n - 1] == outputs[n];
    }
  }

  lemma DestinationIsThere(a: ReleaseAuthorization, outputs: seq<Output>) returns (i: nat)
    requires FindDestination(a, outputs).Some?
    ensures i < |outputs| && outputs[i] == FindDestination(a, outputs).value && IsDestination(a, outputs[i])
  {
    if IsDestination(a, outputs[0]) {
      i := 0;
    } else {
      i := DestinationIsThere(a, outputs[1..]);
      i := i + 1;
    }
  }

  /** What an accepted PSBT spends is the redeemed amount, the other outputs and a fee within the authorized budget. */
  lemma AcceptedPsbtConservesValue(psbt: Psbt, a: ReleaseAuthorization) returns (i: nat)
    requires ExtractPlan(psbt).Ok? && VerifyReleaseSpendPlan(a, ExtractPlan(psbt).value).Ok?
    ensures var p := ExtractPlan(psbt).value;
      && p.outputs == psbt.outputs && |p.inputs| == |psbt.inputs|
      && i < |p.outputs| && IsDestination(a, p.outputs[i])
      && SumInputs(p.inputs) == a.amountSats + SumOutputs(p.outputs[..i] + p.outputs[i + 1..]) + p.feeSats
      && 0 <= p.feeSats <= a.maxMinerFeeSats
  {
    hide InputsCommitment, OutputsCommitment, PsbtPolicyHash, Fits, SighashTypeFromPsbt;
    var p := ExtractPlan(psbt).value;
    i := DestinationIsThere(a, p.outputs);
    SumSplits(p.outputs, i);
    PlanInputsLength(psbt.inputs);
  }

  lemma PlanInputsLength(inputs: seq<PsbtInput>)
    requires PlanInputs(inputs).Ok?
    ensures |PlanInputs(inputs).value| == |inputs|
    ensures forall i :: 0 <= i < |inputs| ==>
      PlanInputs(inputs).value[i].btcTxId == inputs[i].btcTxId && PlanInputs(inputs).value[i].vout == inputs[i].index
  {
    if inputs != [] {
      PlanInputsLength(inputs[..|inputs| - 1]);
    }
  }

  // ----- Building a PSBT -----

  datatype Spendable = Spendable(btcTxId: Bytes32, vout: nat, valueSats: nat, script: seq<Byte>)

  function FundedInput(u: Spendable): PsbtInput {
    PsbtInput(u.btcTxId, u.vout, Some(Utxo(u.script, u.valueSats)), None, None)
  }

  function SumSpendable(utxos: seq<Spendable>): nat {
    if utxos == [] then 0 else SumSpendable(utxos[..|utxos| - 1]) + utxos[|utxos| - 1].valueSats
  }

  /** destination and change are the scripts of the two addresses. */
  method BuildP2wpkhSpendPsbt(btcNetwork: nat, utxos: seq<Spendable>, destination: seq<Byte>, amountSats: nat,
                              feeSats: nat,
                              change: Option<seq<Byte>>, locktime: nat, version: int) returns (result: Result<Psbt>)
    ensures result == Err(InsufficientValue) <==> SumSpendable(utxos) < amountSats + feeSats
    ensures result == Err(ChangeAddressRequired) <==> SumSpendable(utxos) > amountSats + feeSats && change.None?
    ensures result.Ok? <==>
      SumSpendable(utxos) >= amountSats + feeSats && (SumSpendable(utxos) > amountSats + feeSats ==> change.Some?)
    ensures result.Ok? ==>
      && result.value.btcNetwork == btcNetwork && result.value.locktime == locktime && result.value.version == version
      && |result.value.inputs| == |utxos|
      && (forall i :: 0 <= i < |utxos| ==> result.value.inputs[i] == FundedInput(utxos[i]))
      && result.value.outputs == [Output(destination, amountSats)]
           + (if SumSpendable(utxos) == amountSats + feeSats then []
              else [Output(change.value, SumSpendable(utxos) - amountSats - feeSats)])
      && ExtractsTo(result.value, feeSats, utxos)
  {
    hide SighashTypeFromPsbt, PlanInputs, FundedInput;
    var inputs: seq<PsbtInput> := [];
    var totalInputSats := 0;
    for i := 0 to |utxos|
      invariant |inputs| == i && forall k :: 0 <= k < i ==> inputs[k] == FundedInput(utxos[k])
      invariant totalInputSats == SumSpendable(utxos[..i])
    {
      assert utxos[..i + 1][..i] == utxos[..i];
      totalInputSats := totalInputSats + utxos[i].valueSats;
      inputs := inputs + [FundedInput(utxos[i])];
    }
    assert utxos[..|utxos|] == utxos;
    if totalInputSats < amountSats + feeSats {
      return Err(InsufficientValue);
    }
    var outputs := [Output(destination, amountSats)];
    assert outputs[..0] == [];
    assert SumOutputs(outputs) == amountSats;
    assert outputs + [] == outputs;
    var changeSats := totalInputSats - amountSats - feeSats;
    if changeSats > 0 {
      if change.None? {
        return Err(ChangeAddressRequired);
      }
      var more := outputs + [Output(change.value, changeSats)];
      assert more[..1] == outputs;
      outputs := more;
    }
    FundedExtracts(inputs, utxos);
    return Ok(Psbt(btcNetwork, inputs, outputs, version, locktime));
  }

  /** The plan derived from the PSBT has the requested fee, and spends just these outputs. */
  predicate ExtractsTo(psbt: Psbt, feeSats: nat, utxos: seq<Spendable>) {
    && (utxos == [] ==> ExtractPlan(psbt) == Err(InvalidPlan))
    && (utxos != [] ==> ExtractPlan(psbt).Ok? && ExtractPlan(psbt).value.feeSats == feeSats
                        && SumInputs(ExtractPlan(psbt).value.inputs) == SumSpendable(utxos)
                        && ExtractPlan(psbt).value.sighashType == 1)
  }

  lemma {:induction false} FundedExtracts(inputs: seq<PsbtInput>, utxos: seq<Spendable>)
    requires |inputs| == |utxos| && forall i :: 0 <= i < |utxos| ==> inputs[i] == FundedInput(utxos[i])
    ensures PlanInputs(inputs).Ok? && |PlanInputs(inputs).value| == |inputs|
    ensures SumInputs(PlanInputs(inputs).value) == SumSpendable(utxos)
    ensures SighashTypeFromPsbt(inputs) == Ok(1)
    decreases |inputs|
  {
    hide SighashTypeFromPsbt, ExplicitTypes;
    NoExplicitTypes(inputs);
    if inputs != [] {
      var n := |inputs| - 1;
      FundedExtracts(inputs[..n], utxos[..n]);
      var front := PlanInputs(inputs[..n]).value;
      assert PlanInputs(inputs).value[..n] == front;
    }
  }

  lemma NoExplicitTypes(inputs: seq<PsbtInput>)
    requires forall i :: 0 <= i < |inputs| ==> inputs[i].sighashType == None
    ensures ExplicitTypes(inputs) == [] && SighashTypeFromPsbt(inputs) == Ok(1)
  {
  }

  // ----- The finished transaction -----

  datatype TxInput = TxInput(btcTxId: Bytes32, index: nat)

  datatype Transaction = Transaction(version: int, locktime: nat, ins: seq<TxInput>, outs: seq<Output>)

  /** The transaction a plan describes. */
  function TransactionOf(p: Plan): Transaction {
    Transaction(p.nVersion, p.nLockTime,
                seq(|p.inputs|, i requires 0 <= i < |p.inputs| => TxInput(p.inputs[i].btcTxId, p.inputs[i].vout)),
                p.outputs)
  }

  /** The comparison accepts the transaction the plan describes, and no other. */
  method AssertFinalTransactionMatchesSpendPlan(tx: Transaction, p: Plan) returns (error: Option<PlanError>)
    ensures error == None <==> p.inputs != [] && p.outputs != [] && tx == TransactionOf(p)
  {
    if p.inputs == [] || p.outputs == [] {
      return Some(InvalidPlan);
    }
    if tx.version != p.nVersion {
      return Some(VersionMismatch);
    }
    if tx.locktime != p.nLockTime {
      return Some(LocktimeMismatch);
    }
    if |tx.ins| != |p.inputs| {
      return Some(InputCountMismatch);
    }
    if |tx.outs| != |p.outputs| {
      return Some(OutputCountMismatch);
    }
    for i := 0 to |p.inputs|
      invariant tx.ins[..i] == TransactionOf(p).ins[..i]
    {
      if tx.ins[i].btcTxId != p.inputs[i].btcTxId || tx.ins[i].index != p.inputs[i].vout {
        assert tx.ins[i] != TransactionOf(p).ins[i];
        return Some(InputMismatch);
      }
    }
    for i := 0 to |p.outputs|
      invariant tx.outs[..i] == p.outputs[..i]
    {
      if tx.outs[i].script != p.outputs[i].script || tx.outs[i].valueSats != p.outputs[i].valueSats {
        return Some(OutputMismatch);
      }
    }
    assert tx.ins[..|tx.ins|] == tx.ins && TransactionOf(p).ins[..|tx.ins|] == TransactionOf(p).ins;
    assert tx.outs[..|tx.outs|] == tx.outs && p.outputs[..|tx.outs|] == p.outputs;
    return None;
  }

  /** Accepted for an authorization: some plan passes both checks. */
  ghost predicate IsAcceptedTransaction(a: ReleaseAuthorization, tx: Transaction) {
    exists p :: VerifyReleaseSpendPlan(a, p).Ok? && tx == TransactionOf(p)
  }

  /** One authorization, one transaction; its outputs are exactly the committed ones. */
  lemma TransactionIsDetermined(a: ReleaseAuthorization, tx: Transaction, tx': Transaction)
    requires IsAcceptedTransaction(a, tx) && IsAcceptedTransaction(a, tx')
    ensures tx == tx'
    ensures (forall i :: 0 <= i < |tx.outs| ==> OutputFits(tx.outs[i]))
      && OutputsCommitment(tx.outs) == a.outputsCommitment
    ensures exists i :: 0 <= i < |tx.outs| && IsDestination(a, tx.outs[i])
  {
    hide InputsCommitment, OutputsCommitment, PsbtPolicyHash, OutputFits;
    var p :| VerifyReleaseSpendPlan(a, p).Ok? && tx == TransactionOf(p);
    var q :| VerifyReleaseSpendPlan(a, q).Ok? && tx' == TransactionOf(q);
    PlanIsDetermined(a, p, q);
    var i := DestinationIsThere(a, p.outputs);
    assert IsDestination(a, tx.outs[i]);
  }
}
