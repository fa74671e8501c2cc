/**
  What the payouts of a run cost, and who pays for it.

  Deposits cover the supply and the amounts of all redeems exactly; the fees and the other outputs of
  the transactions come on top (PayoutsAreFundedIff). Neither is bounded by the code as one would wish:
  with an adapter's plan the declared fee need not be the real one, which stays within the budget in
  every run exactly when the plan declares all it does not pay out (FeeStaysInBudgetIff), and any
  further output is accepted (OtherOutputsAreFree).
 */
module PublicWorkerPayouts {
  import opened BridgeTypes
  import opened PublicStore
  import opened PublicWorker
  import opened PublicWorkerRuns
  import opened PublicWorkerExact
  import opened PublicWorkerStory
  import opened PublicWorkerScenario
  import P = SpendPlan
  import B = BurnGateway
  import F = FunctionsVerifier
  import Br = Bridge

  // ----- Sums over redeems -----

  /** The redeems something was sent for, with the plans of what was sent. */
  function SentPlans(w: World): map<Bytes32, P.Plan> {
    map s | s in w.sends && s.requestHash in w.rows && w.rows[s.requestHash].spendPlan.Some? ::
      s.requestHash := w.rows[s.requestHash].spendPlan.value
  }

  /** What the sent plans spend and pay out in all, and what they declare as fees. */
  function InputSats(w: World): map<Bytes32, nat> { map h | h in SentPlans(w) :: P.SumInputs(SentPlans(w)[h].inputs) }

  function OutputSats(w: World): map<Bytes32, nat> {
    map h | h in SentPlans(w) :: P.SumOutputs(SentPlans(w)[h].outputs)
  }

  function FeeSats(w: World): map<Bytes32, nat> { map h | h in SentPlans(w) :: SentPlans(w)[h].feeSats }

  /** The amounts of the records something was sent for, and of the others. */
  function PaidSats(w: World): map<Bytes32, nat> {
    map h | h in Br.RecordAmounts(w.bridge.burning.redeemRecords) && h in SentPlans(w) ::
      Br.RecordAmounts(w.bridge.burning.redeemRecords)[h]
  }

  function UnpaidSats(w: World): map<Bytes32, nat> {
    map h | h in Br.RecordAmounts(w.bridge.burning.redeemRecords) && h !in SentPlans(w) ::
      Br.RecordAmounts(w.bridge.burning.redeemRecords)[h]
  }

  /** What accounts burned without a redeem. */
  function OutsideBurns(c: Br.Chain, b: Br.Bridge): int {
    Br.BurnedSats(b.history.burns) - Br.GatewayBurns(b.history.burns, c.burnGateway)
  }

  lemma SameRest<K(!new)>(whole: map<K, nat>, part: map<K, nat>, k: K)
    requires k in part
    ensures (whole - {k}) - (part - {k}).Keys == whole - part.Keys
  {
  }

  lemma {:induction false} SumOfParts<K(!new)>(whole: map<K, nat>, part: map<K, nat>)
    requires forall k | k in part :: k in whole && whole[k] == part[k]
    ensures Sum(whole) == Sum(part) + Sum(whole - part.Keys)
    decreases |part|
  {
    if part != map[] {
      var k :| k in part;
      SumWithout(whole, k);
      SumWithout(part, k);
      SameRest(whole, part, k);
      SumOfParts(whole - {k}, part - {k});
    } else {
      assert whole - part.Keys == whole;
    }
  }

  /** Two maps over the same keys, and a third that is their sum at each key. */
  lemma {:induction false} SumOfSums<K(!new)>(whole: map<K, nat>, a: map<K, nat>, b: map<K, nat>)
    requires whole.Keys == a.Keys == b.Keys && forall k | k in whole :: whole[k] == a[k] + b[k]
    ensures Sum(whole) == Sum(a) + Sum(b)
    decreases |whole|
  {
    if whole != map[] {
      var k :| k in whole;
      SumWithout(whole, k);
      SumWithout(a, k);
      SumWithout(b, k);
      SumOfSums(whole - {k}, a - {k}, b - {k});
    } else {
      assert a == map[] && b == map[];
    }
  }

  // ----- Who pays -----

  lemma SupplyAndBurns(c: Br.Chain, w: World)
    requires Invariant(c, w)
    ensures w.bridge.token.totalSupply + Br.BurnedSats(w.bridge.history.burns) == Br.MintedSats(w.bridge.history.mints)
    ensures Br.GatewayBurns(w.bridge.history.burns, c.burnGateway)
      == Sum(Br.RecordAmounts(w.bridge.burning.redeemRecords))
  {
    hide RowFacts, JobFacts, SendFacts, B.OnceOnly, Br.MintsAreBacked;
  }

  lemma SendOf(w: World, h: Bytes32) returns (s: RawSend)
    requires h in SentPlans(w)
    ensures s in w.sends && s.requestHash == h && h in w.rows && w.rows[h].spendPlan == Some(SentPlans(w)[h])
  {
    s :| s in w.sends && s.requestHash == h;
  }

  /** Every transaction sent has a plan that pays its record. */
  lemma SentPlansPay(c: Br.Chain, w: World, moves: seq<Move>, h: Bytes32) returns (i: nat)
    requires IsStart(c, w) && IsRun(c, w, moves) && h in SentPlans(Run(c, w, moves))
    ensures var w' := Run(c, w, moves);
      && h in w'.rows && h in w'.bridge.burning.redeemRecords
      && Pays(SentPlans(w')[h], w'.bridge.burning.redeemRecords[h].request, i)
      && (w'.rows[h].psbt.Some? ==> Conserves(SentPlans(w')[h]))
  {
    hide IsStart, IsRun, Run, Conserves, Pays;
    var s := SendOf(Run(c, w, moves), h);
    i := PayoutMatchesBurn(c, w, moves, s);
  }

  lemma SentIsPlanned(c: Br.Chain, w: World, moves: seq<Move>, s: RawSend)
    requires IsStart(c, w) && IsRun(c, w, moves) && s in Run(c, w, moves).sends
    ensures s.requestHash in SentPlans(Run(c, w, moves))
  {
    hide IsStart, IsRun, Run, Conserves, Pays;
    var i := PayoutMatchesBurn(c, w, moves, s);
  }

  /**
    In every run, with each redeem counted once: supply, what was paid on redeems, what is owed on the
    others and what was burned without a redeem are together the sats of the consumed deposits. The fees
    come on top: deposits cover them exactly as far as there are outside burns and unpaid redeems, and
    the same holds of fees and other outputs together.
   */
  lemma PayoutsAreFundedIff(c: Br.Chain, w: World, moves: seq<Move>)
    requires IsStart(c, w) && IsRun(c, w, moves)
    ensures var w' := Run(c, w, moves);
      var (supply, minted) := (w'.bridge.token.totalSupply, Br.MintedSats(w'.bridge.history.mints));
      var spare := OutsideBurns(c, w'.bridge) + Sum(UnpaidSats(w'));
      && (forall s | s in w'.sends :: s.requestHash in PaidSats(w'))
      && OutsideBurns(c, w'.bridge) >= 0 && Sum(OutputSats(w')) >= Sum(PaidSats(w'))
      && supply + Sum(PaidSats(w')) + spare == minted
      && (supply + Sum(PaidSats(w')) + Sum(FeeSats(w')) <= minted <==> Sum(FeeSats(w')) <= spare)
      && (supply + Sum(OutputSats(w')) + Sum(FeeSats(w')) <= minted <==>
            Sum(OutputSats(w')) - Sum(PaidSats(w')) + Sum(FeeSats(w')) <= spare)
  {
    hide Invariant, IsStart, Run, IsRun, SentPlans, Br.RecordAmounts;
    RunInvariant(c, w, moves);
    var w' := Run(c, w, moves);
    SupplyAndBurns(c, w');
    Br.GatewayBurnsAtMost(w'.bridge.history.burns, c.burnGateway);
    var amounts := Br.RecordAmounts(w'.bridge.burning.redeemRecords);
    SumOfParts(amounts, PaidSats(w'));
    assert amounts - PaidSats(w').Keys == UnpaidSats(w');
    OutputsCoverPayments(c, w, moves);
    forall s | s in w'.sends ensures s.requestHash in PaidSats(w') {
      SentIsPlanned(c, w, moves, s);
    }
  }

  lemma OutputsCoverPayments(c: Br.Chain, w: World, moves: seq<Move>)
    requires IsStart(c, w) && IsRun(c, w, moves)
    ensures var w' := Run(c, w, moves);
      PaidSats(w').Keys == SentPlans(w').Keys && Sum(OutputSats(w')) >= Sum(PaidSats(w'))
  {
    hide IsStart, Run, IsRun, SentPlans;
    var w' := Run(c, w, moves);
    forall h | h in SentPlans(w') ensures h in PaidSats(w') && OutputSats(w')[h] >= PaidSats(w')[h] {
      var i := SentPlansPay(c, w, moves, h);
    }
    var (outputs, paid) := (OutputSats(w'), PaidSats(w'));
    var others := map h | h in outputs :: outputs[h] - paid[h];
    SumOfSums(outputs, paid, others);
  }

  /**
    When every plan sent conserves value, as all that come from PSBTs do, what is spent is what is
    paid out and the fees.
   */
  lemma SpendingIsAccounted(c: Br.Chain, w: World, moves: seq<Move>)
    requires IsStart(c, w) && IsRun(c, w, moves)
    requires var w' := Run(c, w, moves);
      forall h | h in SentPlans(w') && w'.rows[h].psbt.None? :: Conserves(SentPlans(w')[h])
    ensures var w' := Run(c, w, moves); Sum(InputSats(w')) == Sum(OutputSats(w')) + Sum(FeeSats(w'))
  {
    hide IsStart, Run, IsRun, SentPlans;
    var w' := Run(c, w, moves);
    forall h | h in SentPlans(w') ensures Conserves(SentPlans(w')[h]) {
      var i := SentPlansPay(c, w, moves, h);
    }
    SumOfSums(InputSats(w'), OutputSats(w'), FeeSats(w'));
  }

  // ----- Where the code promises less -----

  /** 1000 sats to a witness program of zeros, at most one sat of fee; the adapter's plan is free. */
  function SmallStory(inputSats: Uint64, more: seq<P.Output>, feeSats: nat, bytes: seq<Byte>): Story {
    var script := [0x00, 0x14] + seq(20, i => 0);
    var plan := P.Plan(SIGNET_BTC_NETWORK, [P.Input(Word(20), 0, inputSats, Word(21))], [P.Output(script, 1000)] + more,
                       feeSats, 2, 0, 1);
    Story(script, 1000, 1, plan, bytes)
  }

  lemma SmallStoryMatches(inputSats: Uint64, more: seq<P.Output>, feeSats: nat, bytes: seq<Byte>)
    requires feeSats <= 1 && forall i | 0 <= i < |more| :: P.OutputFits(more[i])
    ensures Matches(SmallStory(inputSats, more, feeSats, bytes))
  {
    var s := SmallStory(inputSats, more, feeSats, bytes);
    assert s.plan.outputs[0] == P.Output(s.script, s.amountSats);
    forall i | 0 <= i < |s.plan.outputs| ensures P.OutputFits(s.plan.outputs[i]) {
      if i > 0 {
        assert s.plan.outputs[i] == more[i - 1];
      }
    }
  }

  lemma SumOfOne<K(!new)>(k: K, n: nat)
    ensures Sum(map[k := n]) == n
  {
    SumWithout(map[k := n], k);
    assert map[k := n] - {k} == map[];
  }

  /** An exact run in which one deposit was minted, all of it burned, and the story's plan sent. */
  ghost predicate Tells(s: Story, c: Br.Chain, w: World, moves: seq<Move>) {
    && IsStart(c, w) && IsExactRun(c, w, moves) && IsRun(c, w, moves)
    && var w' := Run(c, w, moves);
       && SentPlans(w') == map[TheHash(s) := s.plan]
       && w'.bridge.burning.redeemRecords == map[TheHash(s) := B.RedeemRecord(TheRequest(s), CONSUMED)]
       && w'.bridge.token.totalSupply == 0 && Br.MintedSats(w'.bridge.history.mints) == s.amountSats
       && OutsideBurns(c, w'.bridge) == 0
  }

  lemma ConsumedAccounts(s: Story)
    requires Matches(s)
    ensures var b := Consumed(s);
      && b.burning.redeemRecords == map[TheHash(s) := B.RedeemRecord(TheRequest(s), CONSUMED)]
      && b.token.totalSupply == 0 && Br.MintedSats(b.history.mints) == s.amountSats
      && Br.BurnedSats(b.history.burns) == Br.GatewayBurns(b.history.burns, BURN_GATEWAY)
  {
    hide P.Fits, TheHash, AtFirst, B.IsAllowedDestinationScript, TheRelease, TheRequest, TheDeposit, MintStructHash,
      ReleaseStructHash, F.ApprovalKey;
    assert Consumed(s).history.mints[..0] == [] && Consumed(s).history.burns[..0] == [];
  }

  lemma OneIsSent(w: World, h: Bytes32, raw: RawTx, row: Row)
    requires w.sends == [RawSend(h, raw)] && w.rows == map[h := row] && row.spendPlan.Some?
    ensures SentPlans(w) == map[h := row.spendPlan.value]
  {
    assert w.sends[0] in w.sends;
  }

  lemma StoryIsTold(s: Story) returns (c: Br.Chain, w: World, moves: seq<Move>)
    requires Matches(s)
    ensures Tells(s, c, w, moves)
  {
    hide IsStart, IsRun, IsExactRun, Run, TheHash, Matches, Consumed, SentPlans;
    c, w, moves := AnyMatchingPlanIsSent(s);
    ConsumedAccounts(s);
    OneIsSent(Run(c, w, moves), TheHash(s), TheRaw(s), RowCompleted(s));
  }

  lemma PlanSumsOfOne(w: World, h: Bytes32, p: P.Plan)
    requires SentPlans(w) == map[h := p]
    ensures Sum(FeeSats(w)) == p.feeSats && Sum(OutputSats(w)) == P.SumOutputs(p.outputs)
      && Sum(InputSats(w)) == P.SumInputs(p.inputs)
  {
    hide SentPlans, P.SumOutputs, P.SumInputs, Sum;
    assert FeeSats(w) == map[h := p.feeSats];
    assert OutputSats(w) == map[h := P.SumOutputs(p.outputs)];
    assert InputSats(w) == map[h := P.SumInputs(p.inputs)];
    SumOfOne(h, p.feeSats);
    SumOfOne(h, P.SumOutputs(p.outputs));
    SumOfOne(h, P.SumInputs(p.inputs));
  }

  lemma AmountSumsOfOne(w: World, h: Bytes32, r: B.RedeemRecord)
    requires SentPlans(w).Keys == {h} && w.bridge.burning.redeemRecords == map[h := r]
    ensures Sum(PaidSats(w)) == r.request.amountSats && Sum(UnpaidSats(w)) == 0
  {
    hide SentPlans;
    assert PaidSats(w) == map[h := r.request.amountSats as nat] && UnpaidSats(w) == map[];
    SumOfOne(h, r.request.amountSats);
  }

  lemma ToldSums(s: Story, c: Br.Chain, w: World, moves: seq<Move>)
    requires Tells(s, c, w, moves)
    ensures var w' := Run(c, w, moves);
      && Sum(PaidSats(w')) == s.amountSats && Sum(UnpaidSats(w')) == 0 && Sum(FeeSats(w')) == s.plan.feeSats
      && Sum(OutputSats(w')) == P.SumOutputs(s.plan.outputs) && Sum(InputSats(w')) == P.SumInputs(s.plan.inputs)
  {
    hide IsStart, IsRun, IsExactRun, Run, TheHash, SentPlans;
    PlanSumsOfOne(Run(c, w, moves), TheHash(s), s.plan);
    AmountSumsOfOne(Run(c, w, moves), TheHash(s), B.RedeemRecord(TheRequest(s), CONSUMED));
  }

  /** With one redeem paid and nothing burned besides, the deposits fall short by the fee. */
  lemma FeesAreNotFunded(bytes: seq<Byte>) returns (c: Br.Chain, w: World, moves: seq<Move>)
    ensures IsStart(c, w) && IsExactRun(c, w, moves)
    ensures var w' := Run(c, w, moves);
      && Sum(FeeSats(w')) == 1 && OutsideBurns(c, w'.bridge) == 0
      && w'.bridge.token.totalSupply + Sum(PaidSats(w')) + Sum(FeeSats(w'))
           == Br.MintedSats(w'.bridge.history.mints) + 1
  {
    hide IsStart, IsRun, IsExactRun, Run, Matches, SentPlans, TheHash;
    SmallStoryMatches(1001, [], 1, bytes);
    var s := SmallStory(1001, [], 1, bytes);
    c, w, moves := StoryIsTold(s);
    ToldSums(s, c, w, moves);
  }

  /** All the sats there can be. */
  const MAX_MONEY: nat := 2_100_000_000_000_000

  /** No policy on change is evaluated: any output whatever may stand beside the destination. */
  lemma OtherOutputsAreFree(o: P.Output, bytes: seq<Byte>) returns (c: Br.Chain, w: World, moves: seq<Move>)
    requires P.OutputFits(o) && o.valueSats <= MAX_MONEY
    ensures IsStart(c, w) && IsExactRun(c, w, moves)
    ensures var w' := Run(c, w, moves);
      && (exists h | h in SentPlans(w') :: o in SentPlans(w')[h].outputs)
      && Sum(OutputSats(w')) == Sum(PaidSats(w')) + o.valueSats
  {
    hide IsStart, IsRun, IsExactRun, Run, Matches, TheHash;
    SmallStoryMatches(0, [o], 0, bytes);
    var s := SmallStory(0, [o], 0, bytes);
    c, w, moves := StoryIsTold(s);
    ToldSums(s, c, w, moves);
    P.SumSplits(s.plan.outputs, 1);
    var rest := s.plan.outputs[..1] + s.plan.outputs[2..];
    assert rest == [P.Output(s.script, 1000)] && rest[..0] == [];
    assert s.plan.outputs[1] == o;
    assert TheHash(s) in SentPlans(Run(c, w, moves));
  }

  // ----- The fee budget -----

  /** The run sends this plan for this redeem. */
  ghost predicate Sends(c: Br.Chain, w: World, moves: seq<Move>, h: Bytes32, p: P.Plan) {
    && IsStart(c, w) && IsRun(c, w, moves)
    && h in SentPlans(Run(c, w, moves)) && SentPlans(Run(c, w, moves))[h] == p
    && h in Run(c, w, moves).bridge.burning.redeemRecords
  }

  ghost predicate SendsExactly(c: Br.Chain, w: World, moves: seq<Move>, h: Bytes32, p: P.Plan) {
    Sends(c, w, moves, h, p) && IsExactRun(c, w, moves)
  }

  /** What the plan spends beyond its outputs is within the budget of the redeem. */
  ghost predicate WithinBudget(c: Br.Chain, w: World, moves: seq<Move>, h: Bytes32, p: P.Plan)
    requires Sends(c, w, moves, h, p)
  {
    P.SumInputs(p.inputs) - P.SumOutputs(p.outputs)
      <= Run(c, w, moves).bridge.burning.redeemRecords[h].request.maxMinerFeeSats
  }

  /** The plan spends no more than it pays out and declares. */
  predicate DeclaresAll(p: P.Plan) { P.SumInputs(p.inputs) <= P.SumOutputs(p.outputs) + p.feeSats }

  lemma DeclaredIsWithin(c: Br.Chain, w: World, moves: seq<Move>, h: Bytes32, p: P.Plan)
    requires Sends(c, w, moves, h, p) && DeclaresAll(p)
    ensures WithinBudget(c, w, moves, h, p)
  {
    hide IsStart, IsRun, Run, SentPlans;
    var i := SentPlansPay(c, w, moves, h);
  }

  /**
    A plan's real fee is within the budget of every redeem it is sent for, in any run, if it declares
    all that it does not pay out; and if it does not, it exceeds the budget in some exact run. For every
    plan that can be sent with its fee as the budget.
   */
  lemma FeeStaysInBudgetIff(s: Story)
    requires Matches(s) && s.maxMinerFeeSats == s.plan.feeSats
    ensures DeclaresAll(s.plan) ==> forall c, w, moves, h | Sends(c, w, moves, h, s.plan) ::
      WithinBudget(c, w, moves, h, s.plan)
    ensures (forall c, w, moves, h | SendsExactly(c, w, moves, h, s.plan) :: WithinBudget(c, w, moves, h, s.plan))
       <==> DeclaresAll(s.plan)
  {
    hide IsStart, IsRun, IsExactRun, Run, Matches, TheHash, SentPlans;
    if DeclaresAll(s.plan) {
      forall c, w, moves, h | Sends(c, w, moves, h, s.plan) ensures WithinBudget(c, w, moves, h, s.plan) {
        DeclaredIsWithin(c, w, moves, h, s.plan);
      }
    } else {
      var c, w, moves := StoryIsTold(s);
      assert SendsExactly(c, w, moves, TheHash(s), s.plan);
      assert !WithinBudget(c, w, moves, TheHash(s), s.plan);
    }
  }

  /** A plan that declares no fee and spends a million sats more than it pays out, for a budget of one sat. */
  lemma BudgetIsExceeded(bytes: seq<Byte>) returns (c: Br.Chain, w: World, moves: seq<Move>, h: Bytes32, p: P.Plan)
    ensures SendsExactly(c, w, moves, h, p) && !WithinBudget(c, w, moves, h, p)
    ensures p.feeSats == 0 && Run(c, w, moves).bridge.burning.redeemRecords[h].request.maxMinerFeeSats == 1
    ensures P.SumInputs(p.inputs) == P.SumOutputs(p.outputs) + 1_000_000
  {
    hide IsStart, IsRun, IsExactRun, Run, Matches, TheHash, SentPlans;
    SmallStoryMatches(1_001_000, [], 0, bytes);
    var s := SmallStory(1_001_000, [], 0, bytes);
    c, w, moves := StoryIsTold(s);
    h, p := TheHash(s), s.plan;
    var none: seq<P.Output> := [];
    assert p.outputs == [P.Output(s.script, 1000)] && p.outputs[..0] == none && p.inputs[..0] == [];
    assert P.SumInputs(p.inputs) == 1_001_000 && P.SumOutputs(p.outputs) == 1000;
  }
}
