/**
  The Bitcoin signer: policy checks, a durable reservation per redeem, and signing.

  The store is keyed by the text of the redeem identifier as it was submitted; of its hex letters the
  schema leaves the case free, and hashes do not depend on it.
  Any number of processes may sign at once: each looks a reservation up, inserts one (a second
  insert under one key fails), signs and records, and may stop anywhere. Over every such run all
  signatures under one key are on one spend plan for one authorization (SignaturesAgree), and two
  conflicting submissions for one redeem can both be signed exactly when they spell the identifier
  differently (ConflictIsSignedIffSpelledDifferently), which can be done exactly when it has a letter
  (HasTwoSpellingsIffLetter).
 */
module ReleaseSigner {
  import opened BridgeTypes
  import V = AttestationVerifier
  import I = AttestationIngest
  import P = SpendPlan
  import D = PlanDigest

  /** Signature recovery, and the hex spelling of words in plan texts. */
  datatype Env = Env(recover: V.Recover, hex: D.Spelling)

  /** The text of an identifier, with its letters in either case. */
  type Key = seq<Byte>

  function Lower(c: Byte): Byte { if 65 <= c <= 70 then c + 32 else c }

  predicate IsLetter(c: Byte) { 97 <= c <= 102 }

  /** The text spells the identifier. */
  predicate Spells(hex: D.Spelling, redeemId: Bytes32, text: Key) {
    && |text| == |hex(redeemId)|
    && forall i | 0 <= i < |text| :: Lower(text[i]) == hex(redeemId)[i]
  }

  datatype Submission = Submission(
    authorization: ReleaseAuthorization, redeemIdText: Key, envelope: I.Envelope, psbt: P.Psbt,
    signerAddresses: seq<Address>, threshold: int, expectedBridgeDomain: Option<Bytes32>,
    expectedBtcNetwork: Option<nat>,
    now: nat, dryRun: bool)

  datatype Error =
    | EnvelopeRefused(refusal: I.Refusal) | PlanRefused(reason: P.PlanError)
    | UnreadableRedeemId | UnexpectedDomain | UnexpectedNetwork | PsbtNetworkMismatch
    | ConflictingReservation | UnexpectedStatus(status: Status) | SigningFailed

  datatype Result<+T> = Ok(value: T) | Err(error: Error)

  datatype Policy = Policy(
    key: Key, authorizationDigest: Bytes32, plan: P.Plan, spendPlanDigest: Bytes32, unsignedPsbtDigest: Bytes32,
    destinationOutput: P.Output)

  function VerifyPsbtSigningPolicy(env: Env, s: Submission): Result<Policy> {
    match I.VerifyEnvelope(env.recover, s.authorization, s.envelope, s.signerAddresses, s.threshold, Some(s.now))
    case Err(r) => Err(EnvelopeRefused(r))
    case Ok(_) =>
      if !Spells(env.hex, s.authorization.redeemId, s.redeemIdText) then Err(UnreadableRedeemId)
      else if s.expectedBridgeDomain.Some? && s.authorization.bridgeDomain != s.expectedBridgeDomain.value
        then Err(UnexpectedDomain)
      else if s.expectedBtcNetwork.Some? && s.authorization.btcNetwork != s.expectedBtcNetwork.value
        then Err(UnexpectedNetwork)
      else if s.psbt.btcNetwork != s.authorization.btcNetwork then Err(PsbtNetworkMismatch)
      else
        match P.ExtractPlan(s.psbt)
        case Err(e) => Err(PlanRefused(e))
        case Ok(plan) =>
          match P.VerifyReleaseSpendPlan(s.authorization, plan)
          case Err(e) => Err(PlanRefused(e))
          case Ok(output) =>
            Ok(Policy(s.redeemIdText, s.envelope.messageDigest, plan,
                      D.SpendPlanDigest(env.hex, plan), D.SpendPlanDigest(env.hex, plan), output))
  }

  /**
    Exactly when a submission is accepted: its envelope is, its text spells the identifier, domain and
    network are the expected ones, and its PSBT is for that network and its plan for the authorization.
   */
  lemma PolicyIsDecided(env: Env, s: Submission)
    ensures var (r, a) := (VerifyPsbtSigningPolicy(env, s), s.authorization);
      && (r.Ok? <==>
           && I.VerifyEnvelope(env.recover, a, s.envelope, s.signerAddresses, s.threshold, Some(s.now)).Ok?
           && Spells(env.hex, a.redeemId, s.redeemIdText)
           && s.expectedBridgeDomain in {None, Some(a.bridgeDomain)}
           && s.expectedBtcNetwork in {None, Some(a.btcNetwork)} && s.psbt.btcNetwork == a.btcNetwork
           && P.ExtractPlan(s.psbt).Ok? && P.VerifyReleaseSpendPlan(a, P.ExtractPlan(s.psbt).value).Ok?)
      && (r.Ok? ==>
           && r.value.key == s.redeemIdText && r.value.authorizationDigest == s.envelope.messageDigest
           && P.ExtractPlan(s.psbt) == P.Ok(r.value.plan)
           && r.value.spendPlanDigest == r.value.unsignedPsbtDigest == D.SpendPlanDigest(env.hex, r.value.plan)
           && P.VerifyReleaseSpendPlan(a, r.value.plan) == P.Ok(r.value.destinationOutput))
  {
    hide I.VerifyEnvelope, P.ExtractPlan, P.VerifyReleaseSpendPlan, D.SpendPlanDigest, Spells;
  }

  // ----- The store -----

  datatype Status = RESERVED | SIGNED | BROADCAST | CONFIRMED | ABORTED

  datatype Decision = Decision(
    authorizationDigest: Bytes32, spendPlanDigest: Bytes32, unsignedPsbtDigest: Bytes32, status: Status,
    signedPsbt: Option<P.Psbt>)

  type Rows = map<Key, Decision>

  datatype Reservation = AlreadySigned | Reserved | Missing

  predicate SameDigests(d: Decision, p: Policy) {
    d.authorizationDigest == p.authorizationDigest && d.spendPlanDigest == p.spendPlanDigest
    && d.unsignedPsbtDigest == p.unsignedPsbtDigest
  }

  /** What the lookup of a reservation decides. */
  function LookUp(rows: Rows, p: Policy): Result<Reservation> {
    if p.key !in rows then Ok(Missing)
    else if !SameDigests(rows[p.key], p) then Err(ConflictingReservation)
    else if rows[p.key].status in {SIGNED, BROADCAST, CONFIRMED} then Ok(AlreadySigned)
    else if rows[p.key].status == RESERVED then Ok(Reserved)
    else Err(UnexpectedStatus(rows[p.key].status))
  }

  function NewDecision(p: Policy): Decision {
    Decision(p.authorizationDigest, p.spendPlanDigest, p.unsignedPsbtDigest, RESERVED, None)
  }

  function Reserve(rows: Rows, p: Policy): Result<Rows> {
    match LookUp(rows, p)
    case Err(e) => Err(e)
    case Ok(Missing) => Ok(rows[p.key := NewDecision(p)])
    case Ok(_) => Ok(rows)
  }

  /** A signed PSBT is known by what it signs; the finished transaction goes with it. */
  function Record(rows: Rows, key: Key, psbt: P.Psbt): Rows {
    if key in rows then rows[key := rows[key].(status := SIGNED, signedPsbt := Some(psbt))] else rows
  }

  /** No row of the key, or one with the same three digests that was not given up. */
  predicate IsFreeFor(rows: Rows, p: Policy) {
    p.key in rows ==>
      && rows[p.key].authorizationDigest == p.authorizationDigest && rows[p.key].spendPlanDigest == p.spendPlanDigest
      && rows[p.key].unsignedPsbtDigest == p.unsignedPsbtDigest && rows[p.key].status != ABORTED
  }

  class BtcSignerStore {
    var rows: Rows

    constructor ()
      ensures rows == map[]
    {
      rows := map[];
    }

    method ReserveSigning(p: Policy) returns (result: Result<Reservation>)
      modifies this
      ensures result.Ok? <==> IsFreeFor(old(rows), p)
      ensures p.key in old(rows) ==> rows == old(rows)
      ensures p.key !in old(rows) ==>
        rows == old(rows)[p.key := Decision(p.authorizationDigest, p.spendPlanDigest, p.unsignedPsbtDigest, RESERVED,
                                            None)]
      ensures result.Ok? ==>
        result.value == if p.key in old(rows) && old(rows)[p.key].status != RESERVED then AlreadySigned else Reserved
      ensures match Reserve(old(rows), p)
              case Err(e) => result == Err(e) && rows == old(rows)
              case Ok(after) => rows == after && result.Ok? && result.value != Missing
      ensures result == Ok(AlreadySigned) <==> LookUp(old(rows), p) == Ok(AlreadySigned)
    {
      if p.key in rows {
        var existing := rows[p.key];
        if existing.authorizationDigest != p.authorizationDigest || existing.spendPlanDigest != p.spendPlanDigest
           || existing.unsignedPsbtDigest != p.unsignedPsbtDigest {
          return Err(ConflictingReservation);
        }
        if existing.status in {SIGNED, BROADCAST, CONFIRMED} {
          return Ok(AlreadySigned);
        }
        if existing.status == RESERVED {
          return Ok(Reserved);
        }
        return Err(UnexpectedStatus(existing.status));
      }
      rows := rows[p.key := NewDecision(p)];
      return Ok(Reserved);
    }

    method MarkSigned(key: Key, psbt: P.Psbt)
      modifies this
      ensures key in old(rows) ==>
        rows == old(rows)[key := old(rows)[key].(status := SIGNED, signedPsbt := Some(psbt))]
      ensures key !in old(rows) ==> rows == old(rows)
      ensures rows == Record(old(rows), key, psbt)
    {
      if key in rows {
        rows := rows[key := rows[key].(status := SIGNED, signedPsbt := Some(psbt))];
      }
    }
  }

  datatype Outcome = AlreadySignedBefore(stored: Option<P.Psbt>) | ReservedOnly | SignedNow(psbt: P.Psbt)

  /** One call: signs tells whether the key can sign every input. */
  function SignOnce(env: Env, rows: Rows, s: Submission, signs: bool): (Rows, Result<Outcome>) {
    match VerifyPsbtSigningPolicy(env, s)
    case Err(e) => (rows, Err(e))
    case Ok(p) =>
      match Reserve(rows, p)
      case Err(e) => (rows, Err(e))
      case Ok(after) =>
        if LookUp(rows, p) == Ok(AlreadySigned) then (after, Ok(AlreadySignedBefore(after[p.key].signedPsbt)))
        else if s.dryRun then (after, Ok(ReservedOnly))
        else if !signs then (after, Err(SigningFailed))
        else (Record(after, p.key, s.psbt), Ok(SignedNow(s.psbt)))
  }

  /** What one call leaves: nothing when refused; a reservation; and with a signature the mark of it. */
  lemma SigningIsDecided(env: Env, rows: Rows, s: Submission, signs: bool)
    ensures var (rows', r) := SignOnce(env, rows, s, signs);
      var accepted := VerifyPsbtSigningPolicy(env, s);
      && (accepted.Err? || !IsFreeFor(rows, accepted.value) ==> r.Err? && rows' == rows)
      && (accepted.Ok? && IsFreeFor(rows, accepted.value) ==>
           var p := accepted.value;
           var reserved := if p.key in rows then rows[p.key]
             else Decision(p.authorizationDigest, p.spendPlanDigest, p.unsignedPsbtDigest, RESERVED, None);
           if reserved.status != RESERVED then rows' == rows && r == Ok(AlreadySignedBefore(reserved.signedPsbt))
           else if s.dryRun then rows' == rows[p.key := reserved] && r == Ok(ReservedOnly)
           else if !signs then rows' == rows[p.key := reserved] && r == Err(SigningFailed)
           else
             && rows' == rows[p.key := reserved.(status := SIGNED, signedPsbt := Some(s.psbt))]
             && r == Ok(SignedNow(s.psbt)))
  {
    hide VerifyPsbtSigningPolicy;
  }

  method SignReleasePsbt(store: BtcSignerStore, env: Env, s: Submission, signs: bool) returns (result: Result<Outcome>)
    modifies store
    ensures (store.rows, result) == SignOnce(env, old(store.rows), s, signs)
  {
    hide I.VerifyEnvelope, P.ExtractPlan, P.VerifyReleaseSpendPlan;
    var policy := VerifyPsbtSigningPolicy(env, s);
    if policy.Err? {
      return Err(policy.error);
    }
    var reservation := store.ReserveSigning(policy.value);
    if reservation.Err? {
      return Err(reservation.error);
    }
    if reservation.value == AlreadySigned {
      return Ok(AlreadySignedBefore(store.rows[policy.value.key].signedPsbt));
    }
    if s.dryRun {
      return Ok(ReservedOnly);
    }
    if !signs {
      return Err(SigningFailed);
    }
    store.MarkSigned(policy.value.key, s.psbt);
    return Ok(SignedNow(s.psbt));
  }

  // ----- Many processes -----

  datatype Stage = Checked | ToInsert | MaySign | DidSign

  /** A submission and what the policy check made of it. */
  datatype Case = Case(submission: Submission, policy: Policy)

  datatype Session = Session(case_: Case, stage: Stage)

  /** The rows, the calls in progress, and everything ever signed. */
  datatype World = World(rows: Rows, sessions: map<nat, Session>, signed: seq<Case>)

  datatype Action =
    | Begin(id: nat, submission: Submission)
    | Look(id: nat)
    | Insert(id: nat)
    | Sign(id: nat)
    | Keep(id: nat)
    | Stop(id: nat)

  function End(w: World, id: nat): World { w.(sessions := w.sessions - {id}) }

  function Advance(w: World, id: nat, stage: Stage): World
    requires id in w.sessions
  {
    w.(sessions := w.sessions[id := w.sessions[id].(stage := stage)])
  }

  /** An action that is not possible where a call stands changes nothing. */
  function Do(env: Env, w: World, a: Action): World {
    match a
    case Begin(id, s) =>
      if id in w.sessions then w
      else
        (match VerifyPsbtSigningPolicy(env, s)
         case Err(_) => w
         case Ok(p) => w.(sessions := w.sessions[id := Session(Case(s, p), Checked)]))
    case Look(id) =>
      if id !in w.sessions || w.sessions[id].stage != Checked then w
      else
        (match LookUp(w.rows, w.sessions[id].case_.policy)
         case Ok(Missing) => Advance(w, id, ToInsert)
         case Ok(Reserved) => Advance(w, id, MaySign)
         case _ => End(w, id))
    case Insert(id) =>
      if id !in w.sessions || w.sessions[id].stage != ToInsert then w
      else
        var p := w.sessions[id].case_.policy;
        if p.key in w.rows then End(w, id)
        else Advance(w, id, MaySign).(rows := w.rows[p.key := NewDecision(p)])
    case Sign(id) =>
      if id !in w.sessions || w.sessions[id].stage != MaySign || w.sessions[id].case_.submission.dryRun then w
      else Advance(w, id, DidSign).(signed := w.signed + [w.sessions[id].case_])
    case Keep(id) =>
      if id !in w.sessions || w.sessions[id].stage != DidSign then w
      else End(w, id).(rows := Record(w.rows, w.sessions[id].case_.policy.key, w.sessions[id].case_.submission.psbt))
    case Stop(id) => End(w, id)
  }

  function Run(env: Env, w: World, actions: seq<Action>): World
    decreases |actions|
  {
    if actions == [] then w else Run(env, Do(env, w, actions[0]), actions[1..])
  }

  const START: World := World(map[], map[], [])

  // ----- All signatures under one key agree -----

  /** The policy check accepted the submission so. */
  ghost predicate IsCase(env: Env, c: Case) { VerifyPsbtSigningPolicy(env, c.submission) == Ok(c.policy) }

  /** The row of a case holds its digests. */
  predicate Holds(rows: Rows, p: Policy) { p.key in rows && SameDigests(rows[p.key], p) }

  /** A row that says signed has what was signed for it. */
  ghost predicate IsStored(w: World, k: Key)
    requires k in w.rows
  {
    && w.rows[k].status in {RESERVED, SIGNED}
    && (w.rows[k].status == SIGNED ==>
          exists c :: c in w.signed && c.policy.key == k && w.rows[k].signedPsbt == Some(c.submission.psbt))
  }

  /** Whoever may sign or has signed holds the row of its key. */
  ghost predicate AllHold(env: Env, w: World) {
    && (forall id | id in w.sessions :: IsCase(env, w.sessions[id].case_))
    && (forall id | id in w.sessions && w.sessions[id].stage in {MaySign, DidSign} ::
          Holds(w.rows, w.sessions[id].case_.policy))
    && (forall c | c in w.signed :: IsCase(env, c) && Holds(w.rows, c.policy))
  }

  ghost predicate AllStored(w: World) {
    && (forall id | id in w.sessions && w.sessions[id].stage == DidSign :: w.sessions[id].case_ in w.signed)
    && (forall k | k in w.rows :: IsStored(w, k))
  }

  ghost predicate Reserving(env: Env, w: World) { AllHold(env, w) && AllStored(w) }

  /** Rows are added and marked, never removed or given other digests. */
  lemma HoldsStays(env: Env, w: World, a: Action, p: Policy)
    requires Holds(w.rows, p)
    ensures Holds(Do(env, w, a).rows, p)
  {
    hide VerifyPsbtSigningPolicy;
  }

  lemma StepKeepsHolding(env: Env, w: World, a: Action)
    requires AllHold(env, w)
    ensures AllHold(env, Do(env, w, a))
  {
    hide VerifyPsbtSigningPolicy;
    var w' := Do(env, w, a);
    forall p: Policy | Holds(w.rows, p) ensures Holds(w'.rows, p) {
      HoldsStays(env, w, a, p);
    }
  }

  lemma StepKeepsStored(env: Env, w: World, a: Action)
    requires AllStored(w)
    ensures AllStored(Do(env, w, a))
  {
    hide VerifyPsbtSigningPolicy, SameDigests;
    var w' := Do(env, w, a);
    forall k | k in w'.rows ensures IsStored(w', k) {
      if k in w.rows {
        assert IsStored(w, k);
      }
    }
  }

  lemma StepKeepsReserving(env: Env, w: World, a: Action)
    requires Reserving(env, w)
    ensures Reserving(env, Do(env, w, a))
  {
    hide Do, AllHold, AllStored;
    StepKeepsHolding(env, w, a);
    StepKeepsStored(env, w, a);
  }

  lemma {:induction false} RunKeepsReserving(env: Env, w: World, actions: seq<Action>)
    requires Reserving(env, w)
    ensures Reserving(env, Run(env, w, actions))
    decreases |actions|
  {
    hide Do, Reserving;
    if actions != [] {
      StepKeepsReserving(env, w, actions[0]);
      RunKeepsReserving(env, Do(env, w, actions[0]), actions[1..]);
    }
  }

  lemma CaseNames(env: Env, c: Case)
    requires IsCase(env, c)
    ensures c.policy.key == c.submission.redeemIdText
    ensures Spells(env.hex, c.submission.authorization.redeemId, c.submission.redeemIdText)
    ensures c.policy.spendPlanDigest == D.SpendPlanDigest(env.hex, c.policy.plan)
    ensures I.VerifyEnvelope(env.recover, c.submission.authorization, c.submission.envelope,
                             c.submission.signerAddresses,
                             c.submission.threshold, Some(c.submission.now)).Ok?
    ensures c.policy.authorizationDigest == c.submission.envelope.messageDigest
  {
    hide I.VerifyEnvelope, P.ExtractPlan, P.VerifyReleaseSpendPlan, D.SpendPlanDigest;
  }

  lemma EnvelopeNames(recover: V.Recover, s: Submission)
    requires I.VerifyEnvelope(recover, s.authorization, s.envelope, s.signerAddresses, s.threshold, Some(s.now)).Ok?
    ensures s.threshold > 0
    ensures s.envelope.messageDigest
      == I.ExpectedDigest(s.authorization, I.SortAddresses(s.signerAddresses), s.threshold)
  {
    hide I.CheckEnvelopeSignatures, I.ExpectedDigest, V.SignerSetDigest;
  }

  /** Equal digests are equal plans for equal authorizations. */
  lemma DigestsAgree(env: Env, c: Case, d: Case)
    requires D.IsSpelling(env.hex) && IsCase(env, c) && IsCase(env, d)
    requires c.policy.authorizationDigest == d.policy.authorizationDigest
      && c.policy.spendPlanDigest == d.policy.spendPlanDigest
    ensures c.policy.plan == d.policy.plan && c.submission.authorization == d.submission.authorization
  {
    hide IsCase, D.SpendPlanDigest, I.VerifyEnvelope, AuthorizationDigest, ReleaseStructHash;
    CaseNames(env, c);
    CaseNames(env, d);
    D.PlanDigestBinds(env.hex, c.policy.plan, d.policy.plan);
    var (s, t) := (c.submission, d.submission);
    EnvelopeNames(env.recover, s);
    EnvelopeNames(env.recover, t);
    var x := V.SignerSetDigest(I.SortAddresses(s.signerAddresses), s.threshold);
    var y := V.SignerSetDigest(I.SortAddresses(t.signerAddresses), t.threshold);
    AuthorizationDigestBinds(s.authorization.bridgeDomain, ReleaseStructHash(s.authorization), x,
                             t.authorization.bridgeDomain, ReleaseStructHash(t.authorization), y);
    ReleaseStructHashBinds(s.authorization, t.authorization);
  }

  /** Over every run, two signatures under one text are on one plan for one authorization. */
  lemma SignaturesAgree(env: Env, actions: seq<Action>, c: Case, d: Case)
    requires D.IsSpelling(env.hex)
    requires c in Run(env, START, actions).signed && d in Run(env, START, actions).signed
    requires c.submission.redeemIdText == d.submission.redeemIdText
    ensures c.policy.plan == d.policy.plan && c.submission.authorization == d.submission.authorization
  {
    hide IsCase, Run;
    RunKeepsReserving(env, START, actions);
    CaseNames(env, c);
    CaseNames(env, d);
    DigestsAgree(env, c, d);
  }

  /** What an accepted submission finds already signed is a signature on its own plan, for its own authorization. */
  lemma RepeatFindsItsSignature(env: Env, actions: seq<Action>, d: Case) returns (c: Case)
    requires D.IsSpelling(env.hex) && IsCase(env, d)
    requires LookUp(Run(env, START, actions).rows, d.policy) == Ok(AlreadySigned)
    ensures c in Run(env, START, actions).signed && IsCase(env, c)
    ensures Run(env, START, actions).rows[d.policy.key].signedPsbt == Some(c.submission.psbt)
    ensures c.policy.plan == d.policy.plan && c.submission.authorization == d.submission.authorization
  {
    hide IsCase, Run;
    RunKeepsReserving(env, START, actions);
    var w := Run(env, START, actions);
    assert IsStored(w, d.policy.key);
    c :| c in w.signed && c.policy.key == d.policy.key && w.rows[d.policy.key].signedPsbt == Some(c.submission.psbt);
    CaseNames(env, c);
    CaseNames(env, d);
    DigestsAgree(env, c, d);
  }

  // ----- Spellings -----

  lemma RunFirst(env: Env, w: World, a: Action, rest: seq<Action>)
    ensures Run(env, w, [a] + rest) == Run(env, Do(env, w, a), rest)
  {
    hide Do;
    assert ([a] + rest)[1..] == rest;
  }

  lemma RunFive(env: Env, w: World, b: Action, l: Action, i: Action, g: Action, k: Action, rest: seq<Action>)
    ensures Run(env, w, [b, l, i, g, k] + rest)
         == Run(env, Do(env, Do(env, Do(env, Do(env, Do(env, w, b), l), i), g), k), rest)
  {
    hide Do, Run;
    var w1 := Do(env, w, b);
    var w2 := Do(env, w1, l);
    var w3 := Do(env, w2, i);
    RunFirst(env, w, b, [l, i, g, k] + rest);
    RunFirst(env, w1, l, [i, g, k] + rest);
    RunFirst(env, w2, i, [g, k] + rest);
    RunFirst(env, w3, g, [k] + rest);
    RunFirst(env, Do(env, w3, g), k, rest);
    assert [b, l, i, g, k] + rest == [b] + ([l, i, g, k] + rest);
    assert [l, i, g, k] + rest == [l] + ([i, g, k] + rest);
    assert [i, g, k] + rest == [i] + ([g, k] + rest);
    assert [g, k] + rest == [g] + ([k] + rest);
  }

  function OneCall(id: nat, s: Submission): seq<Action> { [Begin(id, s), Look(id), Insert(id), Sign(id), Keep(id)] }

  function AfterSigning(w: World, c: Case): World {
    World(Record(w.rows[c.policy.key := NewDecision(c.policy)], c.policy.key, c.submission.psbt), w.sessions,
          w.signed + [c])
  }

  /** With no row under its key, a submission is reserved, signed and recorded. */
  lemma SignsFresh(env: Env, w: World, id: nat, c: Case, rest: seq<Action>)
    requires id !in w.sessions && IsCase(env, c) && !c.submission.dryRun && c.policy.key !in w.rows
    ensures Run(env, w, OneCall(id, c.submission) + rest) == Run(env, AfterSigning(w, c), rest)
  {
    hide VerifyPsbtSigningPolicy, Run;
    RunFive(env, w, Begin(id, c.submission), Look(id), Insert(id), Sign(id), Keep(id), rest);
    var rows := w.rows[c.policy.key := NewDecision(c.policy)];
    var s1 := w.sessions[id := Session(c, Checked)];
    assert s1[id := Session(c, ToInsert)][id := Session(c, MaySign)][id := Session(c, DidSign)] - {id} == w.sessions;
  }

  /** Under different keys, one call after the other signs. */
  lemma BothSign(env: Env, c: Case, d: Case) returns (actions: seq<Action>)
    requires IsCase(env, c) && IsCase(env, d) && !c.submission.dryRun && !d.submission.dryRun
    requires c.submission.redeemIdText != d.submission.redeemIdText
    ensures Run(env, START, actions).signed == [c, d]
  {
    hide IsCase, Run, OneCall, NewDecision, Record;
    CaseNames(env, c);
    CaseNames(env, d);
    var (first, second) := (OneCall(0, c.submission), OneCall(1, d.submission));
    SignsFresh(env, START, 0, c, second);
    OnlyItsKey(c);
    SignsFresh(env, AfterSigning(START, c), 1, d, []);
    assert second + [] == second;
    RunNothing(env, AfterSigning(AfterSigning(START, c), d));
    actions := first + second;
  }

  lemma OnlyItsKey(c: Case)
    ensures AfterSigning(START, c).rows.Keys == {c.policy.key}
  {
  }

  /**
    Two accepted submissions for one redeem that conflict can both come to be signed in some run
    exactly when they spell the redeem identifier differently.
   */
  lemma ConflictIsSignedIffSpelledDifferently(env: Env, c: Case, d: Case)
    requires D.IsSpelling(env.hex) && IsCase(env, c) && IsCase(env, d) && !c.submission.dryRun && !d.submission.dryRun
    requires c.submission.authorization.redeemId == d.submission.authorization.redeemId
    requires c.policy.plan != d.policy.plan || c.submission.authorization != d.submission.authorization
    ensures (exists actions :: c in Run(env, START, actions).signed && d in Run(env, START, actions).signed)
       <==> c.submission.redeemIdText != d.submission.redeemIdText
  {
    hide IsCase, Run;
    if c.submission.redeemIdText != d.submission.redeemIdText {
      var actions := BothSign(env, c, d);
      assert c in Run(env, START, actions).signed && d in Run(env, START, actions).signed;
    } else {
      forall actions | c in Run(env, START, actions).signed && d in Run(env, START, actions).signed ensures false {
        SignaturesAgree(env, actions, c, d);
      }
    }
  }

  lemma RunNothing(env: Env, w: World)
    ensures Run(env, w, []) == w
  {
  }

  /** An identifier can be spelled in two ways exactly when its hex has a letter. */
  lemma HasTwoSpellingsIffLetter(hex: D.Spelling, id: Bytes32)
    requires Spells(hex, id, hex(id))
    ensures (exists t :: Spells(hex, id, t) && t != hex(id)) <==> exists i | 0 <= i < |hex(id)| :: IsLetter(hex(id)[i])
  {
    if i :| 0 <= i < |hex(id)| && IsLetter(hex(id)[i]) {
      var t := hex(id)[i := hex(id)[i] - 32];
      assert Spells(hex, id, t) && t[i] != hex(id)[i];
    }
  }

  // ----- A conflict that is signed -----

  /** One input, one output of 1000 sats, and the fee that is left. */
  function SmallPsbt(fee: nat): P.Psbt {
    P.Psbt(0, [P.PsbtInput(Word(0), 0, Some(P.Utxo([], 1000 + fee)), None, None)], [P.Output([0], 1000)], 2, 0)
  }

  function SmallPlan(fee: nat): P.Plan {
    P.Plan(0, [P.Input(Word(0), 0, 1000 + fee, KeccakBytes([]))], [P.Output([0], 1000)], fee, 2, 0, 1)
  }

  /** A release of this redeem with this plan, at most one sat of fee. */
  function SmallRelease(id: Bytes32, fee: nat): ReleaseAuthorization
    requires fee <= 1
  {
    ReleaseAuthorization(
      Word(0), Word(1), id, 0, 1, Word(2), 0, 9, KeccakBytes([0]), 1000, 1, Word(3),
      P.InputsCommitment(SmallPlan(fee).inputs), P.OutputsCommitment(SmallPlan(fee).outputs),
      P.PsbtPolicyHash(SmallPlan(fee), Word(3)), 0, 0)
  }

  /** Signed by the one signer there is. */
  function SmallSubmission(id: Bytes32, fee: nat, text: Key): Submission
    requires fee <= 1
  {
    var (a, signerSet) := (SmallRelease(id, fee), V.SignerSetDigest([1], 1));
    Submission(a, text, I.Envelope(a.redeemRequestHash, signerSet, I.ExpectedDigest(a, [1], 1),
                                       Attestation(false, Some(signerSet), Some([[]]))),
               SmallPsbt(fee), [1], 1, None, None, 0, false)
  }

  lemma SmallPsbtExtracts(fee: nat)
    ensures P.ExtractPlan(SmallPsbt(fee)) == P.Ok(SmallPlan(fee))
  {
    var (inputs, outputs) := (SmallPsbt(fee).inputs, SmallPsbt(fee).outputs);
    assert inputs[..0] == [] && outputs[..0] == [] && inputs[1..] == [];
    assert P.PlanInputs(inputs[..0]) == P.Ok([]);
    var front: seq<P.Input> := [];
    assert P.PlanInputs(inputs) == P.Ok(front + [P.PlanInput(inputs[0], P.Utxo([], 1000 + fee))]);
    assert front + [P.PlanInput(inputs[0], P.Utxo([], 1000 + fee))] == SmallPlan(fee).inputs;
    assert SmallPlan(fee).inputs[..0] == [];
    assert P.SumInputs(SmallPlan(fee).inputs) == 1000 + fee && P.SumOutputs(outputs) == 1000;
    assert P.ExplicitTypes(inputs) == [];
  }

  lemma SmallPlanIsAccepted(id: Bytes32, fee: nat)
    requires fee <= 1
    ensures P.VerifyReleaseSpendPlan(SmallRelease(id, fee), SmallPlan(fee)) == P.Ok(P.Output([0], 1000))
  {
    hide P.InputsCommitment, P.OutputsCommitment, P.PsbtPolicyHash;
  }

  lemma SmallEnvelopeIsAccepted(recover: V.Recover, id: Bytes32, fee: nat)
    requires fee <= 1 && forall d, s :: recover(d, s) == Some(1)
    ensures var s := SmallSubmission(id, fee, []);
      I.VerifyEnvelope(recover, s.authorization, s.envelope, [1], 1, Some(0)) == I.Ok(1)
  {
    hide I.ExpectedDigest, V.SignerSetDigest, P.InputsCommitment, P.OutputsCommitment, P.PsbtPolicyHash;
    assert [1][..0] == [];
    assert I.SortAddresses([]) == [];
    assert I.SortAddresses([1]) == I.InsertAddress(1, []) == [1];
    assert V.ToSet([1]) == {1} && |{1}| == 1;
    assert I.NormalizeSignerAddresses([1]) == I.Ok([1]);
    var digest := V.EthSignedMessage(SmallSubmission(id, fee, []).envelope.messageDigest);
    assert recover(digest, [[]][0]) == Some(1);
    assert I.CheckEnvelopeSignatures(recover, digest, [[]], {1}, 1, {} + {1}) == I.Ok(1);
    assert I.CheckEnvelopeSignatures(recover, digest, [[]], {1}, 0, {}) == I.Ok(1);
  }

  /** For every redeem that can be spelled in two ways: two releases with different plans, accepted and signed. */
  lemma ConflictsAreSigned(hex: D.Spelling, id: Bytes32, t: Key, u: Key)
    returns (env: Env, c: Case, d: Case, actions: seq<Action>)
    requires D.IsSpelling(hex) && Spells(hex, id, t) && Spells(hex, id, u) && t != u
    ensures env.hex == hex && IsCase(env, c) && IsCase(env, d) && !c.submission.dryRun && !d.submission.dryRun
    ensures c.submission.authorization.redeemId == d.submission.authorization.redeemId == id
    ensures c.submission.redeemIdText == t && d.submission.redeemIdText == u
    ensures c.policy.plan != d.policy.plan && c.submission.authorization != d.submission.authorization
    ensures c in Run(env, START, actions).signed && d in Run(env, START, actions).signed
  {
    hide Run, I.VerifyEnvelope, P.VerifyReleaseSpendPlan, P.ExtractPlan, D.SpendPlanDigest;
    env := Env((digest, signature) => Some(1), hex);
    c := SmallCase(env, id, 0, t);
    d := SmallCase(env, id, 1, u);
    hide IsCase;
    ConflictIsSignedIffSpelledDifferently(env, c, d);
    actions :| c in Run(env, START, actions).signed && d in Run(env, START, actions).signed;
  }

  lemma SmallCase(env: Env, id: Bytes32, fee: nat, text: Key) returns (c: Case)
    requires fee <= 1 && Spells(env.hex, id, text) && forall d, s :: env.recover(d, s) == Some(1)
    ensures IsCase(env, c) && c.submission == SmallSubmission(id, fee, text) && c.policy.plan == SmallPlan(fee)
  {
    hide I.VerifyEnvelope, P.VerifyReleaseSpendPlan, P.ExtractPlan, D.SpendPlanDigest, P.InputsCommitment,
      P.OutputsCommitment, P.PsbtPolicyHash, Spells;
    var s := SmallSubmission(id, fee, text);
    SmallEnvelopeIsAccepted(env.recover, id, fee);
    SmallPsbtExtracts(fee);
    SmallPlanIsAccepted(id, fee);
    c := Case(s, VerifyPsbtSigningPolicy(env, s).value);
  }

  /** Such redeems there are: 0x00...0a is also 0x00...0A. */
  lemma TenHasTwoSpellings() returns (t: Key)
    ensures D.IsSpelling(D.Spelled) && Spells(D.Spelled, Word(10), D.Spelled(Word(10)))
    ensures Spells(D.Spelled, Word(10), t) && t != D.Spelled(Word(10))
  {
    D.SpelledIsSpelling();
    D.TenIsALetter();
    HasTwoSpellingsIffLetter(D.Spelled, Word(10));
    assert IsLetter(D.Spelled(Word(10))[65]);
    t :| Spells(D.Spelled, Word(10), t) && t != D.Spelled(Word(10));
  }

  // ----- One process after another -----

  /** What a sequential call does to the rows and the signatures is what some run does. */
  lemma SequentialIsARun(env: Env, w: World, s: Submission, signs: bool) returns (actions: seq<Action>)
    requires w.sessions == map[]
    ensures var (rows, result) := SignOnce(env, w.rows, s, signs); var w' := Run(env, w, actions);
      && w'.rows == rows && w'.sessions == map[]
      && (result.Ok? && result.value.SignedNow? ==>
            VerifyPsbtSigningPolicy(env, s).Ok?
            && w'.signed == w.signed + [Case(s, VerifyPsbtSigningPolicy(env, s).value)])
      && (!(result.Ok? && result.value.SignedNow?) ==> w'.signed == w.signed)
  {
    hide VerifyPsbtSigningPolicy, Run;
    RunNothing(env, w);
    var policy := VerifyPsbtSigningPolicy(env, s);
    if policy.Err? || Reserve(w.rows, policy.value).Err? || LookUp(w.rows, policy.value) == Ok(AlreadySigned) {
      actions := [];
    } else {
      var c := Case(s, policy.value);
      var signing := if s.dryRun || !signs then Stop(0) else Sign(0);
      actions := [Begin(0, s), Look(0), Insert(0), signing, Keep(0)];
      assert actions + [] == actions;
      RunFive(env, w, Begin(0, s), Look(0), Insert(0), signing, Keep(0), []);
      Reserves(env, w, c);
      var w3 := w.(sessions := map[0 := Session(c, MaySign)], rows := Reserve(w.rows, c.policy).value);
      Finishes(env, w3, c, signing);
      RunNothing(env, Do(env, Do(env, w3, signing), Keep(0)));
    }
  }

  lemma Reserves(env: Env, w: World, c: Case)
    requires w.sessions == map[] && IsCase(env, c) && Reserve(w.rows, c.policy).Ok?
      && LookUp(w.rows, c.policy) != Ok(AlreadySigned)
    ensures Do(env, Do(env, Do(env, w, Begin(0, c.submission)), Look(0)), Insert(0))
         == w.(sessions := map[0 := Session(c, MaySign)], rows := Reserve(w.rows, c.policy).value)
  {
    hide VerifyPsbtSigningPolicy;
    var found := if LookUp(w.rows, c.policy) == Ok(Missing) then ToInsert else MaySign;
    assert w.sessions[0 := Session(c, Checked)][0 := Session(c, found)] == map[0 := Session(c, found)];
    assert map[0 := Session(c, ToInsert)][0 := Session(c, MaySign)] == map[0 := Session(c, MaySign)];
  }

  lemma Finishes(env: Env, w: World, c: Case, signing: Action)
    requires w.sessions == map[0 := Session(c, MaySign)]
    requires signing == Stop(0) || (signing == Sign(0) && !c.submission.dryRun)
    ensures Do(env, Do(env, w, signing), Keep(0))
         == World(if signing.Sign? then Record(w.rows, c.policy.key, c.submission.psbt) else w.rows, map[],
                  if signing.Sign? then w.signed + [c] else w.signed)
  {
    hide VerifyPsbtSigningPolicy;
    assert map[0 := Session(c, MaySign)] - {0} == map[] && map[0 := Session(c, DidSign)] - {0} == map[];
    assert map[0 := Session(c, MaySign)][0 := Session(c, DidSign)] == map[0 := Session(c, DidSign)];
  }
}
