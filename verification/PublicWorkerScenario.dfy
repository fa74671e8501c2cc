/**
  Exact runs from deployment on, with a custody adapter: one that pays, and two that never do.

  One deposit is minted and all of it burned (PublicWorkerStory); the worker scans, prepares, requests,
  settles and broadcasts the redeem with the adapter's plan. Any plan will do that has an output of the
  burned amount to the burned script, fits its encodings and declares a fee within the budget
  (AnyMatchingPlanIsSent); by PayoutMatchesBurn of PublicWorkerRuns no other plan is ever sent, so that
  is all that is asked of a plan.
 */
module PublicWorkerScenario {
  import opened BridgeTypes
  import opened PublicStore
  import opened PublicWorker
  import opened PublicWorkerRuns
  import opened PublicWorkerExact
  import opened PublicWorkerStory
  import P = SpendPlan
  import B = BurnGateway
  import F = FunctionsVerifier
  import Br = Bridge

  function Start(): World { World(AtFirst(), map[], None, Idle, map[], map[], {}, []) }

  /** Reached from the start by an exact run. */
  ghost predicate Reaches(moves: seq<Move>, w: World) { LeadsExactly(TheChain(), Start(), moves, w) }

  lemma StartIsAStart()
    ensures IsStart(TheChain(), Start())
  {
    FirstIsReady();
    hide Br.IsDeployed, AtFirst;
  }

  lemma Goes(moves: seq<Move>, w: World, cfg: Config, a: Action) returns (more: seq<Move>)
    requires Reaches(moves, w) && IsExact(TheChain(), cfg, w, a)
    ensures Reaches(more, Do(TheChain(), cfg, w, a))
  {
    hide LeadsExactly, IsExact, Do;
    GoesOn(TheChain(), Start(), moves, w, Move(cfg, a));
    more := moves + [Move(cfg, a)];
  }

  /** Transactions that complete nothing only move the chain. */
  lemma Transacts(moves: seq<Move>, w: World, cfg: Config, tx: Br.Tx, b: Br.Bridge) returns (more: seq<Move>)
    requires Reaches(moves, w) && Br.IsExternal(TheChain(), w.bridge, tx) && !tx.call.CompleteRedeem?
    requires Br.Step(TheChain(), w.bridge, tx) == b
    ensures Reaches(more, w.(bridge := b))
  {
    hide Br.Step, Br.IsExternal, Reaches;
    more := Goes(moves, w, cfg, Transact(tx));
    assert w.consumedEvents + {} == w.consumedEvents;
  }

  lemma TransactionsAreExternal(s: Story)
    requires Matches(s)
    ensures forall tx, b: Br.Bridge | tx in TransactionsOf(s) && b.time == 0 :: Br.IsExternal(TheChain(), b, tx)
    ensures forall tx | tx in TransactionsOf(s) :: !tx.call.CompleteRedeem?
  {
    hide MintStructHash;
  }

  lemma BurnsFirst(s: Story) returns (moves: seq<Move>)
    requires Matches(s)
    ensures Reaches(moves, Start().(bridge := Burned(s)))
  {
    IntentIsStored(s);
    MintIsRequested(s);
    DepositIsMinted(s);
    BurnIsApproved(s);
    TokensAreBurned(s);
    VerifierStays(s);
    ServiceStarts(s);
    TransactionsAreExternal(s);
    assert Reaches([], Start());
    hide Br.Step, Reaches, Br.IsExternal, Matches;
    hide TransactionsOf, Intended, MintAsked, MintAnswered, Minted, Approved, Burned, AtFirst;
    var (cfg, txs, w) := (TheConfig(s), TransactionsOf(s), Start());
    SixTransactions(s);
    moves := Transacts([], w, cfg, txs[0], Intended(s));
    moves := Transacts(moves, w.(bridge := Intended(s)), cfg, txs[1], MintAsked(s));
    moves := Transacts(moves, w.(bridge := MintAsked(s)), cfg, txs[2], MintAnswered(s));
    moves := Transacts(moves, w.(bridge := MintAnswered(s)), cfg, txs[3], Minted(s));
    moves := Transacts(moves, w.(bridge := Minted(s)), cfg, txs[4], Approved(s));
    moves := Transacts(moves, w.(bridge := Approved(s)), cfg, txs[5], Burned(s));
  }

  lemma SixTransactions(s: Story)
    ensures |TransactionsOf(s)| == 6
  {
  }

  // ----- The rows -----

  function TheRaw(s: Story): RawTx { RawTx(s.bytes, Some(P.TransactionOf(s.plan))) }

  function RowPrepared(s: Story): Row
    requires Matches(s)
  {
    Marked(Observed(TheEvent(s)), Prepared(None, s.plan, TheRelease(s), Some(TheRaw(s))))
  }

  function RowRequested(s: Story): Row
    requires Matches(s)
  {
    Marked(RowPrepared(s), Requested(RELEASE_ID))
  }

  const COMPLETION: TxHash := 77

  function RowSubmitted(s: Story): Row
    requires Matches(s)
  {
    Marked(RowRequested(s), Submitted(COMPLETION))
  }

  function RowCompleted(s: Story): Row
    requires Matches(s)
  {
    Marked(RowSubmitted(s), Completed(COMPLETION, 0))
  }

  /** The process is idle, the store has this one row, and nothing was completed yet. */
  function Resting(s: Story, b: Br.Bridge, row: Row): World {
    World(b, map[TheHash(s) := row], Some(0), Idle, map[], map[], {}, [])
  }

  lemma ListsTheOne(s: Story, moves: seq<Move>, w: World, phase: Phase, row: Row) returns (more: seq<Move>)
    requires Matches(s) && w.job.Idle? && w.rows == map[TheHash(s) := row] && Eligible(phase, 0, row)
    requires Reaches(moves, w) && HasStarted(TheChain(), TheConfig(s), w.bridge)
    ensures Reaches(more, w.(job := Working(phase, [row], AtStart)))
  {
    hide P.Fits, TheHash, B.IsAllowedDestinationScript, Reaches, HasStarted;
    var (keys, h) := ([TheHash(s)], TheHash(s));
    assert seq(|keys|, i requires 0 <= i < |keys| => w.rows[keys[i]]) == [row];
    more := Goes(moves, w, TheConfig(s), List(phase, keys));
  }

  // ----- Up to the request -----

  lemma EventIsGenuine(s: Story)
    requires Matches(s)
    ensures IsGenuine(Burned(s).burning, TheEvent(s))
  {
    hide P.Fits, B.IsAllowedDestinationScript, RedeemRequestHash, AtFirst;
  }

  /** Steps that ask nothing. */
  lemma GoesOnQuietly(cfg: Config, w: World, a: Action)
    requires HasStarted(TheChain(), cfg, w.bridge)
      && (a.Continue? || a.ContinueScan? || a.DoPrepare? || a == DoBroadcast(NoReply))
    ensures IsExact(TheChain(), cfg, w, a)
  {
    hide HasStarted;
  }

  lemma BeginsScan(s: Story, w: World)
    requires Matches(s) && w == Start().(bridge := Burned(s)) && HasStarted(TheChain(), TheConfig(s), w.bridge)
    ensures IsExact(TheChain(), TheConfig(s), w, BeginScan([TheEvent(s)]))
    ensures Do(TheChain(), TheConfig(s), w, BeginScan([TheEvent(s)])) == w.(job := Scanning([TheEvent(s)], 0))
  {
    EventIsGenuine(s);
    hide P.Fits, B.IsAllowedDestinationScript, TheEvent, AtFirst, Burned, IsGenuine, HasStarted;
  }

  lemma StoresEvent(s: Story, w: World)
    requires w.rows == map[] && w.job == Scanning([TheEvent(s)], 0)
    ensures Do(TheChain(), TheConfig(s), w, ContinueScan)
         == w.(rows := map[TheHash(s) := Observed(TheEvent(s))], job := Scanning([], 0))
  {
    hide TheHash;
    var (h, e) := (TheHash(s), TheEvent(s));
    assert w.rows[h := Observed(e)] == map[h := Observed(e)] && [e][1..] == [];
  }

  lemma ScansIt(s: Story, moves: seq<Move>) returns (more: seq<Move>)
    requires Matches(s) && Reaches(moves, Start().(bridge := Burned(s)))
    ensures Reaches(more, Resting(s, Burned(s), Observed(TheEvent(s))))
  {
    ServiceStarts(s);
    hide Matches, Reaches, TheHash, AtFirst, Burned, HasStarted, IsExact, Upsert;
    var (cfg, w, e) := (TheConfig(s), Start().(bridge := Burned(s)), TheEvent(s));
    BeginsScan(s, w);
    more := Goes(moves, w, cfg, BeginScan([e]));
    var w1 := w.(job := Scanning([e], 0));
    GoesOnQuietly(cfg, w1, ContinueScan);
    more := Goes(more, w1, cfg, ContinueScan);
    var w2 := w.(rows := map[TheHash(s) := Observed(e)], job := Scanning([], 0));
    StoresEvent(s, w1);
    GoesOnQuietly(cfg, w2, ContinueScan);
    more := Goes(more, w2, cfg, ContinueScan);
  }

  lemma PreparationIs(s: Story)
    requires Matches(s)
    ensures PrepareRow(TheConfig(s), Observed(TheEvent(s)), 0, Reply(Some(Word(6))),
                       Reply(Preparation(None, s.plan, Some(TheRaw(s)))))
         == Note(Prepared(None, s.plan, TheRelease(s), Some(TheRaw(s))))
  {
    ReleaseIsBuilt(s);
    hide P.Fits, P.TransactionOf, BuildReleaseAuthorization, TheHash, TheRelease;
  }

  lemma StoresPreparation(s: Story, w: World, a: Action)
    requires var row := Observed(TheEvent(s));
      Matches(s) && w == Resting(s, Burned(s), row).(job := Working(PREPARING, [row], AtStart))
    requires a == DoPrepare(0, Reply(Some(Word(6))), Reply(Preparation(None, s.plan, Some(TheRaw(s)))))
    ensures Do(TheChain(), TheConfig(s), w, a) == Resting(s, Burned(s), RowPrepared(s))
  {
    PreparationIs(s);
    hide PrepareRow, Burned, TheHash, TheRelease;
    assert w.rows[TheHash(s) := RowPrepared(s)] == map[TheHash(s) := RowPrepared(s)];
  }

  lemma PreparesIt(s: Story, moves: seq<Move>) returns (more: seq<Move>)
    requires Matches(s) && Reaches(moves, Resting(s, Burned(s), Observed(TheEvent(s))))
    ensures Reaches(more, Resting(s, Burned(s), RowPrepared(s)))
  {
    ServiceStarts(s);
    hide Matches, Reaches, Burned, TheHash, TheRelease, HasStarted, IsExact, Do;
    var (cfg, row) := (TheConfig(s), Observed(TheEvent(s)));
    var w := Resting(s, Burned(s), row);
    more := ListsTheOne(s, moves, w, PREPARING, row);
    var a := DoPrepare(0, Reply(Some(Word(6))), Reply(Preparation(None, s.plan, Some(TheRaw(s)))));
    StoresPreparation(s, w.(job := Working(PREPARING, [row], AtStart)), a);
    GoesOnQuietly(cfg, w.(job := Working(PREPARING, [row], AtStart)), a);
    more := Goes(more, w.(job := Working(PREPARING, [row], AtStart)), cfg, a);
  }

  lemma RequestIsRecorded(s: Story)
    requires Matches(s)
    ensures IsRequested(ReleaseAsked(s).verifier.requests, TheConfig(s), TheRelease(s), RELEASE_ID)
  {
    hide P.Fits, B.IsAllowedDestinationScript, Burned, ReleaseStructHash;
  }

  lemma RequestsExactly(s: Story, w: World)
    requires Matches(s) && w == Resting(s, ReleaseAsked(s),
                                        RowPrepared(s)).(job := Working(REQUESTING, [RowPrepared(s)], AtStart))
    requires HasStarted(TheChain(), TheConfig(s), w.bridge)
    ensures IsExact(TheChain(), TheConfig(s), w, DoRequest(0, Reply(RELEASE_ID)))
    ensures Do(TheChain(), TheConfig(s), w, DoRequest(0, Reply(RELEASE_ID)))
      == Resting(s, ReleaseAsked(s), RowRequested(s))
  {
    RequestIsRecorded(s);
    ReleaseNames(s);
    hide P.Fits, B.IsAllowedDestinationScript, TheHash, HasStarted, ReleaseAsked, TheRelease, IsRequested;
    assert w.rows[TheHash(s) := RowRequested(s)] == map[TheHash(s) := RowRequested(s)];
  }

  lemma RequestIsExternal(s: Story)
    requires Matches(s)
    ensures forall b: Br.Bridge | b.time == 0 ::
      && Br.IsExternal(TheChain(), b, RequestTx(F.RequestReleaseAuthorization(TheRelease(s), RELEASE_ID)))
      && Br.IsExternal(TheChain(), b, AnswerTx(RELEASE_ID, F.KIND_RELEASE, ReleaseStructHash(TheRelease(s))))
  {
    hide P.Fits, B.IsAllowedDestinationScript, ReleaseStructHash, TheRelease;
  }

  lemma RequestsIt(s: Story, moves: seq<Move>) returns (more: seq<Move>)
    requires Matches(s) && Reaches(moves, Resting(s, Burned(s), RowPrepared(s)))
    ensures Reaches(more, Resting(s, ReleaseAnswered(s), RowRequested(s)))
  {
    ServiceStarts(s);
    ReleaseIsRequested(s);
    RequestIsExternal(s);
    hide Matches, Reaches, Burned, TheHash, HasStarted, ReleaseAsked, ReleaseAnswered, TheRelease, Br.Step,
      Br.IsExternal,
      IsExact, Do, ReleaseStructHash;
    var (cfg, row, w) := (TheConfig(s), RowPrepared(s), Resting(s, Burned(s), RowPrepared(s)));
    more := ListsTheOne(s, moves, w, REQUESTING, row);
    var w1 := w.(job := Working(REQUESTING, [row], AtStart));
    more := Transacts(more, w1, cfg, RequestTx(F.RequestReleaseAuthorization(TheRelease(s), RELEASE_ID)),
                      ReleaseAsked(s));
    var w2 := w1.(bridge := ReleaseAsked(s));
    RequestsExactly(s, w2);
    more := Goes(more, w2, cfg, DoRequest(0, Reply(RELEASE_ID)));
    var w3 := Resting(s, ReleaseAsked(s), RowRequested(s));
    more := Transacts(more, w3, cfg, AnswerTx(RELEASE_ID, F.KIND_RELEASE, ReleaseStructHash(TheRelease(s))),
                      ReleaseAnswered(s));
  }

  /** All the way to a release that is requested and approved. */
  lemma ComesToRequested(s: Story) returns (moves: seq<Move>)
    requires Matches(s)
    ensures Reaches(moves, Resting(s, ReleaseAnswered(s), RowRequested(s)))
  {
    hide Reaches, Matches, Burned, ReleaseAnswered, TheHash, RowPrepared, RowRequested;
    moves := BurnsFirst(s);
    moves := ScansIt(s, moves);
    moves := PreparesIt(s, moves);
    moves := RequestsIt(s, moves);
  }

  // ----- The completion -----

  function Entry(s: Story): (ReleaseAuthorization, Attestation)
    requires Matches(s)
  {
    (TheRelease(s), ChainlinkAttestation(RELEASE_ID))
  }

  /** The completion was sent; the process waits for its receipt. */
  function Waiting(s: Story): World
    requires Matches(s)
  {
    World(ReleaseAnswered(s), map[TheHash(s) := RowSubmitted(s)], Some(0),
          Working(SETTLING, [RowRequested(s)], Awaits(COMPLETION)), map[COMPLETION := Entry(s)], map[], {}, [])
  }

  function Settled(s: Story, job: Job, sends: seq<RawSend>): World
    requires Matches(s)
  {
    World(Consumed(s), map[TheHash(s) := RowCompleted(s)], Some(0), job, map[COMPLETION := Entry(s)],
          map[COMPLETION := true], {(TheHash(s), TheRelease(s).redeemId)}, sends)
  }

  lemma AnswersAre(s: Story)
    requires Matches(s)
    ensures PendingOf(ReleaseAnswered(s).verifier.requests, RELEASE_ID) == Pending(true, true, true)
    ensures TheRelease(s).redeemId !in ReleaseAnswered(s).burning.redeemIdConsumed
    ensures WouldComplete(TheChain(), TheConfig(s), ReleaseAnswered(s), TheRelease(s), RELEASE_ID)
  {
    CompletionIsMined(s, RELAYER);
    ServiceStarts(s);
    hide P.Fits, B.IsAllowedDestinationScript, Br.Try, MintStructHash, ReleaseStructHash, TheRelease;
  }

  /** The row in hand, and the completion as it is about to be recorded. */
  function Settling(s: Story, at: Position, completions: Completions): World
    requires Matches(s)
  {
    Resting(s, ReleaseAnswered(s), RowRequested(s)).(job := Working(SETTLING, [RowRequested(s)], at),
                                                     completions := completions)
  }

  lemma SettlesExactlyOnce(s: Story, a: Action)
    requires Matches(s) && HasStarted(TheChain(), TheConfig(s), ReleaseAnswered(s))
    requires a == DoSettle(0, NoReply, Reply(Pending(true, true, true)), Reply(false), NoReply, Reply(COMPLETION))
    ensures IsExact(TheChain(), TheConfig(s), Settling(s, AtStart, map[]), a)
  {
    AnswersAre(s);
    hide Matches, TheHash, TheRelease, HasStarted, ReleaseAnswered, PendingOf, WouldComplete;
  }

  lemma SettlesBySending(s: Story, a: Action)
    requires Matches(s)
    requires a == DoSettle(0, NoReply, Reply(Pending(true, true, true)), Reply(false), NoReply, Reply(COMPLETION))
    ensures Do(TheChain(), TheConfig(s), Settling(s, AtStart, map[]), a)
      == Settling(s, HasSent(COMPLETION), map[COMPLETION := Entry(s)])
  {
    ReleaseNames(s);
    hide Matches, TheHash, TheRelease, ReleaseAnswered;
    var none: Completions := map[];
    assert none[COMPLETION := Entry(s)] == map[COMPLETION := Entry(s)];
  }

  lemma RecordsSubmission(s: Story)
    requires Matches(s)
    ensures Do(TheChain(), TheConfig(s), Settling(s, HasSent(COMPLETION), map[COMPLETION := Entry(s)]), Continue(true))
      == Waiting(s)
  {
    hide Matches, TheHash, TheRelease, ReleaseAnswered;
    var w := Settling(s, HasSent(COMPLETION), map[COMPLETION := Entry(s)]);
    assert w.rows[TheHash(s) := RowSubmitted(s)] == map[TheHash(s) := RowSubmitted(s)];
  }

  lemma SendsCompletion(s: Story, moves: seq<Move>) returns (more: seq<Move>)
    requires Matches(s) && Reaches(moves, Resting(s, ReleaseAnswered(s), RowRequested(s)))
    ensures Reaches(more, Waiting(s))
  {
    ServiceStarts(s);
    hide Matches, Reaches, TheHash, TheRelease, HasStarted, ReleaseAnswered, IsExact, Do;
    var (cfg, row, w) := (TheConfig(s), RowRequested(s), Resting(s, ReleaseAnswered(s), RowRequested(s)));
    more := ListsTheOne(s, moves, w, SETTLING, row);
    var a := DoSettle(0, NoReply, Reply(Pending(true, true, true)), Reply(false), NoReply, Reply(COMPLETION));
    SettlesExactlyOnce(s, a);
    SettlesBySending(s, a);
    more := Goes(more, Settling(s, AtStart, map[]), cfg, a);
    var w2 := Settling(s, HasSent(COMPLETION), map[COMPLETION := Entry(s)]);
    GoesOnQuietly(cfg, w2, Continue(true));
    RecordsSubmission(s);
    more := Goes(more, w2, cfg, Continue(true));
  }

  /** The world once the completion is mined, before the process hears of it. */
  function MinedWorld(s: Story): World
    requires Matches(s)
  {
    Waiting(s).(bridge := Consumed(s), receipts := map[COMPLETION := true],
                consumedEvents := {(TheHash(s), TheRelease(s).redeemId)})
  }

  lemma MinesCompletion(s: Story)
    requires Matches(s)
    ensures IsExact(TheChain(), TheConfig(s), Waiting(s), MineCompletion(COMPLETION, RELAYER, 0))
    ensures Do(TheChain(), TheConfig(s), Waiting(s), MineCompletion(COMPLETION, RELAYER, 0)) == MinedWorld(s)
  {
    ServiceStarts(s);
    CompletionIsMined(s, RELAYER);
    ReleaseNames(s);
    hide P.Fits, B.IsAllowedDestinationScript, ReleaseAnswered, Consumed, TheHash, TheRelease, HasStarted, Br.Step,
      Br.Try;
    var w := Waiting(s);
    assert CompletionTx(w, COMPLETION, RELAYER, 0) == CompletionBy(s, RELAYER);
    assert w.receipts[COMPLETION := true] == map[COMPLETION := true];
  }

  lemma HearsOfIt(s: Story)
    requires Matches(s) && HasStarted(TheChain(), TheConfig(s), Consumed(s))
    ensures IsExact(TheChain(), TheConfig(s), MinedWorld(s), DoReceipt(Reply(Receipt(true, 0))))
    ensures Do(TheChain(), TheConfig(s), MinedWorld(s), DoReceipt(Reply(Receipt(true, 0)))) == Settled(s, Idle, [])
  {
    hide P.Fits, B.IsAllowedDestinationScript, Consumed, TheHash, TheRelease, HasStarted;
    assert MinedWorld(s).rows[TheHash(s) := RowCompleted(s)] == map[TheHash(s) := RowCompleted(s)];
  }

  lemma SettlesIt(s: Story, moves: seq<Move>) returns (more: seq<Move>)
    requires Matches(s) && Reaches(moves, Waiting(s))
    ensures Reaches(more, Settled(s, Idle, []))
  {
    ServiceStarts(s);
    hide Matches, Reaches, HasStarted, IsExact, Do, Waiting, MinedWorld, Settled;
    MinesCompletion(s);
    more := Goes(moves, Waiting(s), TheConfig(s), MineCompletion(COMPLETION, RELAYER, 0));
    HearsOfIt(s);
    more := Goes(more, MinedWorld(s), TheConfig(s), DoReceipt(Reply(Receipt(true, 0))));
  }

  lemma SendsTheRaw(s: Story)
    requires Matches(s)
    ensures var (c, cfg, queue) := (TheChain(), TheConfig(s), [RowCompleted(s)]);
      var w2 := Settled(s, Working(BROADCASTING, queue, WillSend(TheRaw(s))), []);
      && Do(c, cfg, Settled(s, Working(BROADCASTING, queue, AtStart), []), DoBroadcast(NoReply)) == w2
      && Do(c, cfg, w2, Continue(true))
           == Settled(s, Working(BROADCASTING, queue, HasSentRaw(TheRaw(s))), [RawSend(TheHash(s), TheRaw(s))])
  {
    hide Matches, Consumed, TheHash, TheRelease, P.TransactionOf;
    var none: seq<RawSend> := [];
    assert none + [RawSend(TheHash(s), TheRaw(s))] == [RawSend(TheHash(s), TheRaw(s))];
  }

  lemma BroadcastsIt(s: Story, moves: seq<Move>) returns (more: seq<Move>)
    requires Matches(s) && Reaches(moves, Settled(s, Idle, []))
    ensures Reaches(more, Settled(s, Working(BROADCASTING, [RowCompleted(s)], HasSentRaw(TheRaw(s))),
                                  [RawSend(TheHash(s), TheRaw(s))]))
  {
    ServiceStarts(s);
    SendsTheRaw(s);
    hide Matches, Reaches, Consumed, TheHash, TheRelease, HasStarted, IsExact, Do;
    var (cfg, row, w) := (TheConfig(s), RowCompleted(s), Settled(s, Idle, []));
    more := ListsTheOne(s, moves, w, BROADCASTING, row);
    var w1 := Settled(s, Working(BROADCASTING, [row], AtStart), []);
    GoesOnQuietly(cfg, w1, DoBroadcast(NoReply));
    more := Goes(more, w1, cfg, DoBroadcast(NoReply));
    var w2 := Settled(s, Working(BROADCASTING, [row], WillSend(TheRaw(s))), []);
    GoesOnQuietly(cfg, w2, Continue(true));
    more := Goes(more, w2, cfg, Continue(true));
  }

  /**
    Every matching plan is sent in some exact run: the deposit is all that was minted, the burn all that
    was burned, and the redeem the only one.
   */
  lemma AnyMatchingPlanIsSent(s: Story) returns (c: Br.Chain, w: World, moves: seq<Move>)
    requires Matches(s)
    ensures IsStart(c, w) && IsExactRun(c, w, moves) && IsRun(c, w, moves)
    ensures var w' := Run(c, w, moves);
      && w'.sends == [RawSend(TheHash(s), TheRaw(s))]
      && w'.rows == map[TheHash(s) := RowCompleted(s)]
      && w'.bridge == Consumed(s) && c.burnGateway == BURN_GATEWAY
  {
    StartIsAStart();
    var m := ComesToRequested(s);
    m := SendsCompletion(s, m);
    m := SettlesIt(s, m);
    moves := BroadcastsIt(s, m);
    c, w := TheChain(), Start();
    ExactIsRun(c, w, moves);
    hide IsStart, IsExactRun, IsRun, Run, Matches, Consumed, TheHash, RowCompleted;
  }
}
