/**
  Two exact runs in which a redeem is consumed on the chain and never paid.

  In one the user completes the redeem and the worker looks after the deadline. In the other the worker
  gives up waiting for its first completion, which is taken all the same, sends a second one, and takes
  the second one's failure for the redeem's.
 */
module PublicWorkerUnpaid {
  import opened BridgeTypes
  import opened PublicStore
  import opened PublicWorker
  import opened PublicWorkerRuns
  import opened PublicWorkerExact
  import opened PublicWorkerStory
  import opened PublicWorkerScenario
  import opened PublicWorkerSettlement
  import B = BurnGateway
  import Br = Bridge

  /** The record is consumed, and nothing will ever be sent. */
  ghost predicate IsLost(c: Br.Chain, w: World, h: Bytes32) {
    IsConsumed(w.bridge, h) && IsNeverSent(c, w, h)
  }

  function Lost(s: Story): Row
    requires Matches(s)
  {
    Marked(RowRequested(s), Failed)
  }

  lemma ConsumedIsConsumed(s: Story)
    requires Matches(s)
    ensures IsConsumed(Consumed(s), TheHash(s))
  {
    hide ReleaseAnswered, TheHash, TheRelease;
  }

  lemma FailedIsLost(s: Story, moves: seq<Move>, w: World)
    requires Matches(s) && Reaches(moves, w) && w.bridge == Consumed(s)
    requires TheHash(s) in w.rows && w.rows[TheHash(s)].status == FAILED
    ensures IsStart(TheChain(), Start()) && IsExactRun(TheChain(), Start(), moves)
      && w == Run(TheChain(), Start(), moves)
    ensures IsLost(TheChain(), w, TheHash(s))
  {
    hide IsStart, IsExactRun, Run, Invariant, Consumed, TheHash, IsNeverSent, Start;
    StartIsAStart();
    ExactIsRun(TheChain(), Start(), moves);
    RunInvariant(TheChain(), Start(), moves);
    ConsumedIsConsumed(s);
    FailedIsNeverSent(TheChain(), w, TheHash(s));
  }

  // ----- Too late -----

  /** The completion came from the user. */
  function CompletedByUser(s: Story): World
    requires Matches(s)
  {
    Resting(s, Consumed(s), RowRequested(s)).(consumedEvents := {(TheHash(s), TheRelease(s).redeemId)})
  }

  lemma UserCompletes(s: Story)
    requires Matches(s)
    ensures var (w, a) := (Resting(s, ReleaseAnswered(s), RowRequested(s)), Transact(CompletionBy(s, USER)));
      IsExact(TheChain(), TheConfig(s), w, a) && Do(TheChain(), TheConfig(s), w, a) == CompletedByUser(s)
  {
    hide Matches, ReleaseAnswered, Consumed, TheHash, TheRelease, HasStarted, Br.Step, Br.Try;
    ServiceStarts(s);
    CompletionIsMined(s, USER);
    ReleaseNames(s);
    var none: set<(Bytes32, Bytes32)> := {};
    assert none + {(TheHash(s), TheRelease(s).redeemId)} == {(TheHash(s), TheRelease(s).redeemId)};
  }

  /** One second after the deadline, with every answer there. */
  function LateQuestion(): Action {
    DoSettle(DEADLINE + 1, NoReply, Reply(Pending(true, true, true)), Reply(true), Reply(Some((COMPLETION, 0))),
             NoReply)
  }

  lemma ConsumedAnswers(s: Story)
    requires Matches(s)
    ensures PendingOf(Consumed(s).verifier.requests, RELEASE_ID) == Pending(true, true, true)
    ensures TheRelease(s).redeemId in Consumed(s).burning.redeemIdConsumed
  {
    AnswersAre(s);
    hide Matches, TheHash, TheRelease, ReleaseAnswered, PendingOf;
  }

  lemma AsksTooLate(s: Story, w: World)
    requires Matches(s) && HasStarted(TheChain(), TheConfig(s), Consumed(s))
    requires w == CompletedByUser(s).(job := Working(SETTLING, [RowRequested(s)], AtStart))
    ensures IsExact(TheChain(), TheConfig(s), w, LateQuestion())
  {
    hide Matches, TheHash, TheRelease, HasStarted, Consumed, PendingOf, WouldComplete;
    ConsumedAnswers(s);
  }

  lemma LateFails(s: Story, w: World)
    requires Matches(s) && w == CompletedByUser(s).(job := Working(SETTLING, [RowRequested(s)], AtStart))
    ensures Do(TheChain(), TheConfig(s), w, LateQuestion()) == CompletedByUser(s).(rows := map[TheHash(s) := Lost(s)])
  {
    hide Matches, TheHash, TheRelease, Consumed;
    assert w.rows[TheHash(s) := Lost(s)] == map[TheHash(s) := Lost(s)];
  }

  /**
    For every such redeem there is an exact run in which somebody else completes it, the worker asks after
    the deadline and fails the row, and in no continuation anything is sent for it.
   */
  lemma ConsumedMayNeverBePaid(s: Story) returns (c: Br.Chain, w: World, moves: seq<Move>)
    requires Matches(s)
    ensures IsStart(c, w) && IsExactRun(c, w, moves) && IsLost(c, Run(c, w, moves), TheHash(s))
  {
    hide Matches, Reaches, HasStarted, IsExact, Do, IsStart, IsExactRun, Run, IsLost, TheHash, TheRelease,
      ReleaseAnswered, Consumed;
    ServiceStarts(s);
    moves := ComesToRequested(s);
    UserCompletes(s);
    moves := Goes(moves, Resting(s, ReleaseAnswered(s), RowRequested(s)), TheConfig(s),
                  Transact(CompletionBy(s, USER)));
    moves := ListsTheOne(s, moves, CompletedByUser(s), SETTLING, RowRequested(s));
    var w1 := CompletedByUser(s).(job := Working(SETTLING, [RowRequested(s)], AtStart));
    AsksTooLate(s, w1);
    LateFails(s, w1);
    moves := Goes(moves, w1, TheConfig(s), LateQuestion());
    FailedIsLost(s, moves, CompletedByUser(s).(rows := map[TheHash(s) := Lost(s)]));
    c, w := TheChain(), Start();
  }

  // ----- A second completion -----

  /** The first completion is taken while the process waits for the second. */
  function FirstTaken(s: Story): World
    requires Matches(s)
  {
    Waiting(s).(bridge := Consumed(s), consumedEvents := {(TheHash(s), TheRelease(s).redeemId)})
  }

  /** The process does not hear of its first completion in time: asked again, the row stands as it did. */
  function UnheardQuestion(): Action {
    DoSettle(0, NoReply, Reply(Pending(true, true, true)), Reply(false), NoReply, NoReply)
  }

  lemma UnheardLeaves(s: Story)
    requires Matches(s) && HasStarted(TheChain(), TheConfig(s), ReleaseAnswered(s))
    ensures IsExact(TheChain(), TheConfig(s), Settling(s, AtStart, map[]), UnheardQuestion())
    ensures Do(TheChain(), TheConfig(s), Settling(s, AtStart, map[]), UnheardQuestion())
      == Resting(s, ReleaseAnswered(s), RowRequested(s))
  {
    hide Matches, TheHash, TheRelease, HasStarted, ReleaseAnswered, PendingOf, WouldComplete;
    AnswersAre(s);
    ReleaseNames(s);
  }

  lemma FirstIsTaken(s: Story)
    requires Matches(s)
    ensures IsExact(TheChain(), TheConfig(s), Waiting(s), Transact(CompletionBy(s, RELAYER)))
    ensures Do(TheChain(), TheConfig(s), Waiting(s), Transact(CompletionBy(s, RELAYER))) == FirstTaken(s)
  {
    hide Matches, ReleaseAnswered, Consumed, TheHash, TheRelease, HasStarted, Br.Step, Br.Try;
    ServiceStarts(s);
    CompletionIsMined(s, RELAYER);
    ReleaseNames(s);
    var none: set<(Bytes32, Bytes32)> := {};
    assert none + {(TheHash(s), TheRelease(s).redeemId)} == {(TheHash(s), TheRelease(s).redeemId)};
  }

  lemma SecondReverts(s: Story)
    requires Matches(s)
    ensures Br.Try(TheChain(), Consumed(s), CompletionBy(s, RELAYER)).Revert?
    ensures Br.Step(TheChain(), Consumed(s), CompletionBy(s, RELAYER)) == Consumed(s)
  {
    hide Matches, ReleaseAnswered, TheHash, Br.VerifyRelease, RedeemIdOf;
    ServiceStarts(s);
    ReleaseNames(s);
  }

  function SecondMined(s: Story): World
    requires Matches(s)
  {
    FirstTaken(s).(receipts := map[COMPLETION := false])
  }

  lemma SecondIsMined(s: Story)
    requires Matches(s)
    ensures IsExact(TheChain(), TheConfig(s), FirstTaken(s), MineCompletion(COMPLETION, RELAYER, 0))
    ensures Do(TheChain(), TheConfig(s), FirstTaken(s), MineCompletion(COMPLETION, RELAYER, 0)) == SecondMined(s)
  {
    hide Matches, Consumed, TheHash, TheRelease, HasStarted, Br.Step, Br.Try;
    ServiceStarts(s);
    SecondReverts(s);
    var w := FirstTaken(s);
    assert CompletionTx(w, COMPLETION, RELAYER, 0) == CompletionBy(s, RELAYER);
    assert w.receipts[COMPLETION := false] == map[COMPLETION := false] && w.consumedEvents + {} == w.consumedEvents;
  }

  /** The wait ends in an error, which leaves the row; the next cycle finds the receipt. */
  function Unheard(s: Story): World
    requires Matches(s)
  {
    SecondMined(s).(job := Idle)
  }

  lemma WaitFails(s: Story)
    requires Matches(s) && HasStarted(TheChain(), TheConfig(s), Consumed(s))
    ensures IsExact(TheChain(), TheConfig(s), SecondMined(s), DoReceipt(NoReply))
    ensures Do(TheChain(), TheConfig(s), SecondMined(s), DoReceipt(NoReply)) == Unheard(s)
  {
    hide Matches, Consumed, TheHash, TheRelease, HasStarted;
  }

  function ReceiptQuestion(): Action {
    DoSettle(1, Reply(Some(Receipt(false, 0))), NoReply, NoReply, NoReply, NoReply)
  }

  lemma FindsReceipt(s: Story, w: World)
    requires Matches(s) && HasStarted(TheChain(), TheConfig(s), Consumed(s))
    requires w == Unheard(s).(job := Working(SETTLING, [RowSubmitted(s)], AtStart))
    ensures IsExact(TheChain(), TheConfig(s), w, ReceiptQuestion())
  {
    hide Matches, TheHash, TheRelease, HasStarted, Consumed, Do, WouldComplete, PendingOf;
  }

  lemma ReceiptFails(s: Story, w: World)
    requires Matches(s) && w == Unheard(s).(job := Working(SETTLING, [RowSubmitted(s)], AtStart))
    ensures Do(TheChain(), TheConfig(s), w, ReceiptQuestion())
      == Unheard(s).(rows := map[TheHash(s) := Marked(RowSubmitted(s), Failed)])
  {
    hide Matches, TheHash, TheRelease, Consumed;
    assert w.rows[TheHash(s) := Marked(RowSubmitted(s), Failed)] == map[TheHash(s) := Marked(RowSubmitted(s), Failed)];
  }

  /**
    For every such redeem there is an exact run in which the worker's first completion times out and is
    taken later, its second one reverts, the row fails, and in no continuation anything is sent for it.
   */
  lemma SecondCompletionIsNeverPaid(s: Story) returns (c: Br.Chain, w: World, moves: seq<Move>)
    requires Matches(s)
    ensures IsStart(c, w) && IsExactRun(c, w, moves) && IsLost(c, Run(c, w, moves), TheHash(s))
  {
    hide Matches, Reaches, HasStarted, IsExact, Do, IsStart, IsExactRun, Run, IsLost, TheHash, TheRelease,
      ReleaseAnswered, Consumed;
    ServiceStarts(s);
    var cfg := TheConfig(s);
    moves := ComesToRequested(s);
    moves := ListsTheOne(s, moves, Resting(s, ReleaseAnswered(s), RowRequested(s)), SETTLING, RowRequested(s));
    UnheardLeaves(s);
    moves := Goes(moves, Settling(s, AtStart, map[]), cfg, UnheardQuestion());
    moves := SendsCompletion(s, moves);
    FirstIsTaken(s);
    moves := Goes(moves, Waiting(s), cfg, Transact(CompletionBy(s, RELAYER)));
    SecondIsMined(s);
    moves := Goes(moves, FirstTaken(s), cfg, MineCompletion(COMPLETION, RELAYER, 0));
    WaitFails(s);
    moves := Goes(moves, SecondMined(s), cfg, DoReceipt(NoReply));
    moves := ListsTheOne(s, moves, Unheard(s), SETTLING, RowSubmitted(s));
    var w1 := Unheard(s).(job := Working(SETTLING, [RowSubmitted(s)], AtStart));
    FindsReceipt(s, w1);
    ReceiptFails(s, w1);
    moves := Goes(moves, w1, cfg, ReceiptQuestion());
    FailedIsLost(s, moves, Unheard(s).(rows := map[TheHash(s) := Marked(RowSubmitted(s), Failed)]));
    c, w := TheChain(), Start();
  }
}
