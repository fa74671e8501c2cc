/**
  When a redeem that the chain has consumed is paid.

  A worker that finds the redeem consumed completes its row, and can then send the transaction, exactly
  when it looks at or before both deadlines and its own request is approved; otherwise the row fails and
  nothing is ever sent (ConsumedIsPaidIff). A worker whose own completion was mined pays exactly when
  that one succeeded, although another one may have consumed the redeem (SubmittedIsPaidIff). Both ways
  of never paying occur in exact runs (ConsumedMayNeverBePaid and SecondCompletionIsNeverPaid of
  PublicWorkerUnpaid).
 */
module PublicWorkerSettlement {
  import opened BridgeTypes
  import opened PublicStore
  import opened PublicWorker
  import opened PublicWorkerRuns
  import opened PublicWorkerExact
  import P = SpendPlan
  import B = BurnGateway
  import Br = Bridge
  import Q = PublicWorkerPasses

  /** Whatever happens, nothing is ever sent for this redeem. */
  ghost predicate IsNeverSent(c: Br.Chain, w: World, h: Bytes32) {
    forall later, x | IsRun(c, w, later) && x in Run(c, w, later).sends :: x.requestHash != h
  }

  /** The worker can go on so that it sends. */
  ghost predicate CanBeSent(c: Br.Chain, w: World, h: Bytes32) {
    exists later, x :: IsExactRun(c, w, later) && x in Run(c, w, later).sends && x.requestHash == h
  }

  lemma SentIsNotNever(c: Br.Chain, w: World, h: Bytes32)
    ensures !(CanBeSent(c, w, h) && IsNeverSent(c, w, h))
  {
    hide Run, IsRun, IsExactRun;
    if CanBeSent(c, w, h) {
      var later, x :| IsExactRun(c, w, later) && x in Run(c, w, later).sends && x.requestHash == h;
      ExactIsRun(c, w, later);
    }
  }

  // ----- Never -----

  /** Nothing is sent for a failed row, in any continuation. */
  lemma FailedIsNeverSent(c: Br.Chain, w: World, h: Bytes32)
    requires Invariant(c, w) && h in w.rows && w.rows[h].status == FAILED
    ensures IsNeverSent(c, w, h)
  {
    hide Invariant, IsRun, Run, RowFacts;
    forall later, x | IsRun(c, w, later) && x in Run(c, w, later).sends ensures x.requestHash != h {
      RunKeeps(c, w, later);
      SentRow(c, Run(c, w, later), x);
      RunMovesForward(c, w, later);
    }
  }

  // ----- Finishing the rows to settle -----

  lemma ListedToSettle(c: Br.Chain, w: World)
    requires Invariant(c, w) && Stands(w, SETTLING, AtStart)
    ensures w.job.queue[0].authorization.Some? && w.job.queue[0].releaseRequestId.Some?
  {
    hide Invariant, RowFacts, HeadFacts;
    IsInHand(c, w);
  }

  lemma ListedToBroadcast(c: Br.Chain, w: World)
    requires Invariant(c, w) && Stands(w, BROADCASTING, AtStart)
    ensures var row := w.job.queue[0];
      row.status == REDEEM_COMPLETED && RowFacts(w.bridge, w.completions, row.event.requestHash, row)
  {
    hide Invariant, RowFacts;
    IsInHand(c, w);
  }

  lemma StaysExactly(c: Br.Chain, w: World)
    ensures LeadsExactly(c, w, [], w)
  {
  }

  const UNANSWERED: Action := DoSettle(0, NoReply, NoReply, NoReply, NoReply, NoReply)

  lemma UnansweredEffect(row: Row)
    ensures var effect := SettleRow(row, 0, NoReply, NoReply, NoReply, NoReply, NoReply);
      effect == Leave || effect == Note(Failed)
  {
    hide IsExpired;
  }

  lemma UnansweredIsExact(c: Br.Chain, cfg: Config, w: World)
    requires Stands(w, SETTLING, AtStart) && HasStarted(c, cfg, w.bridge)
    requires w.job.queue[0].authorization.Some? && w.job.queue[0].releaseRequestId.Some?
    ensures IsExact(c, cfg, w, UNANSWERED)
  {
    hide IsLoaded, IsGivenUp;
  }

  lemma UnansweredStep(c: Br.Chain, cfg: Config, w: World)
    requires Stands(w, SETTLING, AtStart)
    ensures var row := w.job.queue[0];
      Do(c, cfg, w, UNANSWERED) == Apply(w, row, SettleRow(row, 0, NoReply, NoReply, NoReply, NoReply, NoReply))
  {
    hide SettleRow, Apply;
  }

  /** The row in hand is left or failed without an answer; the others are as they were. */
  lemma SettlesUnanswered(c: Br.Chain, cfg: Config, w: World)
    requires Invariant(c, w) && Stands(w, SETTLING, AtStart) && HasStarted(c, cfg, w.bridge)
    ensures IsExact(c, cfg, w, UNANSWERED)
    ensures var w' := Do(c, cfg, w, UNANSWERED);
      && w'.job == NextRow(w.job) && w'.bridge == w.bridge
      && forall k | k in w.rows && k != w.job.queue[0].event.requestHash :: k in w'.rows && w'.rows[k] == w.rows[k]
  {
    hide Invariant, HasStarted, NextRow, Marked, SettleRow, Do, IsExact;
    ListedToSettle(c, w);
    UnansweredIsExact(c, cfg, w);
    UnansweredStep(c, cfg, w);
    UnansweredEffect(w.job.queue[0]);
  }

  lemma {:induction false} FinishesSettling(c: Br.Chain, cfg: Config, w: World, h: Bytes32)
    returns (moves: seq<Move>, w': World)
    requires Invariant(c, w) && HasStarted(c, cfg, w.bridge) && h in w.rows
    requires w.job.Idle? || (Stands(w, SETTLING, AtStart) && forall row | row in w.job.queue ::
                             row.event.requestHash != h)
    ensures LeadsExactly(c, w, moves, w') && Invariant(c, w') && w'.job.Idle? && w'.bridge == w.bridge
    ensures h in w'.rows && w'.rows[h] == w.rows[h]
    decreases if w.job.Working? then |w.job.queue| else 0
  {
    hide Invariant, HasStarted, Do, IsExact;
    if w.job.Idle? {
      moves, w' := [], w;
    } else {
      var a := UNANSWERED;
      SettlesUnanswered(c, cfg, w);
      var w1 := Do(c, cfg, w, a);
      ExactStepKeeps(c, cfg, w, a);
      assert forall row | row in w.job.queue[1..] :: row in w.job.queue;
      assert w.job.queue[0] in w.job.queue;
      var rest;
      rest, w' := FinishesSettling(c, cfg, w1, h);
      moves := [Move(cfg, a)] + rest;
      GoesFirst(c, w, Move(cfg, a), rest, w');
    }
  }

  lemma ExactStepKeeps(c: Br.Chain, cfg: Config, w: World, a: Action)
    requires Invariant(c, w) && IsExact(c, cfg, w, a)
    ensures Invariant(c, Do(c, cfg, w, a))
  {
    hide Invariant, IsTruthful, Do;
    StepKeeps(c, cfg, w, a);
  }

  lemma GoesFirst(c: Br.Chain, w: World, m: Move, rest: seq<Move>, w': World)
    requires IsExact(c, m.config, w, m.action) && LeadsExactly(c, Do(c, m.config, w, m.action), rest, w')
    ensures LeadsExactly(c, w, [m] + rest, w')
  {
    hide Do, IsExact;
    assert ([m] + rest)[0] == m && ([m] + rest)[1..] == rest;
  }

  lemma GoesAlong(c: Br.Chain, w: World, first: seq<Move>, w1: World, second: seq<Move>, w2: World)
    requires LeadsExactly(c, w, first, w1) && LeadsExactly(c, w1, second, w2)
    ensures LeadsExactly(c, w, first + second, w2)
    decreases |first|
  {
    hide Do, IsExact;
    if first == [] {
      assert first + second == second;
    } else {
      GoesAlong(c, Do(c, first[0].config, w, first[0].action), first[1..], w1, second, w2);
      assert (first + second)[0] == first[0] && (first + second)[1..] == first[1..] + second;
    }
  }

  // ----- Broadcasting one of the listed rows -----

  lemma UnansweredBroadcast(cfg: Config, row: Row)
    ensures BroadcastRow(cfg, row, NoReply) == if row.bitcoinTx.Some? then SendRaw(row.bitcoinTx.value) else Leave
  {
    hide P.ExtractPlan, P.VerifyReleaseSpendPlan;
  }

  lemma SendsOn(c: Br.Chain, cfg: Config, w: World, answered: bool)
    requires Head(w).Some? && w.job.at.WillSend?
    ensures Do(c, cfg, w, Continue(answered))
         == w.(sends := w.sends + [RawSend(w.job.queue[0].event.requestHash, w.job.at.raw)],
               job := if answered then w.job.(at := HasSentRaw(w.job.at.raw)) else NextRow(w.job))
  {
  }

  /** Rows listed before it are passed over, sent or not. */
  lemma PassesOver(c: Br.Chain, cfg: Config, w: World) returns (moves: seq<Move>, w': World)
    requires Invariant(c, w) && Stands(w, BROADCASTING, AtStart) && HasStarted(c, cfg, w.bridge)
    ensures LeadsExactly(c, w, moves, w') && Invariant(c, w')
    ensures w'.job == NextRow(w.job) && w'.bridge == w.bridge && w'.rows == w.rows
  {
    hide Invariant, HasStarted, NextRow, IsExact, LeadsExactly, Do, BroadcastRow;
    var (a, row) := (DoBroadcast(NoReply), w.job.queue[0]);
    QuietIsExact(c, cfg, w, a);
    StaysExactly(c, w);
    UnansweredBroadcast(cfg, row);
    Q.BroadcastStarts(c, cfg, w, NoReply);
    var w1 := Do(c, cfg, w, a);
    ExactStepKeeps(c, cfg, w, a);
    GoesOn(c, w, [], w, Move(cfg, a));
    moves, w' := [] + [Move(cfg, a)], w1;
    if row.bitcoinTx.Some? {
      QuietIsExact(c, cfg, w1, Continue(false));
      ExactStepKeeps(c, cfg, w1, Continue(false));
      SendsOn(c, cfg, w1, false);
      GoesOn(c, w, moves, w1, Move(cfg, Continue(false)));
      moves, w' := moves + [Move(cfg, Continue(false))], Do(c, cfg, w1, Continue(false));
      NextIgnores(w.job, WillSend(row.bitcoinTx.value));
    }
  }

  lemma NextIgnores(job: Job, at: Position)
    requires job.Working?
    ensures NextRow(job.(at := at)) == NextRow(job)
  {
  }

  lemma QuietIsExact(c: Br.Chain, cfg: Config, w: World, a: Action)
    requires HasStarted(c, cfg, w.bridge) && (a.Continue? || a == DoBroadcast(NoReply))
    ensures IsExact(c, cfg, w, a)
  {
    hide HasStarted;
  }

  /** The stored transaction, or one finalized from a stored PSBT by a wallet. */
  predicate CanFinalize(cfg: Config, row: Row, finalized: RawTx) {
    row.bitcoinTx.Some?
    || (cfg.custody == LOCAL_WALLET && row.spendPlan.Some?
        && finalized.parsed == Some(P.TransactionOf(row.spendPlan.value)))
  }

  /** About to send, the process sends. */
  lemma SendsAtLast(c: Br.Chain, cfg: Config, w0: World, moves: seq<Move>, w: World)
    returns (more: seq<Move>, w': World)
    requires LeadsExactly(c, w0, moves, w) && Head(w).Some? && w.job.at.WillSend? && HasStarted(c, cfg, w.bridge)
    ensures LeadsExactly(c, w0, more, w')
    ensures exists x :: x in w'.sends && x.requestHash == w.job.queue[0].event.requestHash
  {
    hide HasStarted, IsExact, LeadsExactly, Do;
    QuietIsExact(c, cfg, w, Continue(true));
    SendsOn(c, cfg, w, true);
    GoesOn(c, w0, moves, w, Move(cfg, Continue(true)));
    more, w' := moves + [Move(cfg, Continue(true))], Do(c, cfg, w, Continue(true));
    assert w'.sends[|w.sends|].requestHash == w.job.queue[0].event.requestHash;
  }

  lemma SendsStored(c: Br.Chain, cfg: Config, w: World) returns (moves: seq<Move>, w': World)
    requires Stands(w, BROADCASTING, AtStart) && HasStarted(c, cfg, w.bridge) && w.job.queue[0].bitcoinTx.Some?
    ensures LeadsExactly(c, w, moves, w')
    ensures exists x :: x in w'.sends && x.requestHash == w.job.queue[0].event.requestHash
  {
    hide HasStarted, IsExact, LeadsExactly, Do, BroadcastRow;
    var a := DoBroadcast(NoReply);
    QuietIsExact(c, cfg, w, a);
    UnansweredBroadcast(cfg, w.job.queue[0]);
    Q.BroadcastStarts(c, cfg, w, NoReply);
    StaysExactly(c, w);
    GoesOn(c, w, [], w, Move(cfg, a));
    moves, w' := SendsAtLast(c, cfg, w, [] + [Move(cfg, a)], Do(c, cfg, w, a));
  }

  /** The stored plan is the PSBT's, and the authorization accepts it. */
  lemma PsbtIsFinalized(b: Br.Bridge, completions: Completions, h: Bytes32, cfg: Config, row: Row, finalized: RawTx)
    requires RowFacts(b, completions, h, row) && row.status == REDEEM_COMPLETED && row.bitcoinTx.None?
      && CanFinalize(cfg, row, finalized)
    ensures BroadcastRow(cfg, row, Reply(finalized)) == Finalize(finalized)
  {
    hide P.ExtractPlan, P.VerifyReleaseSpendPlan, P.TransactionOf, IsGenuine, IsConsumed, Completes;
  }

  lemma FinalizingIsExact(c: Br.Chain, cfg: Config, w: World, finalized: RawTx)
    requires Stands(w, BROADCASTING, AtStart) && HasStarted(c, cfg, w.bridge)
    requires w.job.queue[0].bitcoinTx.None? && CanFinalize(cfg, w.job.queue[0], finalized)
    ensures IsExact(c, cfg, w, DoBroadcast(Reply(finalized)))
  {
    hide HasStarted, P.TransactionOf;
  }

  lemma SendsFinalized(c: Br.Chain, cfg: Config, w: World, finalized: RawTx) returns (moves: seq<Move>, w': World)
    requires Invariant(c, w) && Stands(w, BROADCASTING, AtStart) && HasStarted(c, cfg, w.bridge)
    requires w.job.queue[0].bitcoinTx.None? && CanFinalize(cfg, w.job.queue[0], finalized)
    ensures LeadsExactly(c, w, moves, w')
    ensures exists x :: x in w'.sends && x.requestHash == w.job.queue[0].event.requestHash
  {
    hide Invariant, HasStarted, IsExact, LeadsExactly, Do, BroadcastRow, CanFinalize, RowFacts;
    var (a, row) := (DoBroadcast(Reply(finalized)), w.job.queue[0]);
    ListedToBroadcast(c, w);
    StaysExactly(c, w);
    PsbtIsFinalized(w.bridge, w.completions, row.event.requestHash, cfg, row, finalized);
    FinalizingIsExact(c, cfg, w, finalized);
    Q.BroadcastStarts(c, cfg, w, Reply(finalized));
    GoesOn(c, w, [], w, Move(cfg, a));
    var w1 := Do(c, cfg, w, a);
    QuietIsExact(c, cfg, w1, Continue(true));
    Q.FinalizedIsKept(c, cfg, w1, true);
    GoesOn(c, w, [] + [Move(cfg, a)], w1, Move(cfg, Continue(true)));
    moves, w' := SendsAtLast(c, cfg, w, [] + [Move(cfg, a)] + [Move(cfg, Continue(true))],
                             Do(c, cfg, w1, Continue(true)));
  }

  /** However the rows were listed, the process comes to this one and sends. */
  lemma {:induction false} ComesToSend(c: Br.Chain, cfg: Config, w: World, h: Bytes32, i: nat, finalized: RawTx)
    returns (moves: seq<Move>, w': World)
    requires Invariant(c, w) && Stands(w, BROADCASTING, AtStart) && HasStarted(c, cfg, w.bridge)
    requires i < |w.job.queue| && w.job.queue[i].event.requestHash == h && CanFinalize(cfg, w.job.queue[i], finalized)
    ensures LeadsExactly(c, w, moves, w') && exists x :: x in w'.sends && x.requestHash == h
    decreases i
  {
    hide Invariant, HasStarted, LeadsExactly, CanFinalize;
    if i > 0 {
      var first, w1 := PassesOver(c, cfg, w);
      var second;
      second, w' := ComesToSend(c, cfg, w1, h, i - 1, finalized);
      moves := first + second;
      GoesAlong(c, w, first, w1, second, w');
    } else if w.job.queue[0].bitcoinTx.Some? {
      moves, w' := SendsStored(c, cfg, w);
    } else {
      moves, w' := SendsFinalized(c, cfg, w, finalized);
    }
  }

  // ----- A listing with this row -----

  lemma {:induction false} TakeFrom(e: set<Bytes32>, n: nat) returns (keys: seq<Bytes32>)
    ensures |keys| <= n && (forall i, j | 0 <= i < j < |keys| :: keys[i] != keys[j]) && forall k | k in keys :: k in e
    ensures |keys| < n ==> forall k | k in e :: k in keys
    decreases n
  {
    if n == 0 || e == {} {
      keys := [];
    } else {
      var k :| k in e;
      var rest := TakeFrom(e - {k}, n - 1);
      keys := [k] + rest;
    }
  }

  lemma ListingWith(rows: Rows, phase: Phase, finalizedBlock: int, limit: nat, h: Bytes32) returns (keys: seq<Bytes32>)
    requires h in rows && Eligible(phase, finalizedBlock, rows[h]) && limit > 0
    ensures IsListing(rows, phase, finalizedBlock, limit, keys) && h in keys
  {
    hide Eligible;
    var e := set k | k in rows && Eligible(phase, finalizedBlock, rows[k]);
    var rest := TakeFrom(e - {h}, limit - 1);
    keys := [h] + rest;
  }

  // ----- A completed row is sent -----

  lemma ListsExactly(c: Br.Chain, cfg: Config, w: World, keys: seq<Bytes32>)
    requires HasStarted(c, cfg, w.bridge) && IsListing(w.rows, BROADCASTING, cfg.finalizedBlock, cfg.limit, keys)
    ensures IsExact(c, cfg, w, List(BROADCASTING, keys))
  {
    hide HasStarted, IsListing;
  }

  lemma ListingStarts(c: Br.Chain, cfg: Config, w: World, keys: seq<Bytes32>, i: nat)
    requires w.job.Idle? && i < |keys| && IsListing(w.rows, BROADCASTING, cfg.finalizedBlock, cfg.limit, keys)
    ensures var w' := Do(c, cfg, w, List(BROADCASTING, keys));
      && Stands(w', BROADCASTING, AtStart) && i < |w'.job.queue| && keys[i] in w.rows
      && w'.job.queue[i] == w.rows[keys[i]]
      && w'.bridge == w.bridge
  {
    hide Eligible;
  }

  lemma CompletedIsEligible(c: Br.Chain, w: World, h: Bytes32, finalizedBlock: int)
    requires Invariant(c, w) && h in w.rows && w.rows[h].status == REDEEM_COMPLETED
    ensures Eligible(BROADCASTING, finalizedBlock, w.rows[h]) && w.rows[h].event.requestHash == h
    ensures w.rows[h].spendPlan.Some?
  {
    hide ChainFacts, JobFacts, SendFacts, IsGenuine, IsConsumed, Completes, PsbtFacts, FinalFacts;
    assert RowFacts(w.bridge, w.completions, h, w.rows[h]);
  }

  /** A completed row is sent in some continuation, whichever rows are listed with it. */
  lemma CompletedCanBeSent(c: Br.Chain, cfg: Config, w: World, h: Bytes32, finalized: RawTx)
    requires Invariant(c, w) && HasStarted(c, cfg, w.bridge) && h in w.rows && w.rows[h].status == REDEEM_COMPLETED
    requires CanFinalize(cfg, w.rows[h], finalized)
    requires w.job.Idle? || (Stands(w, SETTLING, AtStart) && forall row | row in w.job.queue ::
                             row.event.requestHash != h)
    ensures CanBeSent(c, w, h)
  {
    hide Invariant, HasStarted, LeadsExactly, CanFinalize, IsExact, Do, IsListing, Eligible;
    var first, w1 := FinishesSettling(c, cfg, w, h);
    CompletedIsEligible(c, w1, h, cfg.finalizedBlock);
    LimitIsPositive(c, cfg, w.bridge);
    var keys := ListingWith(w1.rows, BROADCASTING, cfg.finalizedBlock, cfg.limit, h);
    var i :| 0 <= i < |keys| && keys[i] == h;
    ListsExactly(c, cfg, w1, keys);
    ListingStarts(c, cfg, w1, keys, i);
    ExactStepKeeps(c, cfg, w1, List(BROADCASTING, keys));
    GoesOn(c, w, first, w1, Move(cfg, List(BROADCASTING, keys)));
    var w2 := Do(c, cfg, w1, List(BROADCASTING, keys));
    var second, w3 := ComesToSend(c, cfg, w2, h, i, finalized);
    var moves := first + [Move(cfg, List(BROADCASTING, keys))] + second;
    GoesAlong(c, w, first + [Move(cfg, List(BROADCASTING, keys))], w2, second, w3);
    LeadsToSent(c, w, moves, w3, h);
  }

  lemma LimitIsPositive(c: Br.Chain, cfg: Config, b: Br.Bridge)
    requires HasStarted(c, cfg, b)
    ensures cfg.limit > 0
  {
  }

  lemma LeadsToSent(c: Br.Chain, w: World, moves: seq<Move>, w': World, h: Bytes32)
    requires LeadsExactly(c, w, moves, w') && exists x :: x in w'.sends && x.requestHash == h
    ensures CanBeSent(c, w, h)
  {
    hide Run, IsExactRun;
    var x :| x in w'.sends && x.requestHash == h;
    assert x in Run(c, w, moves).sends;
  }

  // ----- Settling a row that the chain has consumed -----

  lemma SettleStep(c: Br.Chain, cfg: Config, w: World, a: Action)
    requires Stands(w, SETTLING, AtStart) && a.DoSettle?
    ensures var row := w.job.queue[0];
      Do(c, cfg, w, a) == Apply(w, row, SettleRow(row, a.now, a.receipt, a.pending, a.consumed, a.event, a.sent))
  {
    hide SettleRow, Apply;
  }

  lemma HeadIsListed(c: Br.Chain, w: World)
    requires Invariant(c, w) && Stands(w, SETTLING, AtStart)
    ensures var row := w.job.queue[0];
      && row.event.requestHash in w.rows && w.rows[row.event.requestHash] == row && row.spendPlan.Some?
      && (forall other | other in w.job.queue[1..] :: other.event.requestHash != row.event.requestHash)
  {
    hide ChainFacts, SendFacts, IsGenuine, IsConsumed, Completes, PsbtFacts, FinalFacts;
    IsInHand(c, w);
    forall other | other in w.job.queue[1..] ensures other.event.requestHash != w.job.queue[0].event.requestHash {
      var i :| 0 <= i < |w.job.queue[1..]| && w.job.queue[1..][i] == other;
      assert other == w.job.queue[i + 1];
    }
  }

  /** After a note on the row in hand the process stands at the rows that were listed with it. */
  lemma NoteLeaves(w: World, row: Row, m: Mark)
    requires Stands(w, SETTLING, AtStart) && w.job.queue[0] == row && row.event.requestHash in w.rows
    requires w.rows[row.event.requestHash] == row
    requires forall other | other in w.job.queue[1..] :: other.event.requestHash != row.event.requestHash
    ensures var (w', h) := (Apply(w, row, Note(m)), row.event.requestHash);
      && h in w'.rows && w'.rows[h] == Marked(row, m) && w'.bridge == w.bridge
      && (w'.job.Idle? || (Stands(w', SETTLING, AtStart) && forall other | other in w'.job.queue ::
                           other.event.requestHash != h))
  {
    hide Marked;
  }

  lemma NotedIsPaidOrNot(c: Br.Chain, cfg: Config, w: World, a: Action, m: Mark, finalized: RawTx)
    requires Invariant(c, w) && Stands(w, SETTLING, AtStart) && a.DoSettle? && IsTruthful(c, cfg, w, a)
    requires HasStarted(c, cfg, w.bridge) && CanFinalize(cfg, w.job.queue[0], finalized)
    requires var row := w.job.queue[0];
      SettleRow(row, a.now, a.receipt, a.pending, a.consumed, a.event, a.sent) == Note(m)
      && (m == Failed || m.Completed?)
    ensures var (h, w') := (w.job.queue[0].event.requestHash, Do(c, cfg, w, a));
      && h in w'.rows && w'.rows[h].status == (if m == Failed then FAILED else REDEEM_COMPLETED)
      && (CanBeSent(c, w', h) <==> m != Failed) && (IsNeverSent(c, w', h) <==> m == Failed)
  {
    hide Invariant, IsTruthful, HasStarted, Do, CanBeSent, IsNeverSent, SettleRow, Apply;
    var (row, w') := (w.job.queue[0], Do(c, cfg, w, a));
    HeadIsListed(c, w);
    SettleStep(c, cfg, w, a);
    NoteLeaves(w, row, m);
    StepKeeps(c, cfg, w, a);
    SentIsNotNever(c, w', row.event.requestHash);
    if m == Failed {
      FailedIsNeverSent(c, w', row.event.requestHash);
    } else {
      CompletedCanBeSent(c, cfg, w', row.event.requestHash, finalized);
    }
  }

  /**
    In every reachable state: the worker asks about a requested row whose record is consumed, and gets
    its answers, the event among them. Then the row is completed, and can be sent, exactly when it is
    asked at or before both deadlines and its request is approved. A request that waits for its answer
    leaves the row for the next time, unless it is late; otherwise the row fails, and nothing is ever sent.
   */
  lemma ConsumedIsPaidIff(c: Br.Chain, w0: World, moves: seq<Move>, cfg: Config, a: Action, finalized: RawTx)
    requires IsStart(c, w0) && IsRun(c, w0, moves) && Stands(Run(c, w0, moves), SETTLING, AtStart)
    requires var (w, row) := (Run(c, w0, moves), Run(c, w0, moves).job.queue[0]);
      && row.status == RELEASE_REQUESTED && IsConsumed(w.bridge, row.event.requestHash)
      && a.DoSettle? && IsTruthful(c, cfg, w, a) && HasStarted(c, cfg, w.bridge) && CanFinalize(cfg, row, finalized)
      && a.pending.Reply? && a.consumed == Reply(true) && a.event.Reply? && a.event.value.Some?
    ensures var (w, row) := (Run(c, w0, moves), Run(c, w0, moves).job.queue[0]);
      var (w', h, p) := (Do(c, cfg, w, a), row.event.requestHash, a.pending.value);
      && (p.known && p.approved && p.fulfilled ==>
            (CanBeSent(c, w', h) <==> IsTimely(row, a.now)) && (IsNeverSent(c, w', h) <==> !IsTimely(row, a.now)))
      && (IsTimely(row, a.now) && p.known && !p.fulfilled ==> w'.rows == w.rows)
      && (!IsTimely(row, a.now) || !p.known || (p.fulfilled && !p.approved) ==>
            h in w'.rows && w'.rows[h].status == FAILED && IsNeverSent(c, w', h))
  {
    hide Invariant, IsStart, IsRun, Run, IsTruthful, HasStarted, CanBeSent, IsNeverSent, Do, SettleRow, IsTimely,
      CanFinalize;
    var (w, row) := (Run(c, w0, moves), Run(c, w0, moves).job.queue[0]);
    RunInvariant(c, w0, moves);
    SettlementIsDecided(row, a.now, a.receipt, a.pending, a.consumed, a.event, a.sent);
    SettleStep(c, cfg, w, a);
    var effect := SettleRow(row, a.now, a.receipt, a.pending, a.consumed, a.event, a.sent);
    AnsweredEffect(row, a);
    if effect.Note? {
      NotedIsPaidOrNot(c, cfg, w, a, effect.mark, finalized);
    }
  }

  lemma AnsweredEffect(row: Row, a: Action)
    requires a.DoSettle? && row.status == RELEASE_REQUESTED
    requires a.pending.Reply? && a.consumed == Reply(true) && a.event.Reply? && a.event.value.Some?
    ensures var effect := SettleRow(row, a.now, a.receipt, a.pending, a.consumed, a.event, a.sent);
      effect == Leave || effect == Note(Failed) || (effect.Note? && effect.mark.Completed?)
  {
    hide IsExpired;
  }

  /**
    In every reachable state: the worker looks for the receipt of the completion it has sent. When there is
    one, the row is completed, and can be sent, exactly when that completion succeeded; when it failed,
    nothing is ever sent, even if another completion has consumed the redeem.
   */
  lemma SubmittedIsPaidIff(c: Br.Chain, w0: World, moves: seq<Move>, cfg: Config, a: Action, finalized: RawTx)
    requires IsStart(c, w0) && IsRun(c, w0, moves) && Stands(Run(c, w0, moves), SETTLING, AtStart)
    requires var (w, row) := (Run(c, w0, moves), Run(c, w0, moves).job.queue[0]);
      && row.status == REDEEM_SUBMITTED && a.DoSettle? && IsTruthful(c, cfg, w, a) && HasStarted(c, cfg, w.bridge)
      && CanFinalize(cfg, row, finalized) && a.receipt.Reply? && a.receipt.value.Some?
    ensures var (w, row) := (Run(c, w0, moves), Run(c, w0, moves).job.queue[0]);
      var (w', h, ok) := (Do(c, cfg, w, a), row.event.requestHash, a.receipt.value.value.ok);
      && h in w'.rows && w'.rows[h].status == (if ok then REDEEM_COMPLETED else FAILED)
      && (CanBeSent(c, w', h) <==> ok) && (IsNeverSent(c, w', h) <==> !ok)
  {
    hide Invariant, IsStart, IsRun, Run, IsTruthful, HasStarted, CanBeSent, IsNeverSent, Do, CanFinalize;
    var (w, row) := (Run(c, w0, moves), Run(c, w0, moves).job.queue[0]);
    RunInvariant(c, w0, moves);
    SubmittedHasHash(c, w);
    var m := if a.receipt.value.value.ok then Completed(row.completeTx.value, a.receipt.value.value.block) else Failed;
    NotedIsPaidOrNot(c, cfg, w, a, m, finalized);
  }

  lemma SubmittedHasHash(c: Br.Chain, w: World)
    requires Invariant(c, w) && Stands(w, SETTLING, AtStart) && w.job.queue[0].status == REDEEM_SUBMITTED
    ensures w.job.queue[0].completeTx.Some?
  {
    hide Invariant, IsGenuine, IsConsumed, AuthorizationFacts, PsbtFacts, FinalFacts;
    IsInHand(c, w);
  }
}
