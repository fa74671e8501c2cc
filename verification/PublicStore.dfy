/**
  The redeem rows and the scan cursor of the public testnet store.

  Every write is one UPDATE or upsert of one row; an UPDATE whose key is not there changes nothing.
  Columns that decide nothing are left out: timestamps, error texts, transaction identifiers that
  are only displayed.
 */
module PublicStore {
  import opened BridgeTypes
  import P = SpendPlan

  type TxHash = nat

  /** The bytes of a raw transaction, and the transaction they parse to, if any. */
  datatype RawTx = RawTx(bytes: seq<Byte>, parsed: Option<P.Transaction>)

  datatype RedeemStatus =
    | OBSERVED | RELEASE_PREPARED | RELEASE_REQUESTED | REDEEM_SUBMITTED | REDEEM_COMPLETED | BTC_BROADCAST | FAILED

  datatype RedeemEvent = RedeemEvent(
    requestHash: Bytes32, requester: Address, txHash: Bytes32, blockNumber: nat, blockHash: Bytes32, logIndex: Uint32,
    destinationScriptHash: Bytes32, destinationScript: seq<Byte>, requestNonce: Uint64,
    amountSats: Uint64, maxMinerFeeSats: Uint64, deadline: Uint64)

  datatype Row = Row(
    event: RedeemEvent, status: RedeemStatus,
    psbt: Option<P.Psbt>, spendPlan: Option<P.Plan>, authorization: Option<ReleaseAuthorization>,
    releaseRequestId: Option<Bytes32>, completeTx: Option<TxHash>, completeBlock: Option<nat>, bitcoinTx: Option<RawTx>)

  type Rows = map<Bytes32, Row>

  function Observed(e: RedeemEvent): Row { Row(e, OBSERVED, None, None, None, None, None, None, None) }

  /** A known redeem keeps its status and everything but the event columns. */
  function Upsert(rows: Rows, e: RedeemEvent): Rows {
    rows[e.requestHash := if e.requestHash in rows then rows[e.requestHash].(event := e) else Observed(e)]
  }

  datatype Mark =
    | Prepared(psbt: Option<P.Psbt>, spendPlan: P.Plan, authorization: ReleaseAuthorization, bitcoinTx: Option<RawTx>)
    | Requested(requestId: Bytes32)
    | Submitted(tx: TxHash)
    | Completed(tx: TxHash, block: nat)
    | Finalized(raw: RawTx)
    | Broadcast(raw: RawTx)
    | Failed

  function Marked(row: Row, m: Mark): Row {
    match m
    case Prepared(psbt, plan, authorization, raw) =>
      row.(status := RELEASE_PREPARED, psbt := psbt, spendPlan := Some(plan), authorization := Some(authorization),
           bitcoinTx := raw)
    case Requested(id) => row.(status := RELEASE_REQUESTED, releaseRequestId := Some(id))
    case Submitted(tx) => row.(status := REDEEM_SUBMITTED, completeTx := Some(tx), completeBlock := None)
    case Completed(tx, block) => row.(status := REDEEM_COMPLETED, completeTx := Some(tx), completeBlock := Some(block))
    case Finalized(raw) => row.(bitcoinTx := Some(raw))
    case Broadcast(raw) => row.(status := BTC_BROADCAST, bitcoinTx := Some(raw))
    case Failed => row.(status := FAILED)
  }

  function Update(rows: Rows, h: Bytes32, m: Mark): Rows {
    if h in rows then rows[h := Marked(rows[h], m)] else rows
  }

  // ----- The lists -----

  datatype Phase = PREPARING | REQUESTING | SETTLING | BROADCASTING

  predicate Eligible(phase: Phase, finalizedBlock: int, row: Row) {
    match phase
    case PREPARING => row.status == OBSERVED && row.event.blockNumber <= finalizedBlock
    case REQUESTING => row.status == RELEASE_PREPARED && row.authorization.Some? && row.spendPlan.Some?
    case SETTLING =>
      (row.status == RELEASE_REQUESTED || row.status == REDEEM_SUBMITTED) && row.releaseRequestId.Some?
      && row.authorization.Some?
    case BROADCASTING => row.status == REDEEM_COMPLETED && (row.psbt.Some? || row.bitcoinTx.Some?)
  }

  /** Distinct eligible rows as they are; all of them when the limit is not reached. */
  ghost predicate IsListing(rows: Rows, phase: Phase, finalizedBlock: int, limit: nat, keys: seq<Bytes32>) {
    && |keys| <= limit
    && (forall i, j | 0 <= i < j < |keys| :: keys[i] != keys[j])
    && (forall h | h in keys :: h in rows && Eligible(phase, finalizedBlock, rows[h]))
    && (|keys| < limit ==> forall h | h in rows && Eligible(phase, finalizedBlock, rows[h]) :: h in keys)
  }

  class PublicTestnetStore {
    var rows: Rows
    var cursor: Option<int>

    constructor ()
      ensures rows == map[] && cursor == None
    {
      rows, cursor := map[], None;
    }

    method UpsertRedeemObserved(e: RedeemEvent)
      modifies this`rows
      ensures rows == Upsert(old(rows), e)
      ensures rows.Keys == old(rows).Keys + {e.requestHash} && rows[e.requestHash].event == e
      ensures e.requestHash in old(rows) ==> rows[e.requestHash] == old(rows)[e.requestHash].(event := e)
      ensures e.requestHash !in old(rows) ==>
        rows[e.requestHash]
        == Row(event := e, status := OBSERVED, psbt := None, spendPlan := None, authorization := None,
               releaseRequestId := None, completeTx := None, completeBlock := None, bitcoinTx := None)
      ensures forall h | h in old(rows) && h != e.requestHash :: rows[h] == old(rows)[h]
    {
      var existing := if e.requestHash in rows then rows[e.requestHash].(event := e) else Observed(e);
      rows := rows[e.requestHash := existing];
    }

    method MarkRedeemPrepared(h: Bytes32, psbt: Option<P.Psbt>, plan: P.Plan, authorization: ReleaseAuthorization,
                              raw: Option<RawTx>)
      modifies this`rows
      ensures rows == Update(old(rows), h, Prepared(psbt, plan, authorization, raw))
      ensures h in old(rows) ==>
        rows == old(rows)[h := old(rows)[h].(status := RELEASE_PREPARED, psbt := psbt, spendPlan := Some(plan),
                                             authorization := Some(authorization), bitcoinTx := raw)]
    {
      if h in rows {
        rows := rows[h := rows[h].(status := RELEASE_PREPARED, psbt := psbt, spendPlan := Some(plan),
                                   authorization := Some(authorization), bitcoinTx := raw)];
      }
    }

    method MarkReleaseRequested(h: Bytes32, requestId: Bytes32)
      modifies this`rows
      ensures rows == Update(old(rows), h, Requested(requestId))
      ensures h in old(rows) ==>
        rows == old(rows)[h := old(rows)[h].(status := RELEASE_REQUESTED, releaseRequestId := Some(requestId))]
    {
      if h in rows {
        rows := rows[h := rows[h].(status := RELEASE_REQUESTED, releaseRequestId := Some(requestId))];
      }
    }

    method MarkRedeemSubmitted(h: Bytes32, tx: TxHash)
      modifies this`rows
      ensures rows == Update(old(rows), h, Submitted(tx))
      ensures h in old(rows) ==>
        rows == old(rows)[h := old(rows)[h].(status := REDEEM_SUBMITTED, completeTx := Some(tx), completeBlock := None)]
    {
      if h in rows {
        rows := rows[h := rows[h].(status := REDEEM_SUBMITTED, completeTx := Some(tx), completeBlock := None)];
      }
    }

    method MarkRedeemCompleted(h: Bytes32, tx: TxHash, block: nat)
      modifies this`rows
      ensures rows == Update(old(rows), h, Completed(tx, block))
      ensures h in old(rows) ==>
        rows == old(rows)[h := old(rows)[h].(status := REDEEM_COMPLETED, completeTx := Some(tx),
                                             completeBlock := Some(block))]
    {
      if h in rows {
        rows := rows[h := rows[h].(status := REDEEM_COMPLETED, completeTx := Some(tx), completeBlock := Some(block))];
      }
    }

    method MarkBitcoinFinalized(h: Bytes32, raw: RawTx)
      modifies this`rows
      ensures rows == Update(old(rows), h, Finalized(raw))
      ensures h in old(rows) ==>
        rows == old(rows)[h := old(rows)[h].(bitcoinTx := Some(raw))]
    {
      if h in rows {
        rows := rows[h := rows[h].(bitcoinTx := Some(raw))];
      }
    }

    method MarkBitcoinBroadcast(h: Bytes32, raw: RawTx)
      modifies this`rows
      ensures rows == Update(old(rows), h, Broadcast(raw))
      ensures h in old(rows) ==>
        rows == old(rows)[h := old(rows)[h].(status := BTC_BROADCAST, bitcoinTx := Some(raw))]
    {
      if h in rows {
        rows := rows[h := rows[h].(status := BTC_BROADCAST, bitcoinTx := Some(raw))];
      }
    }

    method MarkRedeemFailed(h: Bytes32)
      modifies this`rows
      ensures rows == Update(old(rows), h, Failed)
      ensures h in old(rows) ==>
        rows == old(rows)[h := old(rows)[h].(status := FAILED)]
    {
      if h in rows {
        rows := rows[h := rows[h].(status := FAILED)];
      }
    }

    /** The order in which the rows are listed is left open. */
    method List(phase: Phase, finalizedBlock: int, limit: nat) returns (keys: seq<Bytes32>)
      ensures IsListing(rows, phase, finalizedBlock, limit, keys)
    {
      keys := [];
      var left := rows.Keys;
      while left != {} && |keys| < limit
        invariant left <= rows.Keys && |keys| <= limit
        invariant forall i, j | 0 <= i < j < |keys| :: keys[i] != keys[j]
        invariant forall h | h in keys :: h in rows && h !in left && Eligible(phase, finalizedBlock, rows[h])
        invariant forall h | h in rows && h !in left && Eligible(phase, finalizedBlock, rows[h]) :: h in keys
        decreases |left|
      {
        var h :| h in left;
        left := left - {h};
        if Eligible(phase, finalizedBlock, rows[h]) {
          keys := keys + [h];
        }
      }
    }
  }

  /** A list is of the rows whose columns ask for its phase, and of all of them below its limit. */
  lemma ListingIsDecided(rows: Rows, finalizedBlock: int, limit: nat, phase: Phase, keys: seq<Bytes32>, h: Bytes32)
    requires IsListing(rows, phase, finalizedBlock, limit, keys) && h in rows
    ensures var row := rows[h];
      var asked := match phase
        case PREPARING => row.status == OBSERVED && row.event.blockNumber <= finalizedBlock
        case REQUESTING => row.status == RELEASE_PREPARED && row.authorization != None && row.spendPlan != None
        case SETTLING =>
          row.status in {RELEASE_REQUESTED, REDEEM_SUBMITTED} && row.releaseRequestId != None
          && row.authorization != None
        case BROADCASTING => row.status == REDEEM_COMPLETED && !(row.psbt == None && row.bitcoinTx == None);
      (h in keys ==> asked) && (asked && h !in keys ==> |keys| == limit)
  {
  }

  // ----- How a status moves -----

  /** The steps a status can take; FAILED and BTC_BROADCAST take none. */
  predicate CanBecome(a: RedeemStatus, b: RedeemStatus) {
    match a
    case OBSERVED => b == RELEASE_PREPARED || b == FAILED
    case RELEASE_PREPARED => b == RELEASE_REQUESTED || b == FAILED
    case RELEASE_REQUESTED => b == REDEEM_SUBMITTED || b == REDEEM_COMPLETED || b == FAILED
    case REDEEM_SUBMITTED => b == REDEEM_COMPLETED || b == FAILED
    case REDEEM_COMPLETED => b == BTC_BROADCAST
    case _ => false
  }

  function Rank(s: RedeemStatus): nat {
    match s
    case OBSERVED => 0
    case RELEASE_PREPARED => 1
    case RELEASE_REQUESTED => 2
    case REDEEM_SUBMITTED => 3
    case REDEEM_COMPLETED => 4
    case BTC_BROADCAST => 5
    case FAILED => 5
  }
}
