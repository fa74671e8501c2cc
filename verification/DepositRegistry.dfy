/** Deposit intents and the one-time consumption of intents and Bitcoin outputs. */
module DepositRegistry {
  import opened BridgeTypes
  import opened Ownable

  datatype Registry = Registry(
    ownership: Ownership,
    bridgeDomain: Bytes32,
    depositIntents: map<Bytes32, DepositIntent>,
    depositExists: set<Bytes32>,
    depositConsumed: set<Bytes32>,
    utxoConsumed: set<Bytes32>,
    authorizedConsumers: set<Address>,
    consumerLocked: bool,
    lockedConsumer: Address)

  datatype RegistryCall =
    | CreateDepositIntent(intent: DepositIntent)
    | ConsumeDeposit(depositId: Bytes32, btcTxId: Bytes32, vout: Uint32, sats: Uint64)
    | SetAuthorizedConsumer(consumer: Address, allowed: bool)
    | LockAuthorizedConsumer(consumer: Address)
    | OwnRegistry(call: OwnerCall)

  predicate IsValidIntent(now: Uint64, i: DepositIntent) {
    && i.recipient0x != ZERO_ADDRESS && i.depositAddressHash != Word(0)
    && now <= i.expiry
    && match i.amountMode
       case EXACT => i.expectedSats != 0 && i.minSats == i.expectedSats && i.maxSats == i.expectedSats
       case ANY => i.minSats != 0 && i.maxSats != 0 && i.minSats <= i.maxSats
  }

  predicate MayConsume(r: Registry, caller: Address) {
    if r.consumerLocked then caller == r.lockedConsumer else caller in r.authorizedConsumers
  }

  function Consume(r: Registry, caller: Address, depositId: Bytes32, btcTxId: Bytes32,
                   vout: Uint32): Outcome<Registry> {
    if !MayConsume(r, caller) then Revert(Unauthorized)
    else if depositId !in r.depositExists then Revert(DepositIntentNotFound)
    else if depositId in r.depositConsumed then Revert(DepositAlreadyConsumed)
    else if UtxoKey(btcTxId, vout) in r.utxoConsumed then Revert(UtxoAlreadyConsumed)
    else Commit(r.(depositConsumed := r.depositConsumed + {depositId},
                   utxoConsumed := r.utxoConsumed + {UtxoKey(btcTxId, vout)}))
  }

  function CallRegistry(r: Registry, sender: Address, now: Uint64, call: RegistryCall): Outcome<Registry> {
    match call
    case CreateDepositIntent(intent) =>
      if !IsValidIntent(now, intent) then Revert(InvalidDepositIntent)
      else
        var id := DepositIdOf(r.bridgeDomain, intent);
        if id in r.depositExists then Revert(DepositIntentAlreadyExists)
        else Commit(r.(depositExists := r.depositExists + {id}, depositIntents := r.depositIntents[id := intent]))
    case ConsumeDeposit(depositId, btcTxId, vout, _) => Consume(r, sender, depositId, btcTxId, vout)
    case SetAuthorizedConsumer(consumer, allowed) =>
      if sender != r.ownership.owner then Revert(Unauthorized)
      else if r.consumerLocked then Revert(ConsumerConfigurationLocked)
      else Commit(r.(authorizedConsumers := if allowed then r.authorizedConsumers + {consumer}
                     else r.authorizedConsumers - {consumer}))
    case LockAuthorizedConsumer(consumer) =>
      if sender != r.ownership.owner then Revert(Unauthorized)
      else if r.consumerLocked then Revert(ConsumerConfigurationLocked)
      else if consumer == ZERO_ADDRESS then Revert(InvalidConsumer)
      else Commit(r.(lockedConsumer := consumer, consumerLocked := true,
                     authorizedConsumers := r.authorizedConsumers + {consumer}))
    case OwnRegistry(call) =>
      match CallOwnable(r.ownership, sender, call)
      case Revert(e) => Revert(e)
      case Commit(o) => Commit(r.(ownership := o))
  }

  class DepositRegistryContract {
    const ownable: OwnableContract
    const bridgeDomain: Bytes32
    var depositIntents: map<Bytes32, DepositIntent>
    var depositExists: set<Bytes32>
    var depositConsumed: set<Bytes32>
    var utxoConsumed: set<Bytes32>
    var authorizedConsumers: set<Address>
    var consumerLocked: bool
    var lockedConsumer: Address

    function State(): Registry
      reads this, ownable
    {
      Registry(ownable.State(), bridgeDomain, depositIntents, depositExists, depositConsumed, utxoConsumed,
               authorizedConsumers, consumerLocked, lockedConsumer)
    }

    constructor (initialBridgeDomain: Bytes32, initialOwner: Address)
      requires initialOwner != ZERO_ADDRESS
      ensures State() == Registry(Ownership(initialOwner, ZERO_ADDRESS), initialBridgeDomain,
                                  map[], {}, {}, {}, {}, false, ZERO_ADDRESS)
      ensures fresh(ownable)
    {
      ownable := new OwnableContract(initialOwner);
      bridgeDomain := initialBridgeDomain;
      depositIntents, depositExists, depositConsumed, utxoConsumed := map[], {}, {}, {};
      authorizedConsumers, consumerLocked, lockedConsumer := {}, false, ZERO_ADDRESS;
    }

    method SetAuthorizedConsumer(sender: Address, consumer: Address, allowed: bool, now: Uint64)
      returns (error: Option<Error>)
      modifies this
      ensures Did(CallRegistry(old(State()), sender, now, RegistryCall.SetAuthorizedConsumer(consumer, allowed)),
                  old(State()), State(), error)
    {
      if sender != ownable.owner {
        return Some(Unauthorized);
      }
      if consumerLocked {
        return Some(ConsumerConfigurationLocked);
      }
      authorizedConsumers := if allowed then authorizedConsumers + {consumer} else authorizedConsumers - {consumer};
      return None;
    }

    method LockAuthorizedConsumer(sender: Address, consumer: Address, now: Uint64) returns (error: Option<Error>)
      modifies this
      ensures Did(CallRegistry(old(State()), sender, now, RegistryCall.LockAuthorizedConsumer(consumer)), old(State()),
                  State(), error)
    {
      if sender != ownable.owner {
        return Some(Unauthorized);
      }
      if consumerLocked {
        return Some(ConsumerConfigurationLocked);
      }
      if consumer == ZERO_ADDRESS {
        return Some(InvalidConsumer);
      }
      lockedConsumer := consumer;
      consumerLocked := true;
      authorizedConsumers := authorizedConsumers + {consumer};
      return None;
    }

    method CreateDepositIntent(sender: Address, now: Uint64, intent: DepositIntent)
      returns (error: Option<Error>, depositId: Bytes32)
      modifies this
      ensures Did(CallRegistry(old(State()), sender, now, RegistryCall.CreateDepositIntent(intent)), old(State()),
                  State(), error)
      ensures error.None? ==> depositId == DepositIdOf(bridgeDomain, intent)
    {
      depositId := Word(0);
      var valid := ValidateIntent(now, intent);
      if !valid {
        return Some(InvalidDepositIntent), depositId;
      }
      depositId := DepositIdOf(bridgeDomain, intent);
      if depositId in depositExists {
        return Some(DepositIntentAlreadyExists), depositId;
      }
      depositExists := depositExists + {depositId};
      depositIntents := depositIntents[depositId := intent];
      return None, depositId;
    }

    method ValidateIntent(now: Uint64, intent: DepositIntent) returns (valid: bool)
      ensures valid == IsValidIntent(now, intent)
    {
      if intent.recipient0x == ZERO_ADDRESS || intent.depositAddressHash == Word(0) {
        return false;
      }
      if now > intent.expiry {
        return false;
      }
      if intent.amountMode == EXACT {
        return !(intent.expectedSats == 0 || intent.minSats != intent.expectedSats
                 || intent.maxSats != intent.expectedSats);
      }
      return !(intent.minSats == 0 || intent.maxSats == 0 || intent.maxSats < intent.minSats);
    }

    method ConsumeDeposit(sender: Address, now: Uint64, depositId: Bytes32, btcTxId: Bytes32, vout: Uint32,
                          sats: Uint64)
      returns (error: Option<Error>, utxoKey: Bytes32)
      modifies this
      ensures Did(CallRegistry(old(State()), sender, now, RegistryCall.ConsumeDeposit(depositId, btcTxId, vout, sats)),
                  old(State()), State(), error)
      ensures error.None? ==> utxoKey == UtxoKey(btcTxId, vout)
    {
      utxoKey := Word(0);
      if consumerLocked {
        if sender != lockedConsumer {
          return Some(Unauthorized), utxoKey;
        }
      } else if sender !in authorizedConsumers {
        return Some(Unauthorized), utxoKey;
      }
      if depositId !in depositExists {
        return Some(DepositIntentNotFound), utxoKey;
      }
      if depositId in depositConsumed {
        return Some(DepositAlreadyConsumed), utxoKey;
      }
      utxoKey := UtxoKey(btcTxId, vout);
      if utxoKey in utxoConsumed {
        return Some(UtxoAlreadyConsumed), utxoKey;
      }
      depositConsumed := depositConsumed + {depositId};
      utxoConsumed := utxoConsumed + {utxoKey};
      return None, utxoKey;
    }
  }

  /** Every stored intent is the one its identifier names, and only stored intents are consumed. */
  ghost predicate WellKept(r: Registry) {
    && r.depositExists == r.depositIntents.Keys
    && r.depositConsumed <= r.depositExists
    && (forall id | id in r.depositIntents ::
          id == DepositIdOf(r.bridgeDomain, r.depositIntents[id]) && r.depositIntents[id].recipient0x != ZERO_ADDRESS)
  }

  /**
    An intent is stored for a recipient, an address, an expiry not yet past and amounts that fit its
    mode, unless it is stored already; its identifier then names it, and nothing else changes.
   */
  lemma IntentIsStored(r: Registry, sender: Address, now: Uint64, i: DepositIntent)
    requires WellKept(r)
    ensures var q := CallRegistry(r, sender, now, CreateDepositIntent(i));
      && (q.Commit? <==>
           && i.recipient0x != ZERO_ADDRESS && i.depositAddressHash != Word(0) && now <= i.expiry
           && (i.amountMode == EXACT ==> 0 < i.expectedSats == i.minSats == i.maxSats)
           && (i.amountMode == ANY ==> 0 < i.minSats <= i.maxSats)
           && i !in r.depositIntents.Values)
      && (q.Revert? ==> q.error == if i in r.depositIntents.Values && i.recipient0x != ZERO_ADDRESS
                                      && i.depositAddressHash != Word(0) && now <= i.expiry
                                      && (i.amountMode == EXACT ==> 0 < i.expectedSats == i.minSats == i.maxSats)
                                      && (i.amountMode == ANY ==> 0 < i.minSats <= i.maxSats)
                                   then DepositIntentAlreadyExists else InvalidDepositIntent)
      && (q.Commit? ==>
           var id := DepositIdOf(r.bridgeDomain, i);
           && id !in r.depositIntents
           && q.state == r.(depositIntents := r.depositIntents[id := i], depositExists := r.depositExists + {id}))
  {
    hide DepositIdOf;
    var id := DepositIdOf(r.bridgeDomain, i);
    if id in r.depositIntents {
      DepositIdIsInjective(r.bridgeDomain, i, r.bridgeDomain, r.depositIntents[id]);
    }
  }

  /** The locked consumer, or before locking any consumer, uses up a stored deposit and a new output. */
  lemma DepositIsConsumed(r: Registry, sender: Address, now: Uint64, id: Bytes32, txId: Bytes32, vout: Uint32,
                          sats: Uint64)
    ensures var q := CallRegistry(r, sender, now, ConsumeDeposit(id, txId, vout, sats));
      && (q.Commit? <==>
           && (r.consumerLocked ==> sender == r.lockedConsumer)
           && (r.consumerLocked || sender in r.authorizedConsumers)
           && id in r.depositExists && id !in r.depositConsumed && UtxoKey(txId, vout) !in r.utxoConsumed)
      && (q.Revert? ==> q.error == if r.consumerLocked && sender != r.lockedConsumer then Unauthorized
                                   else if !r.consumerLocked && sender !in r.authorizedConsumers then Unauthorized
                                   else if id !in r.depositExists then DepositIntentNotFound
                                   else if id in r.depositConsumed then DepositAlreadyConsumed
                                   else UtxoAlreadyConsumed)
      && (q.Commit? ==> q.state == r.(depositConsumed := r.depositConsumed + {id},
                                      utxoConsumed := r.utxoConsumed + {UtxoKey(txId, vout)}))
  {
  }

  /** Only the owner, and only before locking, adds or removes one consumer, or locks one in that is added as well. */
  lemma ConsumersAreTheOwners(r: Registry, sender: Address, now: Uint64, consumer: Address, allowed: bool)
    ensures var q := CallRegistry(r, sender, now, SetAuthorizedConsumer(consumer, allowed));
      && (q.Commit? <==> sender == r.ownership.owner && !r.consumerLocked)
      && (q.Revert? ==> q.error == if sender != r.ownership.owner then Unauthorized else ConsumerConfigurationLocked)
      && (q.Commit? ==>
           && (forall who: Address ::
                who in q.state.authorizedConsumers
                <==> if who == consumer then allowed else who in r.authorizedConsumers)
           && q.state == r.(authorizedConsumers := q.state.authorizedConsumers))
    ensures var q := CallRegistry(r, sender, now, LockAuthorizedConsumer(consumer));
      && (q.Commit? <==> sender == r.ownership.owner && !r.consumerLocked && consumer != ZERO_ADDRESS)
      && (q.Revert? ==> q.error == if sender != r.ownership.owner then Unauthorized
                                   else if r.consumerLocked then ConsumerConfigurationLocked else InvalidConsumer)
      && (q.Commit? ==> q.state == r.(authorizedConsumers := r.authorizedConsumers + {consumer}, consumerLocked := true,
                                      lockedConsumer := consumer))
  {
  }

  /** No call replaces a stored intent or makes a consumed deposit or output consumable again. */
  lemma CallKeepsRegistry(r: Registry, sender: Address, now: Uint64, call: RegistryCall)
    requires WellKept(r) && CallRegistry(r, sender, now, call).Commit?
    ensures var r' := CallRegistry(r, sender, now, call).state;
      && WellKept(r') && r'.bridgeDomain == r.bridgeDomain
      && (forall id | id in r.depositIntents ::
           id in r'.depositIntents && r'.depositIntents[id] == r.depositIntents[id])
      && r.depositConsumed <= r'.depositConsumed && r.utxoConsumed <= r'.utxoConsumed
  {
  }

  /**
    Creating the same intent twice is refused, whoever asks and whenever: the identifier is taken
    for good, and it is the identifier of no other intent.
   */
  lemma IntentIsCreatedOnce(r: Registry, sender: Address, now: Uint64, i: DepositIntent, j: DepositIntent)
    requires WellKept(r) && DepositIdOf(r.bridgeDomain, i) in r.depositExists
    ensures CallRegistry(r, sender, now, CreateDepositIntent(i)).Revert?
    ensures DepositIdOf(r.bridgeDomain, j) == DepositIdOf(r.bridgeDomain, i) ==> j == i
    ensures r.depositIntents[DepositIdOf(r.bridgeDomain, i)] == i
  {
    var id := DepositIdOf(r.bridgeDomain, i);
    DepositIdIsInjective(r.bridgeDomain, i, r.bridgeDomain, r.depositIntents[id]);
    if DepositIdOf(r.bridgeDomain, j) == id {
      DepositIdIsInjective(r.bridgeDomain, i, r.bridgeDomain, j);
    }
  }
}
