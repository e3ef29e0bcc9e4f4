/**
 The coinage transaction extension over its storage maps: `validate` only reads, `prepare` takes the
 coin or marks the alias, `post_dispatch_details` restores and locks, or clears the lock.
 */
module CoinExtension {
  import opened Common
  import opened CoinLocks

  /** What `prepare` hands to `post_dispatch_details`. */
  datatype Pre =
    | UsingCoin(id: AccountId, coin: Coin)
    | UsingOutput(key: AliasKey, counter: nat)

  class Extension {
    const base: nat
    var coinsByOwner: map<AccountId, Coin>
    var lockedCoins: map<AccountId, Lock>
    var aliasStates: map<AliasKey, AliasState>
    ghost var failures: map<AccountId, seq<nat>>
    ghost var admitted: map<AliasKey, seq<nat>>

    ghost function View(): State
      reads this
    {
      State(coinsByOwner, lockedCoins, aliasStates, failures, admitted)
    }

    constructor (base: nat)
      ensures this.base == base && View() == Genesis
    {
      this.base := base;
      coinsByOwner, lockedCoins, aliasStates := map[], map[], map[];
      failures, admitted := map[], map[];
    }

    /** The coin leaves storage, so nothing else in the block can use it. */
    method PrepareCoin(id: AccountId) returns (pre: Option<Pre>)
      modifies this`coinsByOwner
      ensures pre == (if id in old(coinsByOwner) then Some(UsingCoin(id, old(coinsByOwner)[id])) else None)
      ensures coinsByOwner == old(coinsByOwner) - {id}
    {
      if id !in coinsByOwner { return None; }
      pre := Some(UsingCoin(id, coinsByOwner[id]));
      coinsByOwner := coinsByOwner - {id};
    }

    method PostDispatch(pre: Pre, ok: bool, now: nat)
      modifies this`coinsByOwner, this`lockedCoins, this`aliasStates
      ensures pre.UsingCoin? ==> aliasStates == old(aliasStates)
      ensures pre.UsingCoin? && ok ==>
        lockedCoins == old(lockedCoins) - {pre.id} && coinsByOwner == old(coinsByOwner)
      ensures pre.UsingCoin? && !ok ==>
        && coinsByOwner == old(coinsByOwner)[pre.id := pre.coin]
        && lockedCoins == old(lockedCoins)[pre.id := FailedLock(base, old(LockOf(View(), pre.id)), now)]
      ensures pre.UsingOutput? ==>
        && coinsByOwner == old(coinsByOwner) && lockedCoins == old(lockedCoins)
        && aliasStates == if ok then old(aliasStates)
                          else old(aliasStates)[pre.key := Locked(LockFor(base, pre.counter, now))]
    {
      match pre
      case UsingCoin(id, coin) =>
        if ok {
          lockedCoins := lockedCoins - {id};
        } else {
          var previous := if id in lockedCoins then Some(lockedCoins[id]) else None;
          lockedCoins := lockedCoins[id := FailedLock(base, previous, now)];
          coinsByOwner := coinsByOwner[id := coin];
        }
      case UsingOutput(key, counter) =>
        if !ok {
          aliasStates := aliasStates[key := Locked(LockFor(base, counter, now))];
        }
    }

    /** A coin transaction from validation to post-dispatch. */
    method RunCoin(id: AccountId, env: Env) returns (r: Result)
      modifies this
      ensures Outcome(View(), r) == SpendCoin(base, old(View()), id, env)
    {
      hide FailedLock;
      ghost var s := View();
      if id in lockedCoins && env.now < lockedCoins[id].until { return Err(CoinTemporarilyLocked); }
      if id !in coinsByOwner { return Err(NoCoin); }
      if !env.checksOk { return Err(InvalidCall); }
      var pre := PrepareCoin(id);
      if env.dispatchOk {
        coinsByOwner := env.coinsAfter;  // a failed call is rolled back instead
      }
      PostDispatch(pre.value, env.dispatchOk, env.now);
      if env.dispatchOk {
        failures := failures - {id};
      } else {
        assert coinsByOwner == s.coins;
        failures := failures[id := Failures(s, id) + [env.now]];
      }
      r := Ok;
    }

    /** A transaction paid from the output of an alias, from validation to post-dispatch. */
    method RunOutput(key: AliasKey, counter: nat, env: Env) returns (r: Result)
      modifies this
      ensures Outcome(View(), r) == SpendOutput(base, old(View()), key, counter, env)
    {
      hide LockFor;
      ghost var s := View();
      if !env.checksOk { return Err(InvalidCall); }
      var expected := 0;
      if key in aliasStates {
        match aliasStates[key]
        case Unloaded => return Err(AlreadyUnloaded);
        case Locked(lock) =>
          if env.now < lock.until { return Err(AliasTemporarilyLocked); }
          expected := NextRetry(lock);
      }
      if counter != expected { return Err(AliasTemporarilyLocked); }
      aliasStates := aliasStates[key := Unloaded];
      PostDispatch(UsingOutput(key, counter), env.dispatchOk, env.now);
      admitted := admitted[key := Admitted(s, key) + [counter]];
      r := Ok;
    }
  }
}
