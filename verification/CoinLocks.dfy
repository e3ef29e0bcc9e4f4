/**
 Coin authorization (pallets/coinage/src/extension.rs): validate, take the coin or mark the alias,
 dispatch, and on failure restore and lock with an exponential, saturating back-off. The dispatched
 call is an oracle that either succeeds with some effect or fails and rolls back.
 */
module CoinLocks {
  import opened Common

  type AccountId = nat
  type AliasKey = nat
  datatype Coin = Coin(instance: nat, value: nat, age: nat)

  const U8_MAX: nat := 255

  datatype Lock = Lock(retries: nat, until: nat)

  datatype AliasState = Locked(lock: Lock) | Unloaded

  /** Coins, coin locks and alias states, with the history of failures and admitted retry counters. */
  datatype State = State(
    coins: map<AccountId, Coin>,
    locks: map<AccountId, Lock>,
    aliases: map<AliasKey, AliasState>,
    failures: map<AccountId, seq<nat>>,
    admitted: map<AliasKey, seq<nat>>)

  /** Clock, whether the remaining checks pass, whether the call succeeds and what it does to coins. */
  datatype Env = Env(now: nat, checksOk: bool, dispatchOk: bool, coinsAfter: map<AccountId, Coin>)

  datatype Error = CoinTemporarilyLocked | NoCoin | InvalidCall | AlreadyUnloaded | AliasTemporarilyLocked
  datatype Result = Ok | Err(error: Error)
  datatype Outcome = Outcome(state: State, result: Result)

  // ----- lock arithmetic -----

  /** `failed_dispatch_lock_with_retries`: twice the base period for every retry, saturating. */
  function LockFor(base: nat, retries: nat, now: nat): Lock {
    Lock(retries, AddSat(now, MulSat(Min(Pow2(retries), U64_MAX), base, U64_MAX), U64_MAX))
  }

  /** `next_failed_dispatch_retry`. */
  function NextRetry(l: Lock): nat { AddSat(l.retries, 1, U8_MAX) }

  function FailedLock(base: nat, previous: Option<Lock>, now: nat): Lock {
    LockFor(base, if previous.Some? then NextRetry(previous.value) else 0, now)
  }

  // ----- spending a coin -----

  function LockOf(s: State, id: AccountId): Option<Lock> { if id in s.locks then Some(s.locks[id]) else None }

  function Failures(s: State, id: AccountId): seq<nat> { if id in s.failures then s.failures[id] else [] }

  function ValidateCoin(s: State, id: AccountId, env: Env): Result {
    if id in s.locks && env.now < s.locks[id].until then Err(CoinTemporarilyLocked)
    else if id !in s.coins then Err(NoCoin)
    else if !env.checksOk then Err(InvalidCall)
    else Ok
  }

  /** `prepare`: the coin leaves storage. */
  function Taken(s: State, id: AccountId): State { s.(coins := s.coins - {id}) }

  /** The dispatched call: any effect on coins, or a rollback to what it found. */
  function Dispatched(s: State, env: Env): State { if env.dispatchOk then s.(coins := env.coinsAfter) else s }

  /** `post_dispatch_details`: unlock, or put the coin back and lock it. */
  function PostCoin(base: nat, s: State, id: AccountId, coin: Coin, env: Env): State {
    if env.dispatchOk then s.(locks := s.locks - {id}, failures := s.failures - {id})
    else
      s.(coins := s.coins[id := coin],
         locks := s.locks[id := FailedLock(base, LockOf(s, id), env.now)],
         failures := s.failures[id := Failures(s, id) + [env.now]])
  }

  /** A whole transaction under a coin. */
  function SpendCoin(base: nat, s: State, id: AccountId, env: Env): Outcome {
    var verdict := ValidateCoin(s, id, env);
    if verdict != Ok then Outcome(s, verdict)
    else Outcome(PostCoin(base, Dispatched(Taken(s, id), env), id, s.coins[id], env), Ok)
  }

  // ----- paying from the output of an alias -----

  function Admitted(s: State, k: AliasKey): seq<nat> { if k in s.admitted then s.admitted[k] else [] }

  /** `ensure_alias_available` and the retry-counter check. */
  function ValidateAlias(s: State, k: AliasKey, counter: nat, env: Env): Result {
    if !env.checksOk then Err(InvalidCall)
    else if k in s.aliases && s.aliases[k].Unloaded? then Err(AlreadyUnloaded)
    else if k in s.aliases && env.now < s.aliases[k].lock.until then Err(AliasTemporarilyLocked)
    else if counter != (if k in s.aliases then NextRetry(s.aliases[k].lock) else 0) then Err(AliasTemporarilyLocked)
    else Ok
  }

  /** A whole transaction paid from an alias: reserve it, then keep it unloaded or lock it again. */
  function SpendOutput(base: nat, s: State, k: AliasKey, counter: nat, env: Env): Outcome {
    var verdict := ValidateAlias(s, k, counter, env);
    if verdict != Ok then Outcome(s, verdict)
    else
      Outcome(s.(aliases := s.aliases[k := if env.dispatchOk then Unloaded else Locked(LockFor(base, counter, env.now))],
                 admitted := s.admitted[k := Admitted(s, k) + [counter]]), Ok)
  }

  /** Another unload consumes the alias as one of its inputs. */
  function UnloadAlias(s: State, k: AliasKey, env: Env): Outcome {
    if k in s.aliases && s.aliases[k].Unloaded? then Outcome(s, Err(AlreadyUnloaded))
    else if k in s.aliases && env.now < s.aliases[k].lock.until then Outcome(s, Err(AliasTemporarilyLocked))
    else Outcome(s.(aliases := s.aliases[k := Unloaded]), Ok)
  }

  // ----- runs -----

  datatype Op =
    | OpSpendCoin(id: AccountId)
    | OpSpendOutput(key: AliasKey, counter: nat)
    | OpUnload(key: AliasKey)
    | OpMintOrBurn  // other calls change who holds coins

  datatype Step = Step(op: Op, env: Env)

  function Perform(base: nat, s: State, op: Op, env: Env): Outcome {
    match op
    case OpSpendCoin(id) => SpendCoin(base, s, id, env)
    case OpSpendOutput(k, counter) => SpendOutput(base, s, k, counter, env)
    case OpUnload(k) => UnloadAlias(s, k, env)
    case OpMintOrBurn => Outcome(s.(coins := env.coinsAfter), Ok)
  }

  const Genesis := State(map[], map[], map[], map[], map[])

  function StateAt(base: nat, steps: seq<Step>, n: nat): State
    requires n <= |steps|
  {
    if n == 0 then Genesis else Perform(base, StateAt(base, steps, n - 1), steps[n - 1].op, steps[n - 1].env).state
  }

  // ----- a failed dispatch gives the coin back -----

  /** What `prepare` took and the rollback did not return, `post_dispatch_details` puts back. */
  lemma FailureRestoresCoin(base: nat, s: State, id: AccountId, env: Env)
    requires ValidateCoin(s, id, env) == Ok && !env.dispatchOk
    ensures id !in Taken(s, id).coins
    ensures var t := SpendCoin(base, s, id, env).state;
      && t.coins == s.coins && t.aliases == s.aliases
      && id in t.locks && t.locks - {id} == s.locks - {id}
      && t.locks[id].until >= Min(env.now, U64_MAX)
  {
    assert (s.coins - {id})[id := s.coins[id]] == s.coins;
  }

  // ----- back-off -----

  /** The time a lock of the `k`-th consecutive failure ends. */
  function LockEnd(base: nat, k: nat, at: nat): nat { LockFor(base, Min(k, U8_MAX), at).until }

  /** Every failure of a streak waited for the lock of the one before, and the last lock stands. */
  ghost predicate Backed(base: nat, s: State, id: AccountId) {
    var f := Failures(s, id);
    && (forall k :: 0 <= k < |f| - 1 ==> f[k + 1] >= LockEnd(base, k, f[k]))
    && (if f == [] then id !in s.locks
        else id in s.locks && s.locks[id] == LockFor(base, Min(|f| - 1, U8_MAX), f[|f| - 1]))
  }

  lemma SpendKeepsBacked(base: nat, s: State, who: AccountId, env: Env, id: AccountId)
    requires Backed(base, s, id)
    ensures Backed(base, SpendCoin(base, s, who, env).state, id)
  {
    hide Pow2, LockFor;
    var t := SpendCoin(base, s, who, env).state;
    if who == id && t != s && !env.dispatchOk {
      var f, g := Failures(s, id), Failures(t, id);
      assert g == f + [env.now];
      LockRetries(base, s, id);
      forall k | 0 <= k < |g| - 1 ensures g[k + 1] >= LockEnd(base, k, g[k]) {
        if k + 1 == |f| { assert s.locks[id].until == LockEnd(base, k, f[k]); }
      }
    }
  }

  lemma LockRetries(base: nat, s: State, id: AccountId)
    requires Backed(base, s, id)
    ensures (if id in s.locks then NextRetry(s.locks[id]) else 0) == Min(|Failures(s, id)|, U8_MAX)
  {
    hide Pow2;
  }

  lemma {:induction false} AlwaysBacked(base: nat, steps: seq<Step>, n: nat, id: AccountId)
    requires n <= |steps|
    ensures Backed(base, StateAt(base, steps, n), id)
  {
    hide Backed, SpendCoin;
    if n == 0 {
      NoFailures(base, Genesis, id);
    } else {
      AlwaysBacked(base, steps, n - 1, id);
      var s, op, env := StateAt(base, steps, n - 1), steps[n - 1].op, steps[n - 1].env;
      match op
      case OpSpendCoin(who) => SpendKeepsBacked(base, s, who, env, id);
      case _ => SameBacked(base, s, Perform(base, s, op, env).state, id);
    }
  }

  lemma NoFailures(base: nat, s: State, id: AccountId)
    requires id !in s.locks && id !in s.failures
    ensures Backed(base, s, id)
  {
  }

  lemma SameBacked(base: nat, s: State, t: State, id: AccountId)
    requires Backed(base, s, id) && t.locks == s.locks && t.failures == s.failures
    ensures Backed(base, t, id)
  {
    hide Pow2, LockFor;
  }

  lemma {:induction false} Pow2Grows(a: nat, b: nat)
    requires a <= b
    ensures Pow2(a) <= Pow2(b)
  {
    if a < b { Pow2Grows(a, b - 1); }
  }

  lemma {:induction false} Pow2Sum(a: nat, b: nat)
    ensures Pow2(a + b) == Pow2(a) * Pow2(b)
  {
    if a > 0 { Pow2Sum(a - 1, b); }
  }

  lemma Pow2Four()
    ensures Pow2(4) == 16
  {
  }

  lemma SixtyFourSaturates(n: nat)
    requires n >= 64
    ensures Pow2(n) > U64_MAX
  {
    hide Pow2;
    Pow2Four();
    Pow2Sum(4, 4);
    Pow2Sum(8, 8);
    Pow2Sum(16, 16);
    Pow2Sum(32, 32);
    Pow2Grows(64, n);
  }

  lemma ScaledUp(x: nat, base: nat)
    requires base > 0
    ensures base * x >= x
  {
    assert base * x == x + (base - 1) * x;
  }

  /** Saturating the factor first does not change a saturated product. */
  lemma SaturatedProduct(x: nat, base: nat)
    requires base > 0
    ensures MulSat(Min(x, U64_MAX), base, U64_MAX) == Min(base * x, U64_MAX)
  {
    ScaledUp(x, base);
    ScaledUp(U64_MAX, base);
    assert x * base == base * x && U64_MAX * base == base * U64_MAX;
  }

  lemma SumSaturates(at: nat, x: nat)
    ensures AddSat(at, Min(x, U64_MAX), U64_MAX) == Min(at + x, U64_MAX)
  {
  }

  /** One lock lasts exactly `2^k` base periods, up to the end of the clock, whatever saturates on the way. */
  lemma LockLasts(base: nat, k: nat, at: nat)
    ensures LockEnd(base, k, at) == Min(at + base * Pow2(k), U64_MAX)
  {
    hide Pow2;
    var r := Min(k, U8_MAX);
    if base > 0 {
      SaturatedProduct(Pow2(r), base);
      SumSaturates(at, base * Pow2(r));
      if k > U8_MAX {
        SixtyFourSaturates(r);
        SixtyFourSaturates(k);
        ScaledUp(Pow2(r), base);
        ScaledUp(Pow2(k), base);
      }
    } else {
      assert base * Pow2(k) == 0;
      assert MulSat(Min(Pow2(r), U64_MAX), base, U64_MAX) == 0;
    }
  }

  ghost predicate WaitsOut(base: nat, f: seq<nat>) {
    forall k :: 0 <= k < |f| - 1 ==> f[k + 1] >= LockEnd(base, k, f[k])
  }

  /** One more lock of `base * x` after a span of `base * (x - y)`. */
  lemma SpanStep(base: nat, first: nat, before: nat, now: nat, x: nat, y: nat)
    requires y <= x
    requires before >= Min(first + base * (x - y), U64_MAX)
    requires now >= Min(before + base * x, U64_MAX)
    ensures now >= Min(first + base * (2 * x - y), U64_MAX)
  {
    assert base * (x - y) == base * x - base * y;
    assert base * (2 * x - y) == 2 * (base * x) - base * y;
  }

  lemma NoSpan(base: nat, x: nat)
    ensures base * (x - x) == 0
  {
  }

  lemma Pow2Doubles(k: nat)
    requires k > 0
    ensures Pow2(k) == 2 * Pow2(k - 1)
  {
  }

  /** Between two failures of a streak pass all the locks in between. */
  lemma {:induction false} StreakSpans(base: nat, f: seq<nat>, j: nat, k: nat)
    requires WaitsOut(base, f) && j <= k < |f|
    ensures Pow2(j) <= Pow2(k)
    ensures f[k] >= Min(f[j] + base * (Pow2(k) - Pow2(j)), U64_MAX)
  {
    hide LockEnd, Pow2;
    Pow2Grows(j, k);
    if j < k {
      Pow2Grows(j, k - 1);
      Pow2Doubles(k);
      StreakSpans(base, f, j, k - 1);
      LockLasts(base, k - 1, f[k - 1]);
      assert f[k] >= LockEnd(base, k - 1, f[k - 1]);
      SpanStep(base, f[j], f[k - 1], f[k], Pow2(k - 1), Pow2(j));
    } else {
      NoSpan(base, Pow2(j));
    }
  }

  /** Later windows of a streak are longer: `2^(j+n-1) - 2^j` is at least `2^(n-1) - 1`. */
  lemma {:induction false} LaterWindow(j: nat, n: nat)
    requires n > 0
    ensures Pow2(j + n - 1) - Pow2(j) >= Pow2(n - 1) - 1
  {
    if n > 1 {
      LaterWindow(j, n - 1);
      Pow2Grows(n - 2, j + n - 2);
    }
  }

  lemma WindowSpans(base: nat, f: seq<nat>, j: nat, n: nat)
    requires WaitsOut(base, f) && 0 < n && j + n <= |f|
    ensures f[j + n - 1] >= Min(f[j] + base * (Pow2(n - 1) - 1), U64_MAX)
    ensures Pow2(j + n - 1) >= Pow2(j)
    ensures f[j + n - 1] >= Min(f[j] + base * (Pow2(j + n - 1) - Pow2(j)), U64_MAX)
  {
    hide WaitsOut, Pow2, Min;
    StreakSpans(base, f, j, j + n - 1);
    LaterWindow(j, n);
    ScaleGrows(base, Pow2(n - 1) - 1, Pow2(j + n - 1) - Pow2(j));
    LongerSpan(f[j], f[j + n - 1], base * (Pow2(n - 1) - 1), base * (Pow2(j + n - 1) - Pow2(j)));
  }

  /**
   Back-off. Any `n` consecutive failures of a coin without a success between them, the `j`-th of
   its streak onwards, span at least `base * (2^(n-1) - 1)` seconds, and `2^j` times as much, up to
   saturation of the 64-bit clock.
   */
  lemma FailuresSpreadOut(base: nat, steps: seq<Step>, m: nat, id: AccountId, j: nat, n: nat)
    requires m <= |steps| && 0 < n && j + n <= |Failures(StateAt(base, steps, m), id)|
    ensures var f := Failures(StateAt(base, steps, m), id);
      && f[j + n - 1] >= Min(f[j] + base * (Pow2(n - 1) - 1), U64_MAX)
      && Pow2(j + n - 1) >= Pow2(j)
      && f[j + n - 1] >= Min(f[j] + base * (Pow2(j + n - 1) - Pow2(j)), U64_MAX)
  {
    AlwaysBacked(base, steps, m, id);
    hide StateAt, Pow2, LockFor, LockEnd, Min;
    WindowSpans(base, Failures(StateAt(base, steps, m), id), j, n);
  }

  lemma LongerSpan(first: nat, now: nat, x: nat, y: nat)
    requires x <= y && now >= Min(first + y, U64_MAX)
    ensures now >= Min(first + x, U64_MAX)
  {
  }

  lemma ScaleGrows(base: nat, x: nat, y: nat)
    requires x <= y
    ensures base * x <= base * y
  {
    var d := y - x;
    assert base * (x + d) == base * x + base * d;
  }

  // ----- locks tell the run -----

  /** Step `j` of the run spent the coin of `id`, past validation. */
  ghost predicate Spent(base: nat, steps: seq<Step>, j: nat, id: AccountId)
    requires j < |steps|
  {
    steps[j].op == OpSpendCoin(id) && ValidateCoin(StateAt(base, steps, j), id, steps[j].env) == Ok
  }

  /** The times of the failed spends of a coin since its last successful one. */
  ghost function Streak(base: nat, steps: seq<Step>, n: nat, id: AccountId): seq<nat>
    requires n <= |steps|
  {
    if n == 0 then []
    else if !Spent(base, steps, n - 1, id) then Streak(base, steps, n - 1, id)
    else if steps[n - 1].env.dispatchOk then []
    else Streak(base, steps, n - 1, id) + [steps[n - 1].env.now]
  }

  lemma StepFailures(base: nat, s: State, op: Op, env: Env, id: AccountId)
    ensures Failures(Perform(base, s, op, env).state, id) ==
      if !(op == OpSpendCoin(id) && ValidateCoin(s, id, env) == Ok) then Failures(s, id)
      else if env.dispatchOk then []
      else Failures(s, id) + [env.now]
  {
    hide FailedLock, LockFor;
  }

  /**
   In every run a coin is locked iff a spend of it failed since the last success; the lock then is
   the one of the latest failure, with the number of failures before it as retries.
   */
  lemma {:induction false} LockTellsStreak(base: nat, steps: seq<Step>, n: nat, id: AccountId)
    requires n <= |steps|
    ensures var s, f := StateAt(base, steps, n), Streak(base, steps, n, id);
      && Failures(s, id) == f
      && (id in s.locks <==> f != [])
      && (f != [] ==> s.locks[id] == LockFor(base, Min(|f| - 1, U8_MAX), f[|f| - 1]))
  {
    AlwaysBacked(base, steps, n, id);
    hide Perform, LockFor, ValidateCoin;
    if n > 0 {
      LockTellsStreak(base, steps, n - 1, id);
      StepFailures(base, StateAt(base, steps, n - 1), steps[n - 1].op, steps[n - 1].env, id);
    }
  }

  /**
   In every run a coin that failed since its last success is refused as locked exactly until `2^k`
   base periods after the latest failure, `k` being the number of failures before it in the streak;
   and a coin that did not is never refused as locked.
   */
  lemma CoinRefusedIff(base: nat, steps: seq<Step>, n: nat, id: AccountId, env: Env)
    requires n <= |steps|
    ensures var f := Streak(base, steps, n, id);
      ValidateCoin(StateAt(base, steps, n), id, env) == Err(CoinTemporarilyLocked) <==>
        f != [] && env.now < Min(f[|f| - 1] + base * Pow2(|f| - 1), U64_MAX)
  {
    hide StateAt, Pow2, Streak, LockFor;
    LockTellsStreak(base, steps, n, id);
    var f := Streak(base, steps, n, id);
    if f != [] {
      LockLasts(base, |f| - 1, f[|f| - 1]);
      EndIsUntil(base, |f| - 1, f[|f| - 1]);
    }
  }

  lemma EndIsUntil(base: nat, k: nat, at: nat)
    ensures LockEnd(base, k, at) == LockFor(base, Min(k, U8_MAX), at).until
  {
    hide Pow2, LockFor;
  }

  /** Spending is accepted exactly for a present, unlocked coin past the checks; a refusal changes nothing. */
  lemma SpendAcceptedIff(base: nat, s: State, id: AccountId, env: Env)
    ensures var o := SpendCoin(base, s, id, env);
      && (o.result == Ok <==> (id in s.locks ==> s.locks[id].until <= env.now) && id in s.coins && env.checksOk)
      && (o.result != Ok ==> o.state == s)
      && (o.result == Ok && env.dispatchOk ==> o.state.coins == env.coinsAfter && o.state.aliases == s.aliases)
  {
    hide FailedLock;
  }

  // ----- alias locks -----

  /** Step `j` was a payment from the alias that passed validation and whose dispatch failed. */
  ghost predicate FailedOutputAt(base: nat, steps: seq<Step>, j: nat, k: AliasKey, counter: nat) {
    && j < |steps| && steps[j].op == OpSpendOutput(k, counter) && !steps[j].env.dispatchOk
    && ValidateAlias(StateAt(base, steps, j), k, counter, steps[j].env) == Ok
  }

  /**
   Paying from an alias is accepted exactly past the checks, with the next retry counter, while the
   alias is neither unloaded nor locked; it leaves it unloaded, or locked for `2^counter` base periods.
   */
  lemma OutputAcceptedIff(base: nat, s: State, k: AliasKey, counter: nat, env: Env)
    ensures var o := SpendOutput(base, s, k, counter, env);
      && (o.result == Ok <==>
            && env.checksOk
            && if k !in s.aliases then counter == 0
               else
                 && s.aliases[k].Locked? && s.aliases[k].lock.until <= env.now
                 && counter == Min(s.aliases[k].lock.retries + 1, 255))
      && (o.result != Ok ==> o.state == s)
      && (o.result == Ok ==>
            && counter <= 255
            && o.state.coins == s.coins && o.state.locks == s.locks
            && k in o.state.aliases && o.state.aliases - {k} == s.aliases - {k}
            && o.state.aliases[k] ==
                 if env.dispatchOk then Unloaded
                 else Locked(Lock(counter, Min(env.now + base * Pow2(counter), U64_MAX))))
  {
    hide Pow2, LockFor;
    if counter <= U8_MAX {
      LockLasts(base, counter, env.now);
      EndIsUntil(base, counter, env.now);
      LockCarries(base, counter, env.now);
    }
  }

  /** Unloading is accepted exactly for an alias neither unloaded nor still locked. */
  lemma UnloadAcceptedIff(s: State, k: AliasKey, env: Env)
    ensures var o := UnloadAlias(s, k, env);
      && (o.result == Ok <==> (k in s.aliases ==> s.aliases[k].Locked? && s.aliases[k].lock.until <= env.now))
      && (o.result != Ok ==> o.state == s)
      && (o.result == Ok ==> o.state == s.(aliases := s.aliases[k := Unloaded]))
  {
  }

  lemma StepOnAlias(base: nat, s: State, op: Op, env: Env, k: AliasKey)
    ensures var t := Perform(base, s, op, env).state;
      || ((k in t.aliases <==> k in s.aliases) && (k in s.aliases ==> t.aliases[k] == s.aliases[k]))
      || (k in t.aliases && t.aliases[k].Unloaded? && (op.OpSpendOutput? || op.OpUnload?) && op.key == k)
      || (op.OpSpendOutput? && op.key == k && !env.dispatchOk && ValidateAlias(s, k, op.counter, env) == Ok)
    ensures k in s.aliases && s.aliases[k].Unloaded? ==>
      k in Perform(base, s, op, env).state.aliases && Perform(base, s, op, env).state.aliases[k].Unloaded?
  {
    hide LockFor, FailedLock;
  }

  /** In every run a locked alias was locked by a failed payment, for `2^counter` base periods since. */
  lemma {:induction false} AliasLockTells(base: nat, steps: seq<Step>, n: nat, k: AliasKey)
    requires n <= |steps|
    requires k in StateAt(base, steps, n).aliases && StateAt(base, steps, n).aliases[k].Locked?
    ensures var lock := StateAt(base, steps, n).aliases[k].lock;
      exists j: nat :: j < n && FailedOutputAt(base, steps, j, k, lock.retries)
        && lock.until == Min(steps[j].env.now + base * Pow2(lock.retries), U64_MAX)
  {
    hide Perform, Pow2, ValidateAlias;
    if n > 0 {
      var s, op, env := StateAt(base, steps, n - 1), steps[n - 1].op, steps[n - 1].env;
      StepOnAlias(base, s, op, env, k);
      if k in s.aliases && StateAt(base, steps, n).aliases[k] == s.aliases[k] {
        AliasLockTells(base, steps, n - 1, k);
      } else {
        OutputIs(base, s, op.key, op.counter, env);
        OutputAcceptedIff(base, s, k, op.counter, env);
        assert FailedOutputAt(base, steps, n - 1, k, op.counter);
      }
    }
  }

  lemma OutputIs(base: nat, s: State, k: AliasKey, counter: nat, env: Env)
    ensures Perform(base, s, OpSpendOutput(k, counter), env) == SpendOutput(base, s, k, counter, env)
    ensures SpendOutput(base, s, k, counter, env).result == Ok <==> ValidateAlias(s, k, counter, env) == Ok
  {
    hide LockFor, ValidateAlias;
  }

  /** An unloaded alias stays unloaded, and every later payment from it or unload of it is refused. */
  lemma {:induction false} UnloadedForever(base: nat, steps: seq<Step>, n: nat, m: nat, k: AliasKey, counter: nat, env: Env)
    requires n <= m <= |steps|
    requires k in StateAt(base, steps, n).aliases && StateAt(base, steps, n).aliases[k].Unloaded?
    ensures var s := StateAt(base, steps, m);
      && k in s.aliases && s.aliases[k].Unloaded?
      && SpendOutput(base, s, k, counter, env).result != Ok
      && UnloadAlias(s, k, env) == Outcome(s, Err(AlreadyUnloaded))
  {
    hide Perform, LockFor;
    if n < m {
      UnloadedForever(base, steps, n, m - 1, k, counter, env);
      StepOnAlias(base, StateAt(base, steps, m - 1), steps[m - 1].op, steps[m - 1].env, k);
    }
  }

  // ----- retry counters -----

  /** Counters are admitted in order from zero; the last failure's lock carries the last counter. */
  ghost predicate CountersInOrder(base: nat, s: State, k: AliasKey) {
    var a := Admitted(s, k);
    && |a| <= U8_MAX + 1
    && (forall i :: 0 <= i < |a| ==> a[i] == i)
    && (a != [] ==> k in s.aliases)
    && (k in s.aliases && s.aliases[k].Locked? ==>
          && a != [] && s.aliases[k].lock.retries == |a| - 1
          && (|a| == U8_MAX + 1 ==> s.aliases[k].lock.until == U64_MAX))
  }

  lemma LastLockIsForever(base: nat, now: nat)
    requires base > 0
    ensures LockFor(base, U8_MAX, now).until == U64_MAX
  {
    SixtyFourSaturates(U8_MAX);
    assert U64_MAX * base >= U64_MAX;
  }

  lemma StepCountersInOrder(base: nat, s: State, op: Op, env: Env, k: AliasKey)
    requires base > 0 && CountersInOrder(base, s, k) && env.now < U64_MAX
    ensures CountersInOrder(base, Perform(base, s, op, env).state, k)
  {
    hide LockFor;
    if op.OpSpendOutput? && op.key == k {
      LastLockIsForever(base, env.now);
      LockCarries(base, op.counter, env.now);
    }
  }

  lemma LockCarries(base: nat, retries: nat, now: nat)
    ensures LockFor(base, retries, now).retries == retries
  {
  }

  lemma {:induction false} AlwaysInOrder(base: nat, steps: seq<Step>, n: nat, k: AliasKey)
    requires base > 0 && n <= |steps| && forall i :: 0 <= i < n ==> steps[i].env.now < U64_MAX
    ensures CountersInOrder(base, StateAt(base, steps, n), k)
  {
    hide Perform;
    if n > 0 {
      AlwaysInOrder(base, steps, n - 1, k);
      hide CountersInOrder;
      StepCountersInOrder(base, StateAt(base, steps, n - 1), steps[n - 1].op, steps[n - 1].env, k);
    }
  }

  /** No retry counter is admitted twice for one alias while the clock is below its maximum. */
  ghost predicate CountersOnce(base: nat) {
    forall steps: seq<Step>, k :: (forall i :: 0 <= i < |steps| ==> steps[i].env.now < U64_MAX) ==>
      NoDuplicates(Admitted(StateAt(base, steps, |steps|), k))
  }

  /** Failing attempts at time zero, each with the counter the lock before it expects. */
  function Hammer(n: nat): seq<Step> {
    seq(n, i requires 0 <= i < n => Step(OpSpendOutput(0, Min(i, U8_MAX)), Env(0, true, false, map[])))
  }

  lemma {:induction false} HammerState(n: nat, m: nat)
    requires m <= n
    ensures var s := StateAt(0, Hammer(n), m);
      && |Admitted(s, 0)| == m && (forall i :: 0 <= i < m ==> Admitted(s, 0)[i] == Min(i, U8_MAX))
      && (m == 0 ==> 0 !in s.aliases)
      && (m > 0 ==> 0 in s.aliases && s.aliases[0] == Locked(Lock(Min(m - 1, U8_MAX), 0)))
  {
    if m > 0 {
      HammerState(n, m - 1);
      hide Pow2;
      var s := StateAt(0, Hammer(n), m - 1);
      assert StateAt(0, Hammer(n), m) == Perform(0, s, Hammer(n)[m - 1].op, Hammer(n)[m - 1].env).state;
    }
  }

  /** The counters are single-use exactly when the base lock period is positive. */
  lemma CountersOnceIff(base: nat)
    ensures CountersOnce(base) <==> base > 0
  {
    if base > 0 {
      forall steps: seq<Step>, k | forall i :: 0 <= i < |steps| ==> steps[i].env.now < U64_MAX
        ensures NoDuplicates(Admitted(StateAt(base, steps, |steps|), k))
      {
        AlwaysInOrder(base, steps, |steps|, k);
      }
    } else {
      var n := U8_MAX + 2;
      HammerState(n, n);
      hide StateAt;
      var a := Admitted(StateAt(0, Hammer(n), |Hammer(n)|), 0);
      assert a[U8_MAX] == a[U8_MAX + 1];
      assert !NoDuplicates(a);
    }
  }
}
