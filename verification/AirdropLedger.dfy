/**
 The asset ledger the airdrop pallet calls into, reduced to what it observes: free balances per
 account and the pot's balance held under the airdrop reason. Every operation may refuse.
 */
module AirdropLedger {
  import opened Common
  import opened AirdropTypes

  datatype Ledger = Ledger(held: map<AssetId, nat>, free: map<(AssetId, AccountId), nat>)

  /** What the ledger answers to a release: a refusal, or a grant of at most `upTo`. */
  datatype Grant = Refused | Granted(upTo: nat)

  function Held(l: Ledger, a: AssetId): nat { if a in l.held then l.held[a] else 0 }

  function Free(l: Ledger, a: AssetId, who: AccountId): nat {
    if (a, who) in l.free then l.free[(a, who)] else 0
  }

  function Transfer(l: Ledger, a: AssetId, from: AccountId, to: AccountId, amount: nat, ok: bool): Option<Ledger> {
    if !ok || Free(l, a, from) < amount then None
    else
      var debited := l.(free := l.free[(a, from) := Free(l, a, from) - amount]);
      Some(debited.(free := debited.free[(a, to) := Free(debited, a, to) + amount]))
  }

  function Hold(l: Ledger, pot: AccountId, a: AssetId, amount: nat, ok: bool): Option<Ledger> {
    if !ok || Free(l, a, pot) < amount then None
    else Some(Ledger(l.held[a := Held(l, a) + amount], l.free[(a, pot) := Free(l, a, pot) - amount]))
  }

  function Unhold(l: Ledger, pot: AccountId, a: AssetId, amount: nat): Ledger
    requires amount <= Held(l, a)
  {
    Ledger(l.held[a := Held(l, a) - amount], l.free[(a, pot) := Free(l, a, pot) + amount])
  }

  /** `release` with `Precision::Exact`. */
  function ReleaseExact(l: Ledger, pot: AccountId, a: AssetId, amount: nat, grant: Grant): Option<Ledger> {
    if grant.Refused? || Held(l, a) < amount then None else Some(Unhold(l, pot, a, amount))
  }

  /** `release` with `Precision::BestEffort`: the released amount, unless refused. */
  function BestEffort(l: Ledger, a: AssetId, amount: nat, grant: Grant): Option<nat> {
    match grant
    case Refused => None
    case Granted(upTo) => Some(Min(Min(amount, Held(l, a)), upTo))
  }

  /** What a release of prize slots did: the ledger after it and what the source got back. */
  datatype PayBack = PayBack(ledger: Ledger, refunded: nat)

  /** `release_remaining_prizes`. */
  function ReleaseRemaining(cfg: Config, l: Ledger, source: Option<AccountId>, prize: Prize, count: nat,
                            grant: Grant, transferOk: bool): PayBack
  {
    if count == 0 then PayBack(l, 0)
    else
      match BestEffort(l, prize.assetId, MulSat(prize.assetAmount, count, cfg.balanceMax), grant)
      case None => PayBack(l, 0)
      case Some(released) =>
        var l1 := Unhold(l, cfg.pot, prize.assetId, released);
        if released == 0 || source.None? then PayBack(l1, 0)
        else
          match Transfer(l1, prize.assetId, cfg.pot, source.value, released, transferOk)
          case None => PayBack(l1, 0)
          case Some(l2) => PayBack(l2, released)
  }

  /** A release takes at most the slots' worth out of hold and leaves other assets alone. */
  lemma ReleaseBound(cfg: Config, l: Ledger, source: Option<AccountId>, prize: Prize, count: nat,
                     grant: Grant, transferOk: bool, a: AssetId)
    ensures var r := ReleaseRemaining(cfg, l, source, prize, count, grant, transferOk);
      && Held(r.ledger, a) + (if a == prize.assetId then prize.assetAmount * count else 0) >= Held(l, a)
  {
  }

  /** The answer of a ledger that refuses no release of up to `amount`. */
  predicate Willing(grant: Grant, amount: nat) {
    grant.Granted? && grant.upTo >= amount
  }

  /**
   A ledger that does not refuse the release lets go of exactly the slots' worth, whether or not the
   refund goes through; if it does, a source gets all of it.
   */
  lemma ReleaseExactWhenWilling(cfg: Config, l: Ledger, source: Option<AccountId>, prize: Prize, count: nat,
                                grant: Grant, transferOk: bool, a: AssetId)
    requires prize.assetAmount * count <= cfg.balanceMax
    requires prize.assetAmount * count <= Held(l, prize.assetId)
    requires Willing(grant, prize.assetAmount * count)
    ensures var r := ReleaseRemaining(cfg, l, source, prize, count, grant, transferOk);
      && Held(r.ledger, a) + (if a == prize.assetId then prize.assetAmount * count else 0) == Held(l, a)
      && r.refunded == if source.Some? && transferOk then prize.assetAmount * count else 0
  {
    var released := prize.assetAmount * count;
    if count > 0 {
      assert BestEffort(l, prize.assetId, released, grant) == Some(released);
      var l1 := Unhold(l, cfg.pot, prize.assetId, released);
      assert Free(l1, prize.assetId, cfg.pot) >= released;
    }
  }
}
