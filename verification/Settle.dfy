/** Settlement: a coupon first, then the balance, the rest is paid. The two calls are separate transactions,
    so other transactions may commit before, between and during them. */
module Settle {
  import opened Wrappers
  import T = Transactions
  import Coupons
  import CouponStore
  import Wallet

  datatype Input = Input(tenantId: nat, holderId: nat, total: int, couponId: nat, useBalance: bool, ref: Wallet.Ref)

  datatype Settlement = Settlement(couponId: nat, couponName: string, discount: int, used: int, paid: int)

  datatype Error = CouponRefused(coupon: Coupons.Error) | BalanceRefused(balance: Wallet.Error)

  function ClaimOf(inp: Input, now: int): Coupons.Claim {
    Coupons.Claim(inp.couponId, inp.tenantId, inp.holderId, inp.total, inp.ref, None, now)
  }

  function KeyOf(inp: Input): Wallet.Key {
    Wallet.Key(inp.tenantId, inp.holderId)
  }

  function DeductOf(inp: Input, payable: int): Wallet.Op {
    Wallet.Deduct(KeyOf(inp), payable, inp.ref)
  }

  // ----- what the two transactions answer -----

  /** A row as a transaction read it, and as its guarded update found it. */
  datatype Met<T> = Met(seen: Option<T>, current: Option<T>)

  function ClaimReply(c: Coupons.Claim, met: Met<Coupons.Coupon>): Result<(int, string), Coupons.Error> {
    if Coupons.Refusal(met.seen, c).Some? then Failure(Coupons.Refusal(met.seen, c).value)
    else if Coupons.Updated(Coupons.Redeem(c), met.seen, met.current).None? then Failure(Coupons.CouponNotAvailable)
    else Success((met.seen.value.amount, met.seen.value.name))
  }

  /** A missing account is opened and pays nothing. */
  function DeductReply(op: Wallet.Op, met: Met<Wallet.Account>): Result<int, Wallet.Error>
    requires op.Deduct?
  {
    var take := Wallet.Taken(met.seen, op.amount);
    if op.amount <= 0 then Success(0)
    else if take <= 0 && met.seen.Some? then Success(take)
    else if Wallet.Updated(op, met.seen, met.current).None? then Failure(Wallet.InsufficientBalance)
    else Success(take)
  }

  /** What is left to pay after the coupon. */
  function Payable(inp: Input, coupon: Result<(int, string), Coupons.Error>): int
    requires inp.couponId > 0 ==> coupon.Success?
  {
    if inp.couponId > 0 then inp.total - coupon.value.0 else inp.total
  }

  function Settled(inp: Input, now: int, coupon: Met<Coupons.Coupon>, account: Met<Wallet.Account>): Result<Settlement, Error> {
    var claimed := ClaimReply(ClaimOf(inp, now), coupon);
    if inp.couponId > 0 && claimed.Failure? then Failure(CouponRefused(claimed.error))
    else
      var payable := Payable(inp, claimed);
      var discount, name := inp.total - payable, if inp.couponId > 0 then claimed.value.1 else "";
      if inp.useBalance && payable > 0 then
        match DeductReply(DeductOf(inp, payable), account)
        case Failure(error) => Failure(BalanceRefused(error))
        case Success(used) => Success(Settlement(inp.couponId, name, discount, used, inp.total - discount - used))
      else Success(Settlement(inp.couponId, name, discount, 0, inp.total - discount))
  }

  // ----- what every settlement satisfies -----

  /** Accounts never go below zero. */
  predicate NotOverdrawn(account: Met<Wallet.Account>) {
    account.seen.GetOr(Wallet.EMPTY).balance >= 0
  }

  /** Whatever else commits meanwhile: a settlement that returns adds up; its discount is the face value of
      the coupon it read; the spend it logs is the balance it reports, logged only when positive and
      never more than was left to pay; and it asks for a negative payment exactly when the coupon is worth
      more than the order. */
  lemma SettlementAddsUp(inp: Input, now: int, coupon: Met<Coupons.Coupon>, account: Met<Wallet.Account>, ledger: seq<Wallet.Txn>)
    requires Settled(inp, now, coupon, account).Success? && NotOverdrawn(account) && inp.total >= 0
    ensures
      var r := Settled(inp, now, coupon, account).value;
      && inp.total == r.discount + r.used + r.paid
      && (inp.couponId == 0 ==> r.discount == 0)
      && (inp.couponId > 0 ==> coupon.seen.Some? && r.discount == coupon.seen.value.amount && r.couponName == coupon.seen.value.name)
      && 0 <= r.used && (r.used > 0 ==> inp.useBalance && r.used <= inp.total - r.discount)
      && (r.paid < 0 <==> r.discount > inp.total)
    ensures
      var r := Settled(inp, now, coupon, account).value;
      var op := DeductOf(inp, inp.total - r.discount);
      r.used > 0 ==>
        && Wallet.Updated(op, account.seen, account.current).Some?
        && Wallet.Logged(op, account.seen, Wallet.Updated(op, account.seen, account.current).value, ledger) ==
             ledger + [Wallet.Txn(KeyOf(inp), Wallet.Spent, r.used, account.current.value.balance - r.used, inp.ref, "")]
  {
  }

  /** In any interleaved run of the wallet, the moment a settlement's deduction commits, the ledger gains the
      spend the settlement will report, with the balance it leaves. */
  lemma SpendRowMatchesReport(steps: seq<T.Step<Wallet.Op>>, id: nat, inp: Input, payable: int)
    requires payable > 0
    requires
      var s := T.Run(Wallet.WalletRules(), Wallet.Start, steps);
      id in s.txs && s.txs[id].Holding? && s.txs[id].op == DeductOf(inp, payable)
    ensures
      var s := T.Run(Wallet.WalletRules(), Wallet.Start, steps);
      var after := T.Next(Wallet.WalletRules(), s, T.Commit(id));
      var reply := DeductReply(DeductOf(inp, payable), Met(s.txs[id].seen, T.Find(s.rows, KeyOf(inp))));
      && reply.Success? && 0 <= reply.value <= payable
      && KeyOf(inp) in after.rows
      && after.rows[KeyOf(inp)].balance == T.Find(s.rows, KeyOf(inp)).GetOr(Wallet.EMPTY).balance - reply.value
      && after.side == s.side + (if reply.value == 0 then [] else
           [Wallet.Txn(KeyOf(inp), Wallet.Spent, reply.value, after.rows[KeyOf(inp)].balance, inp.ref, "")])
  {
    hide T.Run;
    Wallet.StartIsOk();
    Wallet.ReadsAreNotOverdrawn(steps, id);
    T.RunIsSerial(Wallet.WalletRules(), Wallet.Start, steps);
  }

  /** With nothing else committing in between, the balance covers what it can: money is left to pay only
      when the balance has been used up. */
  lemma BalanceIsUsedUp(inp: Input, now: int, coupon: Met<Coupons.Coupon>, account: Met<Wallet.Account>)
    requires Settled(inp, now, coupon, account).Success? && NotOverdrawn(account) && inp.useBalance
    requires account.seen == account.current
    ensures
      var r := Settled(inp, now, coupon, account).value;
      var balance, payable := account.current.GetOr(Wallet.EMPTY).balance, inp.total - r.discount;
      && (payable > 0 ==> r.paid == if balance >= payable then 0 else payable - balance)
      && (payable > 0 && r.paid > 0 ==> balance - r.used == 0)
  {
  }

  /** The guarded deduction finds less than it had read: an account that somebody else has opened meanwhile,
      or a balance that has dropped below both what was asked for and what was there. */
  predicate FellShort(account: Met<Wallet.Account>, payable: int) {
    match account.seen
    case None => account.current.Some?
    case Some(seen) =>
      seen.balance > 0
      && (account.current.None? || (account.current.value.balance < payable && account.current.value.balance < seen.balance))
  }

  /** The claim goes through: the coupon passed the check when it was read and is still unused. */
  predicate CouponTaken(inp: Input, now: int, coupon: Met<Coupons.Coupon>) {
    && coupon.seen.Some? && coupon.seen.value.tenantId == inp.tenantId && coupon.seen.value.holderId == inp.holderId
    && coupon.seen.value.status.Unused? && now <= coupon.seen.value.validUntil && coupon.seen.value.minSpend <= inp.total
    && coupon.current.Some? && coupon.current.value.status.Unused?
  }

  /** A settlement with a coupon fails at the coupon exactly when the claim does not go through: the coupon must be
      the holder's own, unused, valid and good for the total, at whichever shop, and must not be taken meanwhile. A
      claim that goes through leaves the settlement's time and reference on the coupon. */
  lemma FailureAtTheCoupon(inp: Input, now: int, coupon: Met<Coupons.Coupon>, account: Met<Wallet.Account>)
    ensures
      var result := Settled(inp, now, coupon, account);
      result.Failure? && result.error.CouponRefused? <==> inp.couponId > 0 && !CouponTaken(inp, now, coupon)
    ensures CouponTaken(inp, now, coupon) ==>
      Coupons.Updated(Coupons.Redeem(ClaimOf(inp, now)), coupon.seen, coupon.current) ==
        Some(coupon.current.value.(status := Coupons.Used, usedAt := Some(now), ref := inp.ref))
    ensures ClaimOf(inp, now).couponId == inp.couponId
  {
  }

  /** What the settlement then asks of the balance. */
  function LeftToPay(inp: Input, coupon: Met<Coupons.Coupon>): int
    requires inp.couponId > 0 ==> coupon.seen.Some?
  {
    if inp.couponId > 0 then inp.total - coupon.seen.value.amount else inp.total
  }

  /** A settlement fails at the balance exactly when its coupon went through, the balance was to be used for
      something, and the account fell short between the read and the update. The coupon then stays used,
      although nothing was settled. */
  lemma FailureAtTheBalance(inp: Input, now: int, coupon: Met<Coupons.Coupon>, account: Met<Wallet.Account>)
    requires NotOverdrawn(account)
    ensures
      var result := Settled(inp, now, coupon, account);
      result.Failure? && result.error.BalanceRefused? <==>
        && (inp.couponId > 0 ==> CouponTaken(inp, now, coupon))
        && inp.useBalance && LeftToPay(inp, coupon) > 0
        && FellShort(account, LeftToPay(inp, coupon))
    ensures
      var result, redeemed := Settled(inp, now, coupon, account), Coupons.Updated(Coupons.Redeem(ClaimOf(inp, now)), coupon.seen, coupon.current);
      result.Failure? && result.error.BalanceRefused? && inp.couponId > 0 ==> redeemed.Some? && redeemed.value.status.Used?
  {
  }

  /** In any interleaved run of the wallet, a settlement's deduction that comes to its update is refused
      exactly when its holder's account was opened since the deduction read it, or has lost so much since that it
      covers neither the amount nor the balance read. Then another transaction of that holder has
      committed in between, and the refused one leaves accounts and ledger alone. */
  lemma RefusalMeansInterference(steps: seq<T.Step<Wallet.Op>>, id: nat, k: nat, inp: Input, payable: int)
    requires payable > 0 && T.BegunAt(Wallet.WalletRules(), Wallet.Start, steps, id, k)
    requires
      var s := T.Run(Wallet.WalletRules(), Wallet.Start, steps);
      s.txs[id].Reading? && s.txs[id].op == DeductOf(inp, payable) && !T.Locked(Wallet.WalletRules(), s, KeyOf(inp))
    ensures
      var s, before := T.Run(Wallet.WalletRules(), Wallet.Start, steps), T.Run(Wallet.WalletRules(), Wallet.Start, steps[..k]).rows;
      var reply := DeductReply(DeductOf(inp, payable), Met(s.txs[id].seen, T.Find(s.rows, KeyOf(inp))));
      && (reply.Failure? <==>
            if KeyOf(inp) !in before then KeyOf(inp) in s.rows
            else
              && KeyOf(inp) in s.rows && before[KeyOf(inp)].balance > 0
              && s.rows[KeyOf(inp)].balance < payable && s.rows[KeyOf(inp)].balance < before[KeyOf(inp)].balance)
      && (reply.Failure? ==>
            exists e :: e in T.EffectsSince(Wallet.WalletRules(), Wallet.Start, steps, k) && T.Touches(Wallet.WalletRules(), e, KeyOf(inp)))
      && (reply.Failure? ==> T.Next(Wallet.WalletRules(), s, T.Update(id)) == s.(txs := s.txs - {id}))
  {
    hide T.Run, T.Locked, T.Touches, T.EffectsSince;
    var s, before := T.Run(Wallet.WalletRules(), Wallet.Start, steps), T.Run(Wallet.WalletRules(), Wallet.Start, steps[..k]).rows;
    Wallet.ReadsAreNotOverdrawn(steps, id);
    T.RunKeepsKeys(Wallet.WalletRules(), Wallet.Start, steps, k);
    if T.Find(s.rows, KeyOf(inp)) != T.Find(before, KeyOf(inp)) {
      Wallet.ChangesAreCommitted(steps, k, KeyOf(inp));
    }
  }

  // ----- the settlement as it runs -----

  class Checkout {
    const coupons: CouponStore.GormStore
    const wallet: Wallet.MemberStore

    constructor (coupons: CouponStore.GormStore, wallet: Wallet.MemberStore)
      ensures this.coupons == coupons && this.wallet == wallet
    {
      this.coupons, this.wallet := coupons, wallet;
    }

    /** Alone, a settlement answers as the two transactions do when each finds what it read. */
    method Apply(inp: Input, now: int) returns (result: Result<Settlement, Error>)
      requires coupons.Valid() && wallet.Valid()
      modifies coupons, wallet
      ensures coupons.Valid() && wallet.Valid()
      ensures
        var coupon, account := T.Find(old(coupons.rows), inp.couponId),
                            T.Find(old(wallet.rows), Wallet.Key(inp.tenantId, inp.holderId));
        result == Settled(inp, now, Met(coupon, coupon), Met(account, account))
      ensures coupons.State() ==
        if inp.couponId > 0
        then CouponStore.Do(old(coupons.State()), CouponStore.DoClaim(Coupons.Claim(
               inp.couponId, inp.tenantId, inp.holderId, inp.total, inp.ref, None, now))).0
        else old(coupons.State())
      ensures (wallet.rows, wallet.ledger) ==
        if result.Success? && inp.useBalance && inp.total > result.value.discount
        then T.Apply(Wallet.WalletRules(), old(wallet.rows), old(wallet.ledger),
                     T.Committed(Wallet.Op.Deduct(Wallet.Key(inp.tenantId, inp.holderId),
                                                  inp.total - result.value.discount, inp.ref),
                                 T.Find(old(wallet.rows), Wallet.Key(inp.tenantId, inp.holderId))))
        else (old(wallet.rows), old(wallet.ledger))
    {
      var settlement := Settlement(0, "", 0, 0, 0);
      var payable := inp.total;
      assert Wallet.AccountOk(wallet.rows, wallet.ledger, KeyOf(inp));
      if inp.couponId > 0 {
        var claimed := coupons.ClaimCoupon(ClaimOf(inp, now));
        if claimed.Failure? {
          return Failure(CouponRefused(claimed.error));
        }
        settlement := settlement.(couponId := inp.couponId, couponName := claimed.value.1, discount := claimed.value.0);
        payable := payable - claimed.value.0;
      }
      if inp.useBalance && payable > 0 {
        var used := wallet.Deduct(KeyOf(inp), payable, inp.ref);
        if used.Failure? {
          return Failure(BalanceRefused(Wallet.InsufficientBalance));
        }
        settlement := settlement.(used := used.value);
      }
      settlement := settlement.(paid := inp.total - settlement.discount - settlement.used);
      result := Success(settlement);
    }
  }
}
