/** Stored-value accounts: recharges and deductions as interleaved database transactions. */
module Wallet {
  import opened Wrappers
  import opened Transactions

  datatype Key = Key(tenantId: nat, holderId: nat)

  datatype Ref = Ref(kind: string, id: nat, no: string)

  datatype Account = Account(balance: int, recharged: int, spent: int)

  datatype Kind = Recharged | Spent

  datatype Txn = Txn(key: Key, kind: Kind, amount: int, balanceAfter: int, ref: Ref, remark: string)

  datatype Op = Recharge(key: Key, amount: int, remark: string) | Deduct(key: Key, amount: int, ref: Ref)

  const MAX_RECHARGE: int := 100_000_000

  const EMPTY: Account := Account(0, 0, 0)

  const RECHARGE_REF: Ref := Ref("recharge", 0, "")

  /** A deduction takes no more than the balance it read. */
  function Taken(seen: Option<Account>, amount: int): int {
    if seen.GetOr(EMPTY).balance > amount then amount else seen.GetOr(EMPTY).balance
  }

  function Credited(a: Account, amount: int): Account {
    Account(a.balance + amount, a.recharged + amount, a.spent)
  }

  function Debited(a: Account, amount: int): Account {
    Account(a.balance - amount, a.recharged, a.spent + amount)
  }

  /** The first statement opens a missing account; a second one for the same holder is refused by the
      unique index. */
  function Updated(op: Op, seen: Option<Account>, current: Option<Account>): Option<Account> {
    if seen.Some? != current.Some? then None
    else
      var now := current.GetOr(EMPTY);
      match op
      case Recharge(_, amount, _) => if 0 < amount <= MAX_RECHARGE then Some(Credited(now, amount)) else None
      case Deduct(_, amount, _) =>
        var take := Taken(seen, amount);
        if amount <= 0 then None
        else if take <= 0 then (if seen.None? then Some(now) else None)
        else if now.balance >= take then Some(Debited(now, take))
        else None
  }

  function Logged(op: Op, seen: Option<Account>, row: Account, ledger: seq<Txn>): seq<Txn> {
    match op
    case Recharge(key, amount, remark) => ledger + [Txn(key, Recharged, amount, row.balance, RECHARGE_REF, remark)]
    case Deduct(key, amount, ref) =>
      var take := Taken(seen, amount);
      if take <= 0 then ledger else ledger + [Txn(key, Spent, take, row.balance, ref, "")]
  }

  function WalletRules(): Rules<Key, Op, Account, seq<Txn>> {
    Rules((op: Op) => op.key,
          (op: Op, seen: Option<Account>, current: Option<Account>) => Updated(op, seen, current),
          (op: Op, seen: Option<Account>, row: Account, ledger: seq<Txn>) => Logged(op, seen, row, ledger),
          (op: Op, rows: map<Key, Account>, ledger: seq<Txn>) => (map[], ledger))
  }

  // ----- conservation -----

  function Sum(ledger: seq<Txn>, key: Key, kind: Kind): int {
    if ledger == [] then 0
    else
      var t := ledger[|ledger| - 1];
      Sum(ledger[..|ledger| - 1], key, kind) + if t.key == key && t.kind == kind then t.amount else 0
  }

  /** The running balance the ledger tells. */
  function LedgerBalance(ledger: seq<Txn>, key: Key): int {
    Sum(ledger, key, Recharged) - Sum(ledger, key, Spent)
  }

  predicate AccountOk(rows: map<Key, Account>, ledger: seq<Txn>, key: Key) {
    var a := Find(rows, key).GetOr(EMPTY);
    && a.balance == LedgerBalance(ledger, key) && a.balance >= 0
    && a.recharged == Sum(ledger, key, Recharged) && a.spent == Sum(ledger, key, Spent)
  }

  predicate EntryOk(ledger: seq<Txn>, i: nat)
    requires i < |ledger|
  {
    ledger[i].amount > 0 && ledger[i].balanceAfter == LedgerBalance(ledger[..i + 1], ledger[i].key)
  }

  ghost predicate Inv(rows: map<Key, Account>, ledger: seq<Txn>) {
    && (forall key :: AccountOk(rows, ledger, key))
    && (forall i: nat :: i < |ledger| ==> EntryOk(ledger, i))
  }

  lemma SumAppend(ledger: seq<Txn>, t: Txn, key: Key, kind: Kind)
    ensures Sum(ledger + [t], key, kind) == Sum(ledger, key, kind) + if t.key == key && t.kind == kind then t.amount else 0
  {
    assert (ledger + [t])[..|ledger|] == ledger;
  }

  lemma EntryKeepsInv(rows: map<Key, Account>, ledger: seq<Txn>, t: Txn, row: Account)
    requires Inv(rows, ledger) && t.amount > 0 && t.balanceAfter == row.balance >= 0
    requires
      var a := Find(rows, t.key).GetOr(EMPTY);
      row == if t.kind.Recharged? then Credited(a, t.amount) else Debited(a, t.amount)
    ensures Inv(rows[t.key := row], ledger + [t])
  {
    hide Sum;
    var after, rows' := ledger + [t], rows[t.key := row];
    assert AccountOk(rows, ledger, t.key);
    forall key: Key
      ensures AccountOk(rows', after, key)
    {
      assert AccountOk(rows, ledger, key);
      SumAppend(ledger, t, key, Recharged);
      SumAppend(ledger, t, key, Spent);
    }
    forall i: nat | i < |after|
      ensures EntryOk(after, i)
    {
      if i < |ledger| {
        assert EntryOk(ledger, i) && after[..i + 1] == ledger[..i + 1];
      } else {
        assert after[..i + 1] == after;
        assert AccountOk(rows', after, t.key);
      }
    }
  }

  lemma ApplyKeepsInv(rows: map<Key, Account>, ledger: seq<Txn>, e: Effect<Op, Account>)
    requires Inv(rows, ledger)
    ensures
      var after := Apply(WalletRules(), rows, ledger, e);
      Inv(after.0, after.1)
  {
    hide Sum, LedgerBalance;
    if e.Committed? {
      var key := e.op.key;
      var current := Find(rows, key);
      var updated := Updated(e.op, e.seen, current);
      if updated.Some? {
        assert AccountOk(rows, ledger, key);
        var logged := Logged(e.op, e.seen, updated.value, ledger);
        if logged != ledger {
          EntryKeepsInv(rows, ledger, logged[|ledger|], updated.value);
        } else {
          OpeningKeepsInv(rows, ledger, key);
        }
      }
    } else {
      assert rows + map[] == rows;
    }
  }

  lemma OpeningKeepsInv(rows: map<Key, Account>, ledger: seq<Txn>, key: Key)
    requires Inv(rows, ledger) && key !in rows
    ensures Inv(rows[key := EMPTY], ledger)
  {
    hide LedgerBalance, Sum;
    var rows' := rows[key := EMPTY];
    forall k: Key
      ensures AccountOk(rows', ledger, k)
    {
      assert AccountOk(rows, ledger, k);
    }
  }

  lemma {:induction false} SerialKeepsInv(rows: map<Key, Account>, ledger: seq<Txn>, es: seq<Effect<Op, Account>>)
    requires Inv(rows, ledger)
    ensures
      var after := Serial(WalletRules(), rows, ledger, es);
      Inv(after.0, after.1)
    decreases |es|
  {
    hide Inv, Apply;
    if es != [] {
      var before := Serial(WalletRules(), rows, ledger, es[..|es| - 1]);
      SerialKeepsInv(rows, ledger, es[..|es| - 1]);
      ApplyKeepsInv(before.0, before.1, es[|es| - 1]);
    }
  }

  const Start: Db<Key, Op, Account, seq<Txn>> := Db(map[], [], map[])

  lemma StartIsOk()
    ensures Inv(Start.rows, Start.side) && LocksOk(WalletRules(), Start)
  {
  }

  /** However recharges, deductions, waits and rollbacks interleave: an account's balance is what was
      recharged less what was spent, which is what its ledger sums to, and is never negative; every
      ledger entry is positive and shows the running balance up to and including itself. */
  lemma BalanceIsLedger(steps: seq<Step<Op>>, key: Key)
    ensures
      var s := Run(WalletRules(), Start, steps);
      var a := Find(s.rows, key).GetOr(EMPTY);
      && a.balance == a.recharged - a.spent == LedgerBalance(s.side, key) && a.balance >= 0
      && a.recharged == Sum(s.side, key, Recharged) && a.spent == Sum(s.side, key, Spent)
      && forall i: nat :: i < |s.side| ==>
           s.side[i].amount > 0 && s.side[i].balanceAfter == LedgerBalance(s.side[..i + 1], s.side[i].key)
  {
    hide Run, Serial, Sum, Effects;
    StartIsOk();
    RunIsSerial(WalletRules(), Start, steps);
    SerialKeepsInv(Start.rows, Start.side, Effects(WalletRules(), Start, steps));
    var s := Run(WalletRules(), Start, steps);
    assert AccountOk(s.rows, s.side, key);
    forall i: nat | i < |s.side|
      ensures s.side[i].amount > 0 && s.side[i].balanceAfter == LedgerBalance(s.side[..i + 1], s.side[i].key)
    {
      assert EntryOk(s.side, i);
    }
  }

  lemma {:induction false} UntouchedAccount(rows: map<Key, Account>, ledger: seq<Txn>, es: seq<Effect<Op, Account>>, key: Key)
    requires forall e :: e in es ==> !Touches(WalletRules(), e, key)
    ensures Find(Serial(WalletRules(), rows, ledger, es).0, key) == Find(rows, key)
    decreases |es|
  {
    if es != [] {
      UntouchedAccount(rows, ledger, es[..|es| - 1], key);
      assert es[|es| - 1] in es;
    }
  }

  /** From any moment of a run to its end an account stays as it was unless a recharge or deduction of its
      holder commits. */
  lemma ChangesAreCommitted(steps: seq<Step<Op>>, k: nat, key: Key)
    requires k <= |steps|
    requires Find(Run(WalletRules(), Start, steps).rows, key) != Find(Run(WalletRules(), Start, steps[..k]).rows, key)
    ensures exists e :: e in EffectsSince(WalletRules(), Start, steps, k) && Touches(WalletRules(), e, key)
  {
    hide Run, Serial, Effects, Touches;
    StartIsOk();
    RunIsSerial(WalletRules(), Start, steps[..k]);
    var mid := Run(WalletRules(), Start, steps[..k]);
    RunConcat(WalletRules(), Start, steps[..k], steps[k..]);
    assert steps[..k] + steps[k..] == steps;
    RunIsSerial(WalletRules(), mid, steps[k..]);
    if forall e :: e in EffectsSince(WalletRules(), Start, steps, k) ==> !Touches(WalletRules(), e, key) {
      UntouchedAccount(mid.rows, mid.side, Effects(WalletRules(), mid, steps[k..]), key);
    }
  }

  /** No transaction ever reads a negative balance. */
  lemma ReadsAreNotOverdrawn(steps: seq<Step<Op>>, id: nat)
    requires id in Run(WalletRules(), Start, steps).txs
    ensures Run(WalletRules(), Start, steps).txs[id].seen.GetOr(EMPTY).balance >= 0
  {
    hide Run, Sum, LedgerBalance;
    ReadsWereCommitted(WalletRules(), Start, steps, id);
    var tx := Run(WalletRules(), Start, steps).txs[id];
    var k: nat :| k <= |steps| && Find(Run(WalletRules(), Start, steps[..k]).rows, tx.op.key) == tx.seen;
    BalanceIsLedger(steps[..k], tx.op.key);
  }

  /** A deduction whose guarded update went through has taken the lesser of the amount asked for and the
      balance it had read, and the balance covered it at that moment. It fails for want of money exactly when
      the balance has meanwhile dropped below that. */
  lemma DeductionIsCovered(key: Key, amount: int, ref: Ref, seen: Account, current: Account)
    requires amount > 0 && seen.balance >= 0
    ensures
      var updated := Updated(Deduct(key, amount, ref), Some(seen), Some(current));
      && (updated.Some? ==>
            exists take :: 0 < take <= amount && take <= seen.balance && take <= current.balance
              && (take == amount || take == seen.balance) && updated.value == Debited(current, take))
      && (updated.None? <==> seen.balance == 0 || (current.balance < amount && current.balance < seen.balance))
  {
    var take := Taken(Some(seen), amount);
    if take > 0 && current.balance >= take {
      assert Updated(Deduct(key, amount, ref), Some(seen), Some(current)) == Some(Debited(current, take));
    }
  }

  // ----- the store as it runs -----

  datatype Error = InvalidAmount | InsufficientBalance

  class MemberStore {
    var rows: map<Key, Account>
    var ledger: seq<Txn>

    ghost predicate Valid()
      reads this
    {
      Inv(rows, ledger)
    }

    constructor ()
      ensures rows == map[] && ledger == [] && Valid()
    {
      rows, ledger := map[], [];
    }

    method EnsureAccount(key: Key) returns (account: Account)
      modifies this
      ensures account == Find(old(rows), key).GetOr(EMPTY) && rows == old(rows)[key := account]
      ensures ledger == old(ledger)
    {
      if key in rows {
        account := rows[key];
      } else {
        account := EMPTY;
      }
      rows := rows[key := account];
    }

    /** Run alone, a recharge is the committed effect of its transaction. */
    method Recharge(key: Key, amount: int, remark: string) returns (result: Result<Account, Error>)
      requires Valid()
      modifies this
      ensures Valid()
      ensures (rows, ledger) ==
        Apply(WalletRules(), old(rows), old(ledger), Committed(Op.Recharge(key, amount, remark), Find(old(rows), key)))
      ensures result == if 0 < amount <= MAX_RECHARGE then Success(Credited(Find(old(rows), key).GetOr(EMPTY), amount))
        else Failure(InvalidAmount)
      ensures result.Success? <==> 1 <= amount <= 100_000_000
      ensures
        if result.Success? then
          var before := if key in old(rows) then old(rows)[key] else Account(0, 0, 0);
          && result.value == Account(before.balance + amount, before.recharged + amount, before.spent)
          && rows == old(rows)[key := result.value]
          && ledger == old(ledger) + [Txn(key, Recharged, amount, before.balance + amount, Ref("recharge", 0, ""), remark)]
        else rows == old(rows) && ledger == old(ledger)
    {
      ApplyKeepsInv(rows, ledger, Committed(Op.Recharge(key, amount, remark), Find(rows, key)));
      if amount <= 0 || amount > MAX_RECHARGE {
        return Failure(InvalidAmount);
      }
      var current := EnsureAccount(key);
      rows := rows[key := Credited(rows[key], amount)];
      var account := rows[key];
      assert rows == old(rows)[key := account];
      ledger := ledger + [Txn(key, Recharged, amount, account.balance, RECHARGE_REF, remark)];
      result := Success(account);
    }

    /** Run alone, a deduction takes the lesser of the amount and the balance, and never fails. */
    method Deduct(key: Key, amount: int, ref: Ref) returns (result: Result<int, Error>)
      requires Valid()
      modifies this
      ensures Valid()
      ensures (rows, ledger) ==
        Apply(WalletRules(), old(rows), old(ledger), Committed(Op.Deduct(key, amount, ref), Find(old(rows), key)))
      ensures result == Success(if amount <= 0 then 0 else Taken(Find(old(rows), key), amount))
      ensures
        var before := if key in old(rows) then old(rows)[key] else Account(0, 0, 0);
        var take := if amount <= 0 then 0 else if before.balance < amount then before.balance else amount;
        && result == Success(take)
        && (take == 0 ==> ledger == old(ledger) && rows == if amount <= 0 then old(rows) else old(rows)[key := before])
        && (take != 0 ==>
              && rows == old(rows)[key := Account(before.balance - take, before.recharged, before.spent + take)]
              && ledger == old(ledger) + [Txn(key, Spent, take, before.balance - take, ref, "")])
    {
      ApplyKeepsInv(rows, ledger, Committed(Op.Deduct(key, amount, ref), Find(rows, key)));
      assert AccountOk(rows, ledger, key);
      if amount <= 0 {
        return Success(0);
      }
      var account := EnsureAccount(key);
      var deducted := account.balance;
      if deducted > amount {
        deducted := amount;
      }
      if deducted <= 0 {
        assert key in old(rows) ==> rows == old(rows);
        return Success(deducted);
      }
      if rows[key].balance < deducted {
        return Failure(InsufficientBalance);
      }
      rows := rows[key := Debited(rows[key], deducted)];
      var after := rows[key];
      assert rows == old(rows)[key := after];
      ledger := ledger + [Txn(key, Spent, deducted, after.balance, ref, "")];
      result := Success(deducted);
    }
  }
}
