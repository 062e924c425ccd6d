/** Who gets what: the effect of an accepted settlement batch and of a payout on every single account and counter. */
module LedgerEffects {
  import opened Wrappers
  import opened Periods
  import opened Ledger
  import opened LedgerBooks

  // ----- Settle

  /** The last counter a batch states for a triple, if any. */
  function LastSpent(items: seq<Settlement>, miner: Address, t: Triple): Option<int> {
    if items == [] then None
    else
      var item := items[|items| - 1];
      if Triple(item.client, miner, item.asset) == t then Some(item.cumulativeSpent)
      else LastSpent(items[..|items| - 1], miner, t)
  }

  function Or(v: Option<int>, default: int): int { if v.Some? then v.value else default }

  lemma {:induction false} SettleAllCounters(facts: Facts, s: State, miner: Address, work: int, items: seq<Settlement>, t: Triple)
    requires SettleAll(facts, s, miner, work, items).Ok?
    ensures var settled := SettleAll(facts, s, miner, work, items).value.settled;
            (if t in settled then Some(settled[t]) else None) == LastSpent(items, miner, t)
    decreases |items|
  {
    if items != [] {
      SettleAllCounters(facts, s, miner, work, items[..|items| - 1], t);
    }
  }

  lemma CreditedAt(s: State, owner: Address, credit: map<nat, int>, k: Account)
    ensures Get(s.balances + Credited(s, owner, credit), k)
         == Get(s.balances, k) + if k.owner == owner && k.asset.Issued? then Get(credit, k.asset.id) else 0
  {
    var credited := Credited(s, owner, credit);
    if k.owner == owner && k.asset.Issued? && k.asset.id in credit {
      assert k == Account(owner, Issued(k.asset.id)) && k in credited;
    } else {
      assert k !in credited;
    }
  }

  lemma PayFeeAt(s: State, diff: State, sender: Address, asset: Asset, fee: nat, k: Account)
    requires PayFee(s, diff, sender, asset, fee).Ok?
    ensures Get(s.balances + PayFee(s, diff, sender, asset, fee).value.balances, k)
         == Get(s.balances + diff.balances, k) - if k == Account(sender, asset) then fee else 0
  {
  }

  /** An accepted batch sets each counter it names to the last value it states for it, and no other; and it records work
    * for the enclave's validator in the current period alone.
    */
  lemma SettleCounters(facts: Facts, s: State, tx: Transaction, t: Triple, w: WorkKey)
    requires tx.Settle? && facts.periodLength > 0 && facts.height > 0 && SettleDiff(facts, s, tx).Ok?
    ensures tx.enclaveKey in facts.enclaves
    ensures var after := Overlay(s, SettleDiff(facts, s, tx).value);
            && Get(after.settled, t) == Or(LastSpent(tx.settlements, tx.sender, t), Get(s.settled, t))
            && (w != SettleWorkKey(facts, tx) ==> Get(after.work, w) == Get(s.work, w))
  {
    SettleLedgers(facts, s, tx);
    var acc, diff := SettleAcc(facts, s, tx), SettleDiff(facts, s, tx).value;
    SettleAllCounters(facts, s, tx.sender, Get(s.work, SettleWorkKey(facts, tx)), tx.settlements, t);
    hide SettleDiff, SettleAll, SettleAcc, LastSpent, Get;
    MergedAt(s.settled, acc.settled, t);
    MergedAt(s.work, map[SettleWorkKey(facts, tx) := acc.work], w);
  }

  lemma SettleLedgers(facts: Facts, s: State, tx: Transaction)
    requires tx.Settle? && facts.periodLength > 0 && facts.height > 0 && SettleDiff(facts, s, tx).Ok?
    ensures tx.enclaveKey in facts.enclaves
    ensures var acc, diff := SettleAcc(facts, s, tx), SettleDiff(facts, s, tx).value;
            && diff.settled == acc.settled && diff.work == map[SettleWorkKey(facts, tx) := acc.work]
            && SettleAll(facts, s, tx.sender, Get(s.work, SettleWorkKey(facts, tx)), tx.settlements) == Ok(acc)
  {
    SettleParts(facts, s, tx);
    hide SettleDiff, SettleAll, Credited, PayFee;
    PayFeeTouches(s, Earned(facts, s, tx), tx.sender, Hearth, tx.fee);
  }

  lemma MergedAt<K>(m: map<K, int>, diff: map<K, int>, k: K)
    ensures Get(m + diff, k) == if k in diff then diff[k] else Get(m, k)
  {
  }

  lemma SettleBalance(facts: Facts, s: State, tx: Transaction, k: Account)
    requires tx.Settle? && facts.periodLength > 0 && facts.height > 0 && SettleDiff(facts, s, tx).Ok?
    ensures Get(s.balances + SettleDiff(facts, s, tx).value.balances, k)
         == Get(s.balances, k)
            + (if k.owner == tx.sender && k.asset.Issued? then Get(SettleAcc(facts, s, tx).credit, k.asset.id) else 0)
            - (if k == Account(tx.sender, Hearth) then tx.fee else 0)
  {
    SettleParts(facts, s, tx);
    hide SettleDiff, SettleAll, Credited, PayFee, SettleAcc;
    PayFeeAt(s, Earned(facts, s, tx), tx.sender, Hearth, tx.fee, k);
    CreditedAt(s, tx.sender, SettleAcc(facts, s, tx).credit, k);
    hide Get;
  }

  lemma SettleShare(facts: Facts, s: State, tx: Transaction, a: nat)
    requires tx.Settle? && facts.periodLength > 0 && facts.height > 0 && SettleDiff(facts, s, tx).Ok?
    requires forall x :: 0 <= Get(s.settled, x)
    ensures Backed(facts.height >= facts.exactFrom, Get(SettleAcc(facts, s, tx).credit, a),
                   ServedTotal(Overlay(s, SettleDiff(facts, s, tx).value).settled, Issued(a)) - ServedTotal(s.settled, Issued(a)))
  {
    SettleParts(facts, s, tx);
    hide SettleDiff, SettleAll, Credited, PayFee, ServedTotal, BurnedTotal;
    PayFeeTouches(s, Earned(facts, s, tx), tx.sender, Hearth, tx.fee);
    SettleAllEarns(facts, s, tx.sender, Get(s.work, SettleWorkKey(facts, tx)), tx.settlements, a);
  }

  /** An accepted batch credits the settling miner alone, in each asset with the growth of the serving share, and charges
    * it the fee.
    */
  lemma SettleCredits(facts: Facts, s: State, tx: Transaction, k: Account)
    requires tx.Settle? && facts.periodLength > 0 && facts.height > 0 && SettleDiff(facts, s, tx).Ok?
    requires forall x :: 0 <= Get(s.settled, x)
    ensures var after := Overlay(s, SettleDiff(facts, s, tx).value);
            && (k.owner != tx.sender ==> Get(after.balances, k) == Get(s.balances, k))
            && (k == Account(tx.sender, Hearth) ==> Get(after.balances, k) == Get(s.balances, k) - tx.fee)
            && (k.owner == tx.sender && k.asset.Issued? ==>
                  Backed(facts.height >= facts.exactFrom, Get(after.balances, k) - Get(s.balances, k),
                         ServedTotal(after.settled, k.asset) - ServedTotal(s.settled, k.asset)))
  {
    SettleBalance(facts, s, tx, k);
    if k.asset.Issued? {
      SettleShare(facts, s, tx, k.asset.id);
    }
    hide SettleDiff, SettleAcc, ServedTotal, Get;
  }

  // ----- Payout

  /** What the payments bring to an account. */
  function PaidTo(payments: seq<Payment>, k: Account): int {
    if payments == [] then 0
    else
      var p := payments[|payments| - 1];
      PaidTo(payments[..|payments| - 1], k)
      + if Account(p.triple.client, Issued(p.triple.asset)) == k && p.amount > 0 then p.amount else 0
  }

  lemma CreditAt(balances: map<Account, int>, paid: map<Account, int>, account: Account, amount: int, k: Account)
    requires Credit(balances, paid, account, amount).Ok?
    ensures Get(balances + Credit(balances, paid, account, amount).value, k)
         == Get(balances + paid, k) + if account == k && amount > 0 then amount else 0
  {
  }

  lemma {:induction false} PayoutBalancesAt(balances: map<Account, int>, payments: seq<Payment>, k: Account)
    requires PayoutBalances(balances, payments).Ok?
    ensures Get(balances + PayoutBalances(balances, payments).value, k) == Get(balances, k) + PaidTo(payments, k)
    decreases |payments|
  {
    if payments != [] {
      var n := |payments| - 1;
      PayoutBalancesAt(balances, payments[..n], k);
      var p, paid := payments[n], PayoutBalances(balances, payments[..n]).value;
      hide Credit;
      CreditAt(balances, paid, Account(p.triple.client, Issued(p.triple.asset)), p.amount, k);
    }
  }

  lemma {:induction false} PayoutWithdrawnAt(withdrawn: map<Triple, int>, payments: seq<Payment>, p: Payment)
    requires Distinct(payments) && p in payments
    ensures Get(withdrawn + PayoutWithdrawn(withdrawn, payments), p.triple)
         == Get(withdrawn, p.triple) + if p.amount > 0 then p.amount else 0
    decreases |payments|
  {
    var n := |payments| - 1;
    var before := PayoutWithdrawn(withdrawn, payments[..n]);
    if p == payments[n] {
      PayoutWithdrawnKeys(withdrawn, payments[..n], p.triple);
      assert p.triple !in before;
    } else {
      var i :| 0 <= i < n && payments[i] == p;
      assert payments[..n][i] == p;
      PayoutWithdrawnAt(withdrawn, payments[..n], p);
    }
  }

  lemma PayoutWithdrawnOf(s: State, due: seq<Triple>, t: Triple)
    requires DueInOrder(s, due)
    ensures Get(s.withdrawn + PayoutWithdrawn(s.withdrawn, Payments(s, due)), t)
         == Get(s.withdrawn, t) + if t in due && Paid(s, t) > 0 then Paid(s, t) else 0
  {
    var payments := Payments(s, due);
    if t in due {
      var i :| 0 <= i < |due| && due[i] == t;
      assert payments[i] == Payment(t, Paid(s, t));
      PayoutWithdrawnAt(s.withdrawn, payments, payments[i]);
    } else {
      PayoutWithdrawnKeys(s.withdrawn, payments, t);
      assert t !in PayoutWithdrawn(s.withdrawn, payments);
    }
    hide PayoutWithdrawn, Paid;
  }

  /** A payout returns to each due request's client the lesser of what it asked for and what is still unsettled, records
    * exactly that as withdrawn, clears the request, and touches nothing else.
    */
  lemma PayoutEffect(s: State, due: seq<Triple>, t: Triple, k: Account)
    requires DueInOrder(s, due) && PayoutDiff(s, due).Ok?
    ensures var after := Overlay(s, PayoutDiff(s, due).value);
            && Get(after.balances, k) == Get(s.balances, k) + PaidTo(Payments(s, due), k)
            && Get(after.withdrawn, t) == Get(s.withdrawn, t) + (if t in due && Paid(s, t) > 0 then Paid(s, t) else 0)
            && PendingOf(after, t) == (if t in due then None else PendingOf(s, t))
            && after.reserved == s.reserved && after.settled == s.settled && after.work == s.work && after.fees == s.fees
  {
    PayoutBalancesAt(s.balances, Payments(s, due), k);
    PayoutWithdrawnOf(s, due, t);
    hide PayoutBalances, PaidTo, PayoutWithdrawn, Payments, Paid, Get;
    CountersUnchanged(s);
    MergeEmpty(s.work);
    MergeEmpty(s.fees);
  }
}
