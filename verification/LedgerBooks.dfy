/** Nothing is created and nothing overdrawn: what every diff keeps of the reservation ledgers. */
module LedgerBooks {
  import opened Wrappers
  import opened Periods
  import opened Sums
  import opened Ledger

  // ----- Fees

  /** The fee leaves one balance and joins the fees paid. */
  lemma PayFeeMoves(s: State, diff: State, sender: Address, asset: Asset, fee: nat)
    requires PayFee(s, diff, sender, asset, fee).Ok? && diff.fees == map[]
    ensures var paid := PayFee(s, diff, sender, asset, fee).value;
            var before, account := s.balances + diff.balances, Account(sender, asset);
            && s.balances + paid.balances == before[account := Get(before, account) - fee]
            && s.fees + paid.fees == s.fees[asset := Get(s.fees, asset) + fee]
  {
    var before, account := s.balances + diff.balances, Account(sender, asset);
    MergeUpdate(s.balances, diff.balances, account, Get(before, account) - fee);
    MergeOne(s.fees, asset, Get(s.fees, asset) + fee);
    hide Get;
  }

  lemma PayFeeKeeps(s: State, diff: State, sender: Address, asset: Asset, fee: nat, a: Asset)
    requires PayFee(s, diff, sender, asset, fee).Ok? && diff.fees == map[]
    ensures var paid := PayFee(s, diff, sender, asset, fee).value;
            Supply(Overlay(s, paid), a) == Supply(Overlay(s, diff), a)
  {
    PayFeeTouches(s, diff, sender, asset, fee);
    PayFeeMoves(s, diff, sender, asset, fee);
    MergeEmpty(s.fees);
    var before, account := s.balances + diff.balances, Account(sender, asset);
    hide BalanceTotal, TripleTotal, ServedTotal, PayFee;
    BalanceTotalUpdate(before, account, Get(before, account) - fee, a);
  }

  // ----- Reserve

  lemma LockingKeeps(s: State, account: Account, t: Triple, amount: int, a: Asset)
    requires account.asset == Issued(t.asset)
    ensures Supply(Overlay(s, Locking(s, account, t, amount)), a) == Supply(s, a)
  {
    EmptyOverlay(s);
    var left, total := Get(s.balances, account) - amount, Get(s.reserved, t) + amount;
    MergeOne(s.balances, account, left);
    MergeOne(s.reserved, t, total);
    hide BalanceTotal, TripleTotal, ServedTotal, Get;
    BalanceTotalUpdate(s.balances, account, left, a);
    TripleTotalUpdate(s.reserved, t, total, a);
  }

  lemma ReserveKeeps(facts: Facts, s: State, tx: Transaction, a: Asset)
    requires tx.Reserve? && ReserveDiff(facts, s, tx).Ok?
    ensures Supply(Overlay(s, ReserveDiff(facts, s, tx).value), a) == Supply(s, a)
  {
    hide PayFee, Supply, Get;
    var account, t := Account(tx.sender, Issued(tx.asset)), Triple(tx.sender, tx.miner, tx.asset);
    LockingKeeps(s, account, t, tx.amount, a);
    PayFeeKeeps(s, Locking(s, account, t, tx.amount), tx.sender, tx.feeAsset, tx.fee, a);
  }

  lemma EmptyOverlay(s: State)
    ensures Overlay(s, EMPTY) == s
  {
    MergeEmpty(s.balances);
    MergeEmpty(s.reserved);
    MergeEmpty(s.pending);
    MergeEmpty(s.work);
    MergeEmpty(s.fees);
    CountersUnchanged(s);
  }

  lemma MergeUpdate<K, V>(a: map<K, V>, b: map<K, V>, k: K, v: V)
    ensures a + b[k := v] == (a + b)[k := v]
  {
  }

  lemma MergeOne<K, V>(m: map<K, V>, k: K, v: V)
    ensures m + map[k := v] == m[k := v]
  {
  }

  lemma MergeEmpty<K, V>(m: map<K, V>)
    ensures m + map[] == m
  {
  }

  // ----- Settle

  /** A batch so far: each counter moved up, within what is reserved and not withdrawn, and nothing debited. */
  ghost predicate AccBounds(s: State, miner: Address, acc: Accumulator) {
    && (forall t :: t in acc.settled ==>
          t.miner == miner && Get(s.settled, t) <= acc.settled[t] <= Settleable(s, t))
    && (forall a :: 0 <= Get(acc.credit, a))
  }

  lemma SettleOneBounds(facts: Facts, s: State, miner: Address, acc: Accumulator, item: Settlement)
    requires AccBounds(s, miner, acc) && SettleOne(facts, s, miner, acc, item).Ok?
    requires forall t :: 0 <= Get(s.settled, t)
    ensures AccBounds(s, miner, SettleOne(facts, s, miner, acc, item).value)
  {
    var t := Triple(item.client, miner, item.asset);
    var previous := if t in acc.settled then acc.settled[t] else Get(s.settled, t);
    assert 0 <= Share(SERVING_NODE_PART, facts.height >= facts.exactFrom, previous, item.cumulativeSpent);
    var after := SettleOne(facts, s, miner, acc, item).value;
    assert after.settled == acc.settled[t := item.cumulativeSpent];
    assert 0 <= Get(acc.credit, item.asset);
    assert Get(after.credit, item.asset) >= Get(acc.credit, item.asset);
    hide Share;
    forall a ensures 0 <= Get(after.credit, a) {
      assert a != item.asset ==> Get(after.credit, a) == Get(acc.credit, a);
    }
  }

  lemma {:induction false} SettleAllBounds(facts: Facts, s: State, miner: Address, work: int, items: seq<Settlement>)
    requires SettleAll(facts, s, miner, work, items).Ok? && forall t :: 0 <= Get(s.settled, t)
    ensures AccBounds(s, miner, SettleAll(facts, s, miner, work, items).value)
  {
    if items != [] {
      SettleAllBounds(facts, s, miner, work, items[..|items| - 1]);
      hide SettleOne, AccBounds;
      SettleOneBounds(facts, s, miner, SettleAll(facts, s, miner, work, items[..|items| - 1]).value,
                      items[|items| - 1]);
    }
  }

  /** Dividing first never earns more than the growth of the floored share. */
  lemma TruncatedIsLess(dividend: nat, previous: int, cumulative: int)
    requires 0 <= previous <= cumulative
    ensures Truncated(dividend, cumulative - previous) <= FloorOf(dividend, cumulative) - FloorOf(dividend, previous)
  {
    var d := cumulative - previous;
    var tens := d / 10;
    assert cumulative * dividend >= previous * dividend + 10 * (tens * dividend) by {
      assert d >= 10 * tens;
      assert cumulative * dividend == previous * dividend + d * dividend;
      assert d * dividend >= 10 * tens * dividend;
    }
    assert FloorOf(dividend, cumulative) >= (previous * dividend + 10 * (tens * dividend)) / 10;
  }

  ghost predicate Backed(exact: bool, amount: int, growth: int) {
    amount <= growth && (exact ==> amount == growth)
  }

  /** What a counter's move earns, in tenths. */
  lemma ShareEarned(exact: bool, previous: int, cumulative: int)
    requires 0 <= previous <= cumulative
    ensures Backed(exact, Share(SERVING_NODE_PART, exact, previous, cumulative), 3 * cumulative / 10 - 3 * previous / 10)
    ensures Backed(exact, Share(BURNED_WORK_PART, exact, previous, cumulative), 6 * cumulative / 10 - 6 * previous / 10)
  {
    TruncatedIsLess(3, previous, cumulative);
    TruncatedIsLess(6, previous, cumulative);
  }

  /** What a batch has earned so far against how far it has moved the counters. */
  ghost predicate AccEarned(exact: bool, s: State, work: int, acc: Accumulator, a: nat) {
    var after := s.settled + acc.settled;
    && Backed(exact, Get(acc.credit, a), ServedTotal(after, Issued(a)) - ServedTotal(s.settled, Issued(a)))
    && Backed(exact, acc.work - work, BurnedTotal(after) - BurnedTotal(s.settled))
  }

  lemma SettleOneEarns(facts: Facts, s: State, miner: Address, work: int, acc: Accumulator, item: Settlement, a: nat)
    requires SettleOne(facts, s, miner, acc, item).Ok?
    requires AccEarned(facts.height >= facts.exactFrom, s, work, acc, a)
    requires forall t :: 0 <= Get(s.settled, t) && 0 <= Get(s.settled + acc.settled, t)
    ensures AccEarned(facts.height >= facts.exactFrom, s, work, SettleOne(facts, s, miner, acc, item).value, a)
  {
    var t := Triple(item.client, miner, item.asset);
    var running := s.settled + acc.settled;
    var v := item.cumulativeSpent;
    MergeUpdate(s.settled, acc.settled, t, v);
    assert Get(running, t) == if t in acc.settled then acc.settled[t] else Get(s.settled, t);
    hide ServedTotal, BurnedTotal, Share, FloorOf, Truncated;
    ServedTotalUpdate(running, t, v, Issued(a));
    BurnedTotalUpdate(running, t, v);
    ShareEarned(facts.height >= facts.exactFrom, Get(running, t), v);
  }

  /** The credits of one batch, repeated clients included, add up to the growth of the floored shares. */
  lemma {:induction false} SettleAllEarns(facts: Facts, s: State, miner: Address, work: int, items: seq<Settlement>,
                                          a: nat)
    requires SettleAll(facts, s, miner, work, items).Ok? && forall t :: 0 <= Get(s.settled, t)
    ensures AccEarned(facts.height >= facts.exactFrom, s, work, SettleAll(facts, s, miner, work, items).value, a)
  {
    if items == [] {
      assert s.settled + map[] == s.settled;
    } else {
      var n := |items| - 1;
      SettleAllEarns(facts, s, miner, work, items[..n], a);
      SettleAllBounds(facts, s, miner, work, items[..n]);
      SettleOneEarns(facts, s, miner, work, SettleAll(facts, s, miner, work, items[..n]).value, items[n], a);
    }
  }

  /** Crediting one owner in several assets changes each asset's total by its own credit. */
  lemma CreditedTotal(s: State, owner: Address, credit: map<nat, int>, a: Asset)
    ensures BalanceTotal(s.balances + Credited(s, owner, credit), a) ==
            BalanceTotal(s.balances, a) + if a.Issued? then Get(credit, a.id) else 0
  {
    var credited := Credited(s, owner, credit);
    var after := s.balances + credited;
    var before := (k: Account) => if k.asset == a then Get(s.balances, k) else 0;
    var later := (k: Account) => if k.asset == a then Get(after, k) else 0;
    var mine := Account(owner, a);
    if a.Issued? && a.id in credit {
      assert mine in credited;
      SumUpdate(s.balances.Keys, before, later, mine);
      SumExtend(s.balances.Keys + {mine}, after.Keys, later);
    } else {
      SumSame(s.balances.Keys, before, later);
      SumExtend(s.balances.Keys, after.Keys, later);
    }
  }

  function SettleWorkKey(facts: Facts, tx: Transaction): WorkKey
    requires tx.Settle? && facts.periodLength > 0 && facts.height > 0 && tx.enclaveKey in facts.enclaves
  {
    WorkKey(facts.enclaves[tx.enclaveKey].validator, PeriodStart(facts.height, facts.periodLength))
  }

  function SettleAcc(facts: Facts, s: State, tx: Transaction): Accumulator
    requires tx.Settle? && facts.periodLength > 0 && facts.height > 0 && SettleDiff(facts, s, tx).Ok?
  {
    SettleAll(facts, s, tx.sender, Get(s.work, SettleWorkKey(facts, tx)), tx.settlements).value
  }

  /** An accepted batch, in the parts the books look at. */
  lemma SettleParts(facts: Facts, s: State, tx: Transaction)
    requires tx.Settle? && facts.periodLength > 0 && facts.height > 0 && SettleDiff(facts, s, tx).Ok?
    ensures tx.enclaveKey in facts.enclaves
    ensures var key := SettleWorkKey(facts, tx);
            && SettleAll(facts, s, tx.sender, Get(s.work, key), tx.settlements).Ok?
            && SettleDiff(facts, s, tx) == PayFee(s, Earned(facts, s, tx), tx.sender, Hearth, tx.fee)
            && FitsLong(Credited(s, tx.sender, SettleAcc(facts, s, tx).credit))
  {
    hide SettleAll, Credited, PayFee;
  }

  function Earned(facts: Facts, s: State, tx: Transaction): State
    requires tx.Settle? && facts.periodLength > 0 && facts.height > 0 && SettleDiff(facts, s, tx).Ok?
  {
    Earning(s, tx.sender, SettleWorkKey(facts, tx), SettleAcc(facts, s, tx))
  }

  lemma SettleKeeps(facts: Facts, s: State, tx: Transaction, a: Asset)
    requires tx.Settle? && facts.periodLength > 0 && facts.height > 0 && SettleDiff(facts, s, tx).Ok?
    requires forall t :: 0 <= Get(s.settled, t)
    ensures var after := Overlay(s, SettleDiff(facts, s, tx).value);
            Backed(facts.height >= facts.exactFrom, Supply(after, a), Supply(s, a))
  {
    SettleParts(facts, s, tx);
    var acc, diff := SettleAcc(facts, s, tx), Earned(facts, s, tx);
    hide SettleAll, SettleDiff, PayFee, Credited, BalanceTotal, TripleTotal, ServedTotal;
    CreditedTotal(s, tx.sender, acc.credit, a);
    EmptyOverlay(s);
    PayFeeKeeps(s, diff, tx.sender, Hearth, tx.fee, a);
    if a.Issued? {
      SettleAllEarns(facts, s, tx.sender, Get(s.work, SettleWorkKey(facts, tx)), tx.settlements, a.id);
    } else {
      HearthNeverSettled(s.settled);
      HearthNeverSettled(s.settled + acc.settled);
    }
  }

  lemma HearthNeverSettled(m: map<Triple, int>)
    ensures ServedTotal(m, Hearth) == 0
  {
    var share := (t: Triple) => if Issued(t.asset) == Hearth then 3 * Get(m, t) / 10 else 0;
    SumExtend({}, m.Keys, share);
    assert Sum({}, share) == 0;
  }

  // ----- Withdraw and its payout

  lemma WithdrawKeeps(facts: Facts, s: State, tx: Transaction, a: Asset)
    requires tx.Withdraw? && facts.periodLength > 0 && facts.height > 0 && WithdrawDiff(facts, s, tx).Ok?
    ensures Supply(Overlay(s, WithdrawDiff(facts, s, tx).value), a) == Supply(s, a)
  {
    var asked := Asking(Triple(tx.sender, tx.fromMiner, tx.asset), tx.amount,
                        PayoutHeight(facts.height, facts.periodLength));
    assert Supply(Overlay(s, asked), a) == Supply(s, a) by {
      hide BalanceTotal, TripleTotal, ServedTotal;
      EmptyOverlay(s);
    }
    hide PayFee, Supply, PayoutHeight;
    PayFeeKeeps(s, asked, tx.sender, tx.feeAsset, tx.fee, a);
  }

  ghost predicate Distinct(payments: seq<Payment>) {
    forall i, j :: 0 <= i < j < |payments| ==> payments[i].triple != payments[j].triple
  }

  /** What is paid out of an asset, request by request. */
  function PaidTotal(payments: seq<Payment>, a: Asset): int {
    if payments == [] then 0
    else
      var p := payments[|payments| - 1];
      PaidTotal(payments[..|payments| - 1], a) + if Issued(p.triple.asset) == a && p.amount > 0 then p.amount else 0
  }

  lemma {:induction false} PayoutCredits(balances: map<Account, int>, payments: seq<Payment>, a: Asset)
    requires PayoutBalances(balances, payments).Ok?
    ensures BalanceTotal(balances + PayoutBalances(balances, payments).value, a) ==
            BalanceTotal(balances, a) + PaidTotal(payments, a)
  {
    if payments == [] {
      assert balances + map[] == balances;
    } else {
      var n := |payments| - 1;
      PayoutCredits(balances, payments[..n], a);
      var p, paid := payments[n], PayoutBalances(balances, payments[..n]).value;
      hide BalanceTotal, Credit;
      CreditTotal(balances, paid, Account(p.triple.client, Issued(p.triple.asset)), p.amount, a);
    }
  }

  lemma CreditTotal(balances: map<Account, int>, paid: map<Account, int>, account: Account, amount: int, a: Asset)
    requires Credit(balances, paid, account, amount).Ok?
    ensures BalanceTotal(balances + Credit(balances, paid, account, amount).value, a) ==
            BalanceTotal(balances + paid, a) + if account.asset == a && amount > 0 then amount else 0
  {
    hide BalanceTotal;
    if amount > 0 {
      var v := Get(balances + paid, account) + amount;
      MergeUpdate(balances, paid, account, v);
      BalanceTotalUpdate(balances + paid, account, v, a);
    }
  }

  lemma {:induction false} PayoutWithdrawnKeys(withdrawn: map<Triple, int>, payments: seq<Payment>, t: Triple)
    ensures t in PayoutWithdrawn(withdrawn, payments) ==> exists p :: p in payments && p.triple == t && p.amount > 0
    ensures Distinct(payments) && t in PayoutWithdrawn(withdrawn, payments) ==>
              Payment(t, PayoutWithdrawn(withdrawn, payments)[t] - Get(withdrawn, t)) in payments
  {
    if payments != [] {
      var n := |payments| - 1;
      PayoutWithdrawnKeys(withdrawn, payments[..n], t);
      assert payments == payments[..n] + [payments[n]];
    }
  }

  lemma {:induction false} PayoutRecords(withdrawn: map<Triple, int>, payments: seq<Payment>, a: Asset)
    requires Distinct(payments)
    ensures TripleTotal(withdrawn + PayoutWithdrawn(withdrawn, payments), a) ==
            TripleTotal(withdrawn, a) + PaidTotal(payments, a)
  {
    if payments == [] {
      assert withdrawn + map[] == withdrawn;
    } else {
      var n := |payments| - 1;
      PayoutRecords(withdrawn, payments[..n], a);
      hide TripleTotal;
      var p, before := payments[n], PayoutWithdrawn(withdrawn, payments[..n]);
      PayoutWithdrawnKeys(withdrawn, payments[..n], p.triple);
      assert p.triple !in before;
      var v := Get(withdrawn, p.triple) + p.amount;
      assert PayoutWithdrawn(withdrawn, payments) == if p.amount <= 0 then before else before[p.triple := v];
      assert Get(withdrawn + before, p.triple) == Get(withdrawn, p.triple);
      hide PayoutWithdrawn, Distinct, Get;
      MergeUpdate(withdrawn, before, p.triple, v);
      TripleTotalUpdate(withdrawn + before, p.triple, v, a);
    }
  }

  ghost predicate DueInOrder(s: State, due: seq<Triple>) {
    && (forall t :: t in due ==> PendingOf(s, t).Some?)
    && (forall i, j :: 0 <= i < j < |due| ==> due[i] != due[j])
  }

  lemma PayoutKeeps(s: State, due: seq<Triple>, a: Asset)
    requires DueInOrder(s, due) && PayoutDiff(s, due).Ok?
    ensures Supply(Overlay(s, PayoutDiff(s, due).value), a) == Supply(s, a)
    ensures WorkDrift(Overlay(s, PayoutDiff(s, due).value)) == WorkDrift(s)
  {
    EmptyOverlay(s);
    PayoutCredits(s.balances, Payments(s, due), a);
    PayoutRecords(s.withdrawn, Payments(s, due), a);
  }

  // ----- settled + withdrawn <= reserved

  lemma PayFeeBalances(s: State, diff: State, sender: Address, asset: Asset, fee: nat)
    requires PayFee(s, diff, sender, asset, fee).Ok? && BalancesInv(s.balances) && BalancesInv(diff.balances)
    ensures BalancesInv(s.balances + PayFee(s, diff, sender, asset, fee).value.balances)
  {
  }

  /** A fee touches nothing but a balance and the fees paid. */
  lemma PayFeeTouches(s: State, diff: State, sender: Address, asset: Asset, fee: nat)
    requires PayFee(s, diff, sender, asset, fee).Ok?
    ensures var paid := PayFee(s, diff, sender, asset, fee).value;
            && paid.reserved == diff.reserved && paid.settled == diff.settled && paid.withdrawn == diff.withdrawn
            && paid.pending == diff.pending && paid.work == diff.work
  {
  }

  lemma CountersUnchanged(s: State)
    ensures s.reserved + map[] == s.reserved && s.settled + map[] == s.settled && s.withdrawn + map[] == s.withdrawn
  {
  }

  lemma LockingCounters(s: State, t: Triple, amount: nat)
    requires CountersInv(s.reserved, s.settled, s.withdrawn) && Get(s.reserved, t) + amount <= MAX_LONG
    ensures CountersInv(s.reserved + map[t := Get(s.reserved, t) + amount], s.settled, s.withdrawn)
  {
    MergeOne(s.reserved, t, Get(s.reserved, t) + amount);
  }

  lemma ReserveParts(facts: Facts, s: State, tx: Transaction)
    requires tx.Reserve? && ReserveDiff(facts, s, tx).Ok?
    ensures var account, t := Account(tx.sender, Issued(tx.asset)), Triple(tx.sender, tx.miner, tx.asset);
            ReserveDiff(facts, s, tx) == PayFee(s, Locking(s, account, t, tx.amount), tx.sender, tx.feeAsset, tx.fee)
  {
    hide PayFee, Locking, Get;
  }

  lemma InvParts(s: State, diff: State)
    requires BalancesInv(s.balances + diff.balances)
    requires CountersInv(s.reserved + diff.reserved, s.settled + diff.settled, s.withdrawn + diff.withdrawn)
    ensures Inv(Overlay(s, diff))
  {
  }

  lemma ReserveBalances(facts: Facts, s: State, tx: Transaction)
    requires BalancesInv(s.balances) && tx.Reserve? && ReserveDiff(facts, s, tx).Ok?
    ensures BalancesInv(s.balances + ReserveDiff(facts, s, tx).value.balances)
  {
    var account, t := Account(tx.sender, Issued(tx.asset)), Triple(tx.sender, tx.miner, tx.asset);
    var locked := Locking(s, account, t, tx.amount);
    ReserveParts(facts, s, tx);
    assert BalancesInv(locked.balances) by { hide PayFee; }
    hide BalancesInv, Get, PayFee, ReserveDiff;
    PayFeeBalances(s, locked, tx.sender, tx.feeAsset, tx.fee);
  }

  lemma ReserveCounters(facts: Facts, s: State, tx: Transaction)
    requires CountersInv(s.reserved, s.settled, s.withdrawn) && tx.Reserve? && ReserveDiff(facts, s, tx).Ok?
    ensures var diff := ReserveDiff(facts, s, tx).value;
            CountersInv(s.reserved + diff.reserved, s.settled + diff.settled, s.withdrawn + diff.withdrawn)
  {
    var account, t := Account(tx.sender, Issued(tx.asset)), Triple(tx.sender, tx.miner, tx.asset);
    assert Get(s.reserved, t) + tx.amount <= MAX_LONG;
    ReserveParts(facts, s, tx);
    hide CountersInv, Get, PayFee, ReserveDiff;
    CountersUnchanged(s);
    LockingCounters(s, t, tx.amount);
    PayFeeTouches(s, Locking(s, account, t, tx.amount), tx.sender, tx.feeAsset, tx.fee);
  }

  lemma ReserveInv(facts: Facts, s: State, tx: Transaction)
    requires Inv(s) && tx.Reserve? && ReserveDiff(facts, s, tx).Ok?
    ensures Inv(Overlay(s, ReserveDiff(facts, s, tx).value))
  {
    hide BalancesInv, CountersInv, ReserveDiff;
    ReserveBalances(facts, s, tx);
    ReserveCounters(facts, s, tx);
    InvParts(s, ReserveDiff(facts, s, tx).value);
  }

  lemma CountersGrow(s: State, settled: map<Triple, int>)
    requires CountersInv(s.reserved, s.settled, s.withdrawn)
    requires forall t :: t in settled ==> Get(s.settled, t) <= settled[t] <= Settleable(s, t)
    ensures CountersInv(s.reserved, s.settled + settled, s.withdrawn)
  {
  }

  lemma CreditedInv(s: State, owner: Address, credit: map<nat, int>)
    requires BalancesInv(s.balances) && FitsLong(Credited(s, owner, credit)) && forall a :: 0 <= Get(credit, a)
    ensures BalancesInv(Credited(s, owner, credit))
  {
    var balances := Credited(s, owner, credit);
    forall k | k in balances ensures 0 <= balances[k] <= MAX_LONG {
      assert 0 <= Get(credit, k.asset.id);
    }
  }

  lemma SettleInv(facts: Facts, s: State, tx: Transaction)
    requires Inv(s) && tx.Settle? && facts.periodLength > 0 && facts.height > 0 && SettleDiff(facts, s, tx).Ok?
    ensures Inv(Overlay(s, SettleDiff(facts, s, tx).value))
  {
    SettleParts(facts, s, tx);
    var acc, diff := SettleAcc(facts, s, tx), Earned(facts, s, tx);
    hide SettleDiff, SettleAll, PayFee, Credited, FitsLong, BalancesInv;
    SettleAllBounds(facts, s, tx.sender, Get(s.work, SettleWorkKey(facts, tx)), tx.settlements);
    CountersGrow(s, acc.settled);
    CreditedInv(s, tx.sender, acc.credit);
    hide CountersInv, Get, AccBounds;
    CountersUnchanged(s);
    PayFeeTouches(s, diff, tx.sender, Hearth, tx.fee);
    PayFeeBalances(s, diff, tx.sender, Hearth, tx.fee);
  }

  lemma WithdrawInv(facts: Facts, s: State, tx: Transaction)
    requires Inv(s) && tx.Withdraw? && facts.periodLength > 0 && facts.height > 0 && WithdrawDiff(facts, s, tx).Ok?
    ensures Inv(Overlay(s, WithdrawDiff(facts, s, tx).value))
  {
    var asked := Asking(Triple(tx.sender, tx.fromMiner, tx.asset), tx.amount,
                        PayoutHeight(facts.height, facts.periodLength));
    assert BalancesInv(asked.balances);
    hide BalancesInv, CountersInv, Get, PayFee, PayoutHeight;
    CountersUnchanged(s);
    PayFeeTouches(s, asked, tx.sender, tx.feeAsset, tx.fee);
    PayFeeBalances(s, asked, tx.sender, tx.feeAsset, tx.fee);
  }

  lemma {:induction false} PayoutBalancesInv(balances: map<Account, int>, payments: seq<Payment>)
    requires BalancesInv(balances) && PayoutBalances(balances, payments).Ok?
    ensures BalancesInv(PayoutBalances(balances, payments).value)
  {
    if payments != [] {
      PayoutBalancesInv(balances, payments[..|payments| - 1]);
    }
  }

  lemma PayoutCounters(s: State, due: seq<Triple>)
    requires CountersInv(s.reserved, s.settled, s.withdrawn) && DueInOrder(s, due)
    ensures CountersInv(s.reserved, s.settled, s.withdrawn + PayoutWithdrawn(s.withdrawn, Payments(s, due)))
  {
    var payments := Payments(s, due);
    var paid := PayoutWithdrawn(s.withdrawn, payments);
    forall t | t in paid
      ensures Get(s.withdrawn, t) <= paid[t] <= Get(s.reserved, t) - Get(s.settled, t)
    {
      PayoutWithdrawnKeys(s.withdrawn, payments, t);
      var p :| p in payments && p.triple == t && p.amount > 0;
    }
  }

  lemma PayoutInv(s: State, due: seq<Triple>)
    requires Inv(s) && DueInOrder(s, due) && PayoutDiff(s, due).Ok?
    ensures Inv(Overlay(s, PayoutDiff(s, due).value))
  {
    CountersUnchanged(s);
    PayoutCounters(s, due);
    PayoutBalancesInv(s.balances, Payments(s, due));
  }

  // ----- Recorded work

  /** How far the recorded work is from the burned share of everything ever settled. */
  ghost function WorkDrift(s: State): int {
    WorkTotal(s.work) - BurnedTotal(s.settled)
  }

  lemma WorkTotalUpdate(m: map<WorkKey, int>, k: WorkKey, v: int)
    ensures WorkTotal(m[k := v]) == WorkTotal(m) + v - Get(m, k)
  {
    var after := m[k := v];
    assert after.Keys == m.Keys + {k};
    SumUpdate(m.Keys, (x: WorkKey) => Get(m, x), (x: WorkKey) => Get(after, x), k);
  }

  lemma WorkStep(exact: bool, s: State, key: WorkKey, acc: Accumulator)
    requires AccEarned(exact, s, Get(s.work, key), acc, 0)
    ensures Backed(exact, WorkTotal(s.work + map[key := acc.work])
                          - BurnedTotal(s.settled + acc.settled), WorkDrift(s))
  {
    hide BurnedTotal, WorkTotal;
    assert s.work + map[key := acc.work] == s.work[key := acc.work];
    WorkTotalUpdate(s.work, key, acc.work);
  }

  lemma SettleWork(facts: Facts, s: State, tx: Transaction)
    requires tx.Settle? && facts.periodLength > 0 && facts.height > 0 && SettleDiff(facts, s, tx).Ok?
    requires forall t :: 0 <= Get(s.settled, t)
    ensures Backed(facts.height >= facts.exactFrom, WorkDrift(Overlay(s, SettleDiff(facts, s, tx).value)), WorkDrift(s))
  {
    SettleParts(facts, s, tx);
    var key, diff := SettleWorkKey(facts, tx), Earned(facts, s, tx);
    hide SettleDiff, SettleAll, PayFee, WorkTotal, BurnedTotal, Credited, Backed, AccEarned, Get;
    SettleAllEarns(facts, s, tx.sender, Get(s.work, key), tx.settlements, 0);
    WorkStep(facts.height >= facts.exactFrom, s, key, SettleAcc(facts, s, tx));
    PayFeeTouches(s, diff, tx.sender, Hearth, tx.fee);
  }

  // ----- One transaction

  /** What an accepted change leaves of the books. */
  ghost predicate Kept(exact: bool, s: State, after: State, a: Asset) {
    Inv(after) && Backed(exact, Supply(after, a), Supply(s, a)) && Backed(exact, WorkDrift(after), WorkDrift(s))
  }

  /** A diff that touches neither the counters' shares nor the work keeps their difference. */
  lemma WorkUntouched(s: State, diff: State)
    requires diff.work == map[] && diff.settled == map[]
    ensures WorkDrift(Overlay(s, diff)) == WorkDrift(s)
  {
    hide WorkTotal, BurnedTotal;
    MergeEmpty(s.work);
    MergeEmpty(s.settled);
  }

  lemma ReserveKept(facts: Facts, s: State, tx: Transaction, a: Asset)
    requires Inv(s) && tx.Reserve? && ReserveDiff(facts, s, tx).Ok?
    ensures Kept(facts.height >= facts.exactFrom, s, Overlay(s, ReserveDiff(facts, s, tx).value), a)
  {
    var account, t := Account(tx.sender, Issued(tx.asset)), Triple(tx.sender, tx.miner, tx.asset);
    hide PayFee, WorkDrift, Supply, Inv, Get, Overlay;
    PayFeeTouches(s, Locking(s, account, t, tx.amount), tx.sender, tx.feeAsset, tx.fee);
    WorkUntouched(s, ReserveDiff(facts, s, tx).value);
    ReserveInv(facts, s, tx);
    ReserveKeeps(facts, s, tx, a);
  }

  lemma SettleKept(facts: Facts, s: State, tx: Transaction, a: Asset)
    requires Inv(s) && tx.Settle? && facts.periodLength > 0 && facts.height > 0 && SettleDiff(facts, s, tx).Ok?
    ensures Kept(facts.height >= facts.exactFrom, s, Overlay(s, SettleDiff(facts, s, tx).value), a)
  {
    hide SettleDiff, WorkDrift, Supply, Overlay;
    SettleInv(facts, s, tx);
    SettleKeeps(facts, s, tx, a);
    SettleWork(facts, s, tx);
  }

  lemma WithdrawKept(facts: Facts, s: State, tx: Transaction, a: Asset)
    requires Inv(s) && tx.Withdraw? && facts.periodLength > 0 && facts.height > 0 && WithdrawDiff(facts, s, tx).Ok?
    ensures Kept(facts.height >= facts.exactFrom, s, Overlay(s, WithdrawDiff(facts, s, tx).value), a)
  {
    var asked := Asking(Triple(tx.sender, tx.fromMiner, tx.asset), tx.amount,
                        PayoutHeight(facts.height, facts.periodLength));
    hide PayFee, WorkDrift, Supply, Inv, Get, Overlay, PayoutHeight;
    PayFeeTouches(s, asked, tx.sender, tx.feeAsset, tx.fee);
    WorkUntouched(s, WithdrawDiff(facts, s, tx).value);
    WithdrawInv(facts, s, tx);
    WithdrawKeeps(facts, s, tx, a);
  }

  /** Any accepted transaction keeps settled + withdrawn <= reserved for every triple; it never adds to an asset's
    * supply or to the recorded work beyond the burned share, and under the exact split it leaves both unchanged.
    */
  lemma DiffKeeps(facts: Facts, s: State, tx: Transaction, a: Asset)
    requires Inv(s) && facts.periodLength > 0 && facts.height > 0 && Diff(facts, s, tx).Ok?
    ensures Kept(facts.height >= facts.exactFrom, s, Overlay(s, Diff(facts, s, tx).value), a)
  {
    match tx
    case Reserve(_, _, _, _, _, _) => ReserveKept(facts, s, tx, a);
    case Settle(_, _, _, _, _) => SettleKept(facts, s, tx, a);
    case Withdraw(_, _, _, _, _, _) => WithdrawKept(facts, s, tx, a);
  }
}
