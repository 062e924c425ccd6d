/** Reservations: the Reserve, Settle and Withdraw diffs and the delayed payout, over three lifetime ledgers.
  *
  * A diff reads the state before a transaction and returns what it changes, as resulting totals; applying it overlays
  * those totals. The same datatype serves for the state and for a diff.
  */
module Ledger {
  import opened Wrappers
  import opened Periods
  import opened Sums

  const MAX_LONG := 0x7fff_ffff_ffff_ffff

  type Address = nat
  datatype Asset = Hearth | Issued(id: nat)
  datatype Account = Account(owner: Address, asset: Asset)
  datatype Triple = Triple(client: Address, miner: Address, asset: nat)
  datatype PendingWithdrawal = PendingWithdrawal(amount: nat, payoutAt: Height)
  datatype WorkKey = WorkKey(validator: Address, periodStart: Height)

  datatype State = State(
    balances: map<Account, int>,
    reserved: map<Triple, int>,
    settled: map<Triple, int>,
    withdrawn: map<Triple, int>,
    pending: map<Triple, Option<PendingWithdrawal>>,
    work: map<WorkKey, int>,
    fees: map<Asset, int>)       // what senders paid in fees, kept so that nothing drops out of the books

  const EMPTY := State(map[], map[], map[], map[], map[], map[], map[])

  function Overlay(s: State, diff: State): State {
    State(s.balances + diff.balances, s.reserved + diff.reserved, s.settled + diff.settled,
          s.withdrawn + diff.withdrawn, s.pending + diff.pending, s.work + diff.work, s.fees + diff.fees)
  }

  function Get<K>(m: map<K, int>, k: K): int { if k in m then m[k] else 0 }

  function PendingOf(s: State, t: Triple): Option<PendingWithdrawal> {
    if t in s.pending then s.pending[t] else None
  }

  function Settleable(s: State, t: Triple): int { Get(s.reserved, t) - Get(s.withdrawn, t) }

  function Unsettled(s: State, t: Triple): int { Settleable(s, t) - Get(s.settled, t) }

  // ----- Generation periods

  /** `period.next.next.start` for the period `h` falls in. */
  function PayoutHeight(h: Height, length: nat): Height
    requires length > 0 && h > 0
  {
    PeriodStart(h, length) + length + length
  }

  // ----- Transactions

  datatype Enclave = Enclave(validator: Address, operator: Address)

  /** What a diff reads of the chain outside these ledgers, at the block the transaction goes into. */
  datatype Facts = Facts(
    height: Height,
    periodLength: nat,
    exactFrom: Height,                       // exactSettleSplitHeight
    issued: set<nat>,
    miners: set<Address>,                    // operators registered for this period or the next
    enclaves: map<nat, Enclave>,             // enclave keys registered for this period or the next
    committed: set<Address>)                 // generators committed for this period

  datatype Settlement = Settlement(client: Address, asset: nat, cumulativeSpent: nat)

  datatype Transaction =
    | Reserve(sender: Address, asset: nat, amount: nat, miner: Address, feeAsset: Asset, fee: nat)
    | Settle(sender: Address, enclaveKey: nat, settlements: seq<Settlement>, signatureValid: bool, fee: nat)
    | Withdraw(sender: Address, fromMiner: Address, asset: nat, amount: nat, feeAsset: Asset, fee: nat)

  datatype Error =
    | AssetNotIssued | MinerNotRegistered | EnclaveNotRegistered | NotOperator | BadSignature | NotCommitted
    | NoReservation | CounterDecreases | CounterExceedsReserved | AlreadyPending | ExceedsUnsettled
    | Overflow | InsufficientFunds

  /** Long addition that fails instead of wrapping. */
  function SafeSum(x: int, y: int): Result<int, Error> {
    if -MAX_LONG - 1 <= x + y <= MAX_LONG then Ok(x + y) else Err(Overflow)
  }

  // ----- Reserve

  function PayFee(s: State, diff: State, sender: Address, asset: Asset, fee: nat): Result<State, Error> {
    var account := Account(sender, asset);
    var left := Get(s.balances + diff.balances, account) - fee;
    if left < 0 then Err(InsufficientFunds)
    else Ok(diff.(balances := diff.balances[account := left], fees := map[asset := Get(s.fees, asset) + fee]))
  }

  /** The reservation itself: off the sender's balance, onto the triple's lifetime total. */
  function Locking(s: State, account: Account, t: Triple, amount: int): State {
    EMPTY.(balances := map[account := Get(s.balances, account) - amount],
           reserved := map[t := Get(s.reserved, t) + amount])
  }

  function ReserveDiff(facts: Facts, s: State, tx: Transaction): Result<State, Error>
    requires tx.Reserve?
  {
    if tx.asset !in facts.issued then Err(AssetNotIssued)
    else if tx.miner !in facts.miners then Err(MinerNotRegistered)
    else
      var account := Account(tx.sender, Issued(tx.asset));
      var t := Triple(tx.sender, tx.miner, tx.asset);
      if Get(s.balances, account) - tx.amount < 0 then Err(InsufficientFunds)
      else if SafeSum(Get(s.reserved, t), tx.amount).Err? then Err(Overflow)
      else PayFee(s, Locking(s, account, t, tx.amount), tx.sender, tx.feeAsset, tx.fee)
  }

  // ----- Settle

  /** `Fraction(dividend, 10)`: multiplying first, or dividing first as history below the gate was written. */
  function FloorOf(dividend: nat, amount: int): int { amount * dividend / 10 }

  function Truncated(dividend: nat, amount: int): int { amount / 10 * dividend }

  /** The share a counter's growth earns. Every amount here is non-negative, so `/` is the source's own division. */
  function Share(dividend: nat, exact: bool, previous: int, cumulative: int): int {
    if exact then FloorOf(dividend, cumulative) - FloorOf(dividend, previous)
    else Truncated(dividend, cumulative - previous)
  }

  const SERVING_NODE_PART := 3
  const BURNED_WORK_PART := 6

  datatype Accumulator = Accumulator(settled: map<Triple, int>, credit: map<nat, int>, work: int)

  function SettleOne(facts: Facts, s: State, miner: Address, acc: Accumulator, item: Settlement)
    : Result<Accumulator, Error>
  {
    var t := Triple(item.client, miner, item.asset);
    var previous := if t in acc.settled then acc.settled[t] else Get(s.settled, t);
    var exact := facts.height >= facts.exactFrom;
    if item.asset !in facts.issued then Err(AssetNotIssued)
    else if Get(s.reserved, t) <= 0 then Err(NoReservation)
    else if item.cumulativeSpent < previous then Err(CounterDecreases)
    else if item.cumulativeSpent > Settleable(s, t) then Err(CounterExceedsReserved)
    else
      match (SafeSum(Get(acc.credit, item.asset), Share(SERVING_NODE_PART, exact, previous, item.cumulativeSpent)),
             SafeSum(acc.work, Share(BURNED_WORK_PART, exact, previous, item.cumulativeSpent)))
      case (Ok(credit), Ok(work)) =>
        Ok(Accumulator(acc.settled[t := item.cumulativeSpent], acc.credit[item.asset := credit], work))
      case _ => Err(Overflow)
  }

  /** The fold over a batch; an entry sees what earlier entries of the same batch settled. */
  function SettleAll(facts: Facts, s: State, miner: Address, work: int, items: seq<Settlement>)
    : Result<Accumulator, Error>
  {
    if items == [] then Ok(Accumulator(map[], map[], work))
    else
      match SettleAll(facts, s, miner, work, items[..|items| - 1])
      case Err(e) => Err(e)
      case Ok(acc) => SettleOne(facts, s, miner, acc, items[|items| - 1])
  }

  function Credited(s: State, owner: Address, credit: map<nat, int>): map<Account, int> {
    map a | a in credit :: Account(owner, Issued(a)) := Get(s.balances, Account(owner, Issued(a))) + credit[a]
  }

  predicate FitsLong(balances: map<Account, int>) {
    forall k :: k in balances ==> balances[k] <= MAX_LONG
  }

  function SettleDiff(facts: Facts, s: State, tx: Transaction): Result<State, Error>
    requires tx.Settle? && facts.periodLength > 0 && facts.height > 0
  {
    if tx.enclaveKey !in facts.enclaves then Err(EnclaveNotRegistered)
    else
      var enclave := facts.enclaves[tx.enclaveKey];
      var workKey := WorkKey(enclave.validator, PeriodStart(facts.height, facts.periodLength));
      if enclave.operator != tx.sender then Err(NotOperator)
      else if !tx.signatureValid then Err(BadSignature)
      else if enclave.validator !in facts.committed then Err(NotCommitted)
      else
        match SettleAll(facts, s, tx.sender, Get(s.work, workKey), tx.settlements)
        case Err(e) => Err(e)
        case Ok(acc) =>
          if !FitsLong(Credited(s, tx.sender, acc.credit)) then Err(Overflow)
          else PayFee(s, Earning(s, tx.sender, workKey, acc), tx.sender, Hearth, tx.fee)
  }

  /** What an accepted batch changes before its fee. */
  function Earning(s: State, miner: Address, workKey: WorkKey, acc: Accumulator): State {
    EMPTY.(balances := Credited(s, miner, acc.credit), settled := acc.settled, work := map[workKey := acc.work])
  }

  // ----- Withdraw and its payout

  function WithdrawDiff(facts: Facts, s: State, tx: Transaction): Result<State, Error>
    requires tx.Withdraw? && facts.periodLength > 0 && facts.height > 0
  {
    var t := Triple(tx.sender, tx.fromMiner, tx.asset);
    if Get(s.reserved, t) <= 0 then Err(NoReservation)
    else if PendingOf(s, t).Some? then Err(AlreadyPending)
    else if tx.amount > Unsettled(s, t) then Err(ExceedsUnsettled)
    else
      PayFee(s, Asking(t, tx.amount, PayoutHeight(facts.height, facts.periodLength)), tx.sender, tx.feeAsset, tx.fee)
  }

  /** A request changes nothing but the pending ledger. */
  function Asking(t: Triple, amount: nat, payoutAt: Height): State {
    EMPTY.(pending := map[t := Some(PendingWithdrawal(amount, payoutAt))])
  }

  function Min(a: int, b: int): int { if a <= b then a else b }

  function Paid(s: State, t: Triple): int
    requires PendingOf(s, t).Some?
  {
    Min(PendingOf(s, t).value.amount, Unsettled(s, t))
  }

  datatype Payment = Payment(triple: Triple, amount: int)

  /** The due requests with what each is paid; every amount is read off the state before the block. */
  function Payments(s: State, due: seq<Triple>): (payments: seq<Payment>)
    requires forall t :: t in due ==> PendingOf(s, t).Some?
    ensures |payments| == |due| && forall i :: 0 <= i < |due| ==> payments[i] == Payment(due[i], Paid(s, due[i]))
  {
    seq(|due|, i requires 0 <= i < |due| => Payment(due[i], Paid(s, due[i])))
  }

  /** The balances the payments lead to, credited one by one. */
  function PayoutBalances(balances: map<Account, int>, payments: seq<Payment>): Result<map<Account, int>, Error> {
    if payments == [] then Ok(map[])
    else
      var p := payments[|payments| - 1];
      match PayoutBalances(balances, payments[..|payments| - 1])
      case Err(e) => Err(e)
      case Ok(paid) => Credit(balances, paid, Account(p.triple.client, Issued(p.triple.asset)), p.amount)
  }

  /** One more credit on top of `paid`; nothing is written for an amount of zero. */
  function Credit(balances: map<Account, int>, paid: map<Account, int>, account: Account, amount: int)
    : Result<map<Account, int>, Error>
  {
    if amount <= 0 then Ok(paid)
    else
      match SafeSum(Get(balances + paid, account), amount)
      case Err(e) => Err(e)
      case Ok(total) => Ok(paid[account := total])
  }

  /** The counters the payments lead to; nothing paid writes no entry. */
  function PayoutWithdrawn(withdrawn: map<Triple, int>, payments: seq<Payment>): map<Triple, int> {
    if payments == [] then map[]
    else
      var p := payments[|payments| - 1];
      var paid := PayoutWithdrawn(withdrawn, payments[..|payments| - 1]);
      if p.amount <= 0 then paid else paid[p.triple := Get(withdrawn, p.triple) + p.amount]
  }

  /** What the due requests change: each is cleared, even when nothing is left to pay. */
  function PayoutDiff(s: State, due: seq<Triple>): Result<State, Error>
    requires forall t :: t in due ==> PendingOf(s, t).Some?
  {
    var payments := Payments(s, due);
    match PayoutBalances(s.balances, payments)
    case Err(e) => Err(e)
    case Ok(balances) =>
      Ok(EMPTY.(balances := balances, withdrawn := PayoutWithdrawn(s.withdrawn, payments),
                pending := map t | t in due :: None))
  }

  function Diff(facts: Facts, s: State, tx: Transaction): Result<State, Error>
    requires facts.periodLength > 0 && facts.height > 0
  {
    match tx
    case Reserve(_, _, _, _, _, _) => ReserveDiff(facts, s, tx)
    case Settle(_, _, _, _, _) => SettleDiff(facts, s, tx)
    case Withdraw(_, _, _, _, _, _) => WithdrawDiff(facts, s, tx)
  }

  // ----- The invariant of the three ledgers

  /** settled + withdrawn <= reserved, none of them negative, for every triple. */
  ghost predicate CountersInv(reserved: map<Triple, int>, settled: map<Triple, int>, withdrawn: map<Triple, int>) {
    forall t ::
      0 <= Get(settled, t) && 0 <= Get(withdrawn, t) &&
      Get(settled, t) + Get(withdrawn, t) <= Get(reserved, t) <= MAX_LONG
  }

  ghost predicate BalancesInv(balances: map<Account, int>) {
    forall k :: k in balances ==> 0 <= balances[k] <= MAX_LONG
  }

  ghost predicate Inv(s: State) {
    CountersInv(s.reserved, s.settled, s.withdrawn) && BalancesInv(s.balances)
  }

  // ----- The books, per asset

  ghost function BalanceTotal(m: map<Account, int>, a: Asset): int {
    Sum(m.Keys, (k: Account) => if k.asset == a then Get(m, k) else 0)
  }

  ghost function TripleTotal(m: map<Triple, int>, a: Asset): int {
    Sum(m.Keys, (t: Triple) => if Issued(t.asset) == a then Get(m, t) else 0)
  }

  /** What the counters of an asset have earned those who served, over their whole life: three tenths of each. */
  ghost function ServedTotal(m: map<Triple, int>, a: Asset): int {
    Sum(m.Keys, (t: Triple) => if Issued(t.asset) == a then 3 * Get(m, t) / 10 else 0)
  }

  /** What the counters have burned: six tenths of each. */
  ghost function BurnedTotal(m: map<Triple, int>): int {
    Sum(m.Keys, (t: Triple) => 6 * Get(m, t) / 10)
  }

  ghost function WorkTotal(m: map<WorkKey, int>): int {
    Sum(m.Keys, (k: WorkKey) => Get(m, k))
  }

  /** Everything there is of an asset: spendable, paid in fees, and locked in reservations less what serving earned. */
  ghost function Supply(s: State, a: Asset): int {
    BalanceTotal(s.balances, a) + Get(s.fees, a)
    + TripleTotal(s.reserved, a) - TripleTotal(s.withdrawn, a) - ServedTotal(s.settled, a)
  }

  lemma BalanceTotalUpdate(m: map<Account, int>, k: Account, v: int, a: Asset)
    ensures BalanceTotal(m[k := v], a) == BalanceTotal(m, a) + if k.asset == a then v - Get(m, k) else 0
  {
    var after := m[k := v];
    assert after.Keys == m.Keys + {k};
    SumUpdate(m.Keys, (x: Account) => if x.asset == a then Get(m, x) else 0,
              (x: Account) => if x.asset == a then Get(after, x) else 0, k);
  }

  lemma TripleTotalUpdate(m: map<Triple, int>, k: Triple, v: int, a: Asset)
    ensures TripleTotal(m[k := v], a) == TripleTotal(m, a) + if Issued(k.asset) == a then v - Get(m, k) else 0
  {
    var after := m[k := v];
    assert after.Keys == m.Keys + {k};
    SumUpdate(m.Keys, (x: Triple) => if Issued(x.asset) == a then Get(m, x) else 0,
              (x: Triple) => if Issued(x.asset) == a then Get(after, x) else 0, k);
  }

  lemma ServedTotalUpdate(m: map<Triple, int>, k: Triple, v: int, a: Asset)
    ensures ServedTotal(m[k := v], a) == ServedTotal(m, a) + if Issued(k.asset) == a then 3 * v / 10 - 3 * Get(m, k) / 10 else 0
  {
    var after := m[k := v];
    assert after.Keys == m.Keys + {k};
    SumUpdate(m.Keys, (x: Triple) => if Issued(x.asset) == a then 3 * Get(m, x) / 10 else 0,
              (x: Triple) => if Issued(x.asset) == a then 3 * Get(after, x) / 10 else 0, k);
  }

  lemma BurnedTotalUpdate(m: map<Triple, int>, k: Triple, v: int)
    ensures BurnedTotal(m[k := v]) == BurnedTotal(m) + 6 * v / 10 - 6 * Get(m, k) / 10
  {
    var after := m[k := v];
    assert after.Keys == m.Keys + {k};
    SumUpdate(m.Keys, (x: Triple) => 6 * Get(m, x) / 10, (x: Triple) => 6 * Get(after, x) / 10, k);
  }
}
