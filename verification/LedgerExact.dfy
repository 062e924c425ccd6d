/** The four operations to the unit: when each is accepted, and what it then does to every account and counter. */
module LedgerExact {
  import opened Wrappers
  import opened Periods
  import opened Sums
  import opened Ledger
  import opened LedgerBooks
  import opened LedgerEffects

  // ----- Fees

  lemma PayFeeExactly(s: State, diff: State, sender: Address, asset: Asset, fee: nat, k: Account, a: Asset)
    requires diff.fees == map[]
    ensures PayFee(s, diff, sender, asset, fee).Ok? <==> fee <= Get(s.balances + diff.balances, Account(sender, asset))
    ensures PayFee(s, diff, sender, asset, fee).Ok? ==>
              var paid := PayFee(s, diff, sender, asset, fee).value;
              && Get(s.balances + paid.balances, k) == Get(s.balances + diff.balances, k) - (if k == Account(sender, asset) then fee else 0)
              && Get(s.fees + paid.fees, a) == Get(s.fees, a) + (if a == asset then fee else 0)
              && paid.reserved == diff.reserved && paid.settled == diff.settled && paid.withdrawn == diff.withdrawn
              && paid.pending == diff.pending && paid.work == diff.work
  {
  }

  // ----- Reserve

  function ReservedBy(tx: Transaction): Triple
    requires tx.Reserve?
  {
    Triple(tx.sender, tx.miner, tx.asset)
  }

  /** The reservation alone, before the fee. */
  function LockedBy(s: State, tx: Transaction): State
    requires tx.Reserve?
  {
    Locking(s, Account(tx.sender, Issued(tx.asset)), ReservedBy(tx), tx.amount)
  }

  lemma LockedAt(s: State, tx: Transaction, k: Account, t: Triple)
    requires tx.Reserve?
    ensures var locked := LockedBy(s, tx);
            && Get(s.balances + locked.balances, k) == Get(s.balances, k) - (if k == Account(tx.sender, Issued(tx.asset)) then tx.amount else 0)
            && Get(s.reserved + locked.reserved, t) == Get(s.reserved, t) + (if t == ReservedBy(tx) then tx.amount else 0)
            && locked.fees == map[] && locked.settled == map[] && locked.withdrawn == map[] && locked.pending == map[] && locked.work == map[]
  {
  }

  lemma ReserveIs(facts: Facts, s: State, tx: Transaction)
    requires tx.Reserve? && 0 <= Get(s.reserved, ReservedBy(tx))
    ensures ReserveDiff(facts, s, tx).Ok? <==>
            && tx.asset in facts.issued && tx.miner in facts.miners
            && tx.amount <= Get(s.balances, Account(tx.sender, Issued(tx.asset)))
            && Get(s.reserved, ReservedBy(tx)) + tx.amount <= 0x7fff_ffff_ffff_ffff
            && PayFee(s, LockedBy(s, tx), tx.sender, tx.feeAsset, tx.fee).Ok?
    ensures ReserveDiff(facts, s, tx).Ok? ==> ReserveDiff(facts, s, tx) == PayFee(s, LockedBy(s, tx), tx.sender, tx.feeAsset, tx.fee)
  {
    hide PayFee, Locking, Get;
  }

  /** A Reserve is accepted exactly if the asset is issued, the miner registered, the reserve still fits a long, and the sender
    * can pay both the amount and the fee.
    */
  lemma ReserveAccepted(facts: Facts, s: State, tx: Transaction)
    requires tx.Reserve? && 0 <= Get(s.reserved, Triple(tx.sender, tx.miner, tx.asset))
    ensures var held, same := Get(s.balances, Account(tx.sender, Issued(tx.asset))), tx.feeAsset == Issued(tx.asset);
            ReserveDiff(facts, s, tx).Ok? <==>
            && tx.asset in facts.issued && tx.miner in facts.miners && tx.amount <= held
            && Get(s.reserved, Triple(tx.sender, tx.miner, tx.asset)) + tx.amount <= 0x7fff_ffff_ffff_ffff
            && (if same then tx.amount + tx.fee <= held else tx.fee <= Get(s.balances, Account(tx.sender, tx.feeAsset)))
  {
    hide PayFee, Locking, Get, ReserveDiff;
    ReserveIs(facts, s, tx);
    LockedAt(s, tx, Account(tx.sender, tx.feeAsset), ReservedBy(tx));
    PayFeeExactly(s, LockedBy(s, tx), tx.sender, tx.feeAsset, tx.fee, Account(tx.sender, tx.feeAsset), tx.feeAsset);
  }

  /** The amount leaves the sender's account for the triple's reserve, the fee leaves it for good, and nothing else moves. */
  lemma ReserveEffect(facts: Facts, s: State, tx: Transaction, k: Account, t: Triple, a: Asset)
    requires tx.Reserve? && 0 <= Get(s.reserved, Triple(tx.sender, tx.miner, tx.asset)) && ReserveDiff(facts, s, tx).Ok?
    ensures var after := Overlay(s, ReserveDiff(facts, s, tx).value);
            && Get(after.balances, k) == Get(s.balances, k) - (if k == Account(tx.sender, Issued(tx.asset)) then tx.amount else 0)
                                         - (if k == Account(tx.sender, tx.feeAsset) then tx.fee else 0)
            && Get(after.reserved, t) == Get(s.reserved, t) + (if t == Triple(tx.sender, tx.miner, tx.asset) then tx.amount else 0)
            && Get(after.fees, a) == Get(s.fees, a) + (if a == tx.feeAsset then tx.fee else 0)
            && after.settled == s.settled && after.withdrawn == s.withdrawn && after.pending == s.pending && after.work == s.work
  {
    hide PayFee, Locking, Get, ReserveDiff;
    ReserveIs(facts, s, tx);
    LockedAt(s, tx, k, t);
    PayFeeExactly(s, LockedBy(s, tx), tx.sender, tx.feeAsset, tx.fee, k, a);
    CountersUnchanged(s);
    MergeEmpty(s.pending);
    MergeEmpty(s.work);
  }

  // ----- Withdraw

  function AskedBy(facts: Facts, tx: Transaction): State
    requires tx.Withdraw? && facts.periodLength > 0 && facts.height > 0
  {
    Asking(Triple(tx.sender, tx.fromMiner, tx.asset), tx.amount, PayoutHeight(facts.height, facts.periodLength))
  }

  lemma WithdrawIs(facts: Facts, s: State, tx: Transaction)
    requires tx.Withdraw? && facts.periodLength > 0 && facts.height > 0
    ensures var mine := Triple(tx.sender, tx.fromMiner, tx.asset);
            WithdrawDiff(facts, s, tx).Ok? <==>
            && Get(s.reserved, mine) > 0 && PendingOf(s, mine).None?
            && tx.amount + Get(s.settled, mine) + Get(s.withdrawn, mine) <= Get(s.reserved, mine)
            && PayFee(s, AskedBy(facts, tx), tx.sender, tx.feeAsset, tx.fee).Ok?
    ensures WithdrawDiff(facts, s, tx).Ok? ==> WithdrawDiff(facts, s, tx) == PayFee(s, AskedBy(facts, tx), tx.sender, tx.feeAsset, tx.fee)
  {
    hide PayFee, PayoutHeight, Get, PendingOf;
  }

  /** A Withdraw is accepted exactly if something was reserved, nothing is pending, the amount is neither settled nor withdrawn
    * yet, and the fee can be paid.
    */
  lemma WithdrawAccepted(facts: Facts, s: State, tx: Transaction)
    requires tx.Withdraw? && facts.periodLength > 0 && facts.height > 0
    ensures var mine := Triple(tx.sender, tx.fromMiner, tx.asset);
            WithdrawDiff(facts, s, tx).Ok? <==>
            && Get(s.reserved, mine) > 0 && PendingOf(s, mine).None?
            && tx.amount + Get(s.settled, mine) + Get(s.withdrawn, mine) <= Get(s.reserved, mine)
            && tx.fee <= Get(s.balances, Account(tx.sender, tx.feeAsset))
  {
    hide PayFee, PayoutHeight, Get, PendingOf, WithdrawDiff;
    WithdrawIs(facts, s, tx);
    PayFeeExactly(s, AskedBy(facts, tx), tx.sender, tx.feeAsset, tx.fee, Account(tx.sender, tx.feeAsset), tx.feeAsset);
    MergeEmpty(s.balances);
  }

  /** It files the request, to be paid at the first block of the period after the next one, and takes the fee; nothing else. */
  lemma WithdrawEffect(facts: Facts, s: State, tx: Transaction, k: Account, t: Triple, a: Asset)
    requires tx.Withdraw? && facts.periodLength > 0 && facts.height > 0 && WithdrawDiff(facts, s, tx).Ok?
    ensures var after, mine := Overlay(s, WithdrawDiff(facts, s, tx).value), Triple(tx.sender, tx.fromMiner, tx.asset);
            && (t != mine ==> PendingOf(after, t) == PendingOf(s, t))
            && PendingOf(after, mine).Some? && PendingOf(after, mine).value.amount == tx.amount
            && PaidInTwo(facts, PendingOf(after, mine).value.payoutAt)
            && Get(after.balances, k) == Get(s.balances, k) - (if k == Account(tx.sender, tx.feeAsset) then tx.fee else 0)
            && Get(after.fees, a) == Get(s.fees, a) + (if a == tx.feeAsset then tx.fee else 0)
            && after.reserved == s.reserved && after.settled == s.settled && after.withdrawn == s.withdrawn && after.work == s.work
  {
    hide PayFee, PayoutHeight, Get, WithdrawDiff, PaidInTwo;
    WithdrawIs(facts, s, tx);
    PayFeeExactly(s, AskedBy(facts, tx), tx.sender, tx.feeAsset, tx.fee, k, a);
    CountersUnchanged(s);
    MergeEmpty(s.balances);
    MergeEmpty(s.work);
    PayoutInTwo(facts);
  }

  /** The first block of the period after the next, in plain numbers. */
  ghost predicate PaidInTwo(facts: Facts, payoutAt: Height)
    requires facts.periodLength > 0
  {
    && (payoutAt - 1) % facts.periodLength == 0
    && facts.height + facts.periodLength < payoutAt <= facts.height + 2 * facts.periodLength
  }

  lemma PayoutInTwo(facts: Facts)
    requires facts.periodLength > 0 && facts.height > 0
    ensures PaidInTwo(facts, PayoutHeight(facts.height, facts.periodLength))
  {
    InPeriod(facts.height, facts.periodLength);
    StartsInStep(facts.height, facts.periodLength, 2);
  }

  // ----- Settle

  /** The counter an entry starts from: what the batch has stated last for the triple, or what was settled before it. */
  function Started(s: State, miner: Address, items: seq<Settlement>, i: nat): int
    requires i < |items|
  {
    var t := Triple(items[i].client, miner, items[i].asset);
    Or(LastSpent(items[..i], miner, t), Get(s.settled, t))
  }

  /** What a counter's move from `p` to `c` brings the one who served, and the validator's record of work: three and six tenths,
    * rounded down on the lifetime counter, or on the move itself in tens below the gate.
    */
  function Serves(exact: bool, p: int, c: int): int { if exact then 3 * c / 10 - 3 * p / 10 else (c - p) / 10 * 3 }

  function Burns(exact: bool, p: int, c: int): int { if exact then 6 * c / 10 - 6 * p / 10 else (c - p) / 10 * 6 }

  /** The same over the first `n` entries of a batch. */
  function Served(exact: bool, s: State, miner: Address, items: seq<Settlement>, n: nat, a: nat): int
    requires n <= |items|
  {
    if n == 0 then 0
    else
      Served(exact, s, miner, items, n - 1, a)
      + if items[n - 1].asset == a then Serves(exact, Started(s, miner, items, n - 1), items[n - 1].cumulativeSpent) else 0
  }

  function Burned(exact: bool, s: State, miner: Address, items: seq<Settlement>, n: nat): int
    requires n <= |items|
  {
    if n == 0 then 0
    else Burned(exact, s, miner, items, n - 1) + Burns(exact, Started(s, miner, items, n - 1), items[n - 1].cumulativeSpent)
  }

  lemma SharesInTenths(exact: bool, p: int, c: int)
    ensures Share(SERVING_NODE_PART, exact, p, c) == Serves(exact, p, c)
    ensures Share(BURNED_WORK_PART, exact, p, c) == Burns(exact, p, c)
  {
  }

  predicate FitsIn(n: int) { -0x8000_0000_0000_0000 <= n <= 0x7fff_ffff_ffff_ffff }

  /** An entry that is let through: its asset is issued, something is reserved, and the counter neither falls nor exceeds what is
    * reserved and not withdrawn; and neither sum overflows.
    */
  ghost predicate EntryFits(facts: Facts, s: State, miner: Address, work: int, items: seq<Settlement>, i: nat)
    requires i < |items|
  {
    var t, exact := Triple(items[i].client, miner, items[i].asset), facts.height >= facts.exactFrom;
    && items[i].asset in facts.issued && Get(s.reserved, t) > 0
    && Started(s, miner, items, i) <= items[i].cumulativeSpent <= Get(s.reserved, t) - Get(s.withdrawn, t)
    && FitsIn(Served(exact, s, miner, items, i + 1, items[i].asset)) && FitsIn(work + Burned(exact, s, miner, items, i + 1))
  }

  ghost predicate Named(items: seq<Settlement>, n: nat, a: nat)
    requires n <= |items|
  {
    exists i :: 0 <= i < n && items[i].asset == a
  }

  function Lookup(m: map<Triple, int>, t: Triple): Option<int> { if t in m then Some(m[t]) else None }

  ghost predicate CountersAre(miner: Address, items: seq<Settlement>, n: nat, settled: map<Triple, int>)
    requires n <= |items|
  {
    forall t :: Lookup(settled, t) == LastSpent(items[..n], miner, t)
  }

  ghost predicate CreditsAre(exact: bool, s: State, miner: Address, items: seq<Settlement>, n: nat, credit: map<nat, int>)
    requires n <= |items|
  {
    forall a :: Get(credit, a) == Served(exact, s, miner, items, n, a) && (a in credit <==> Named(items, n, a))
  }

  /** Where a batch has got to after its first `n` entries. */
  ghost predicate Accumulated(facts: Facts, s: State, miner: Address, work: int, items: seq<Settlement>, n: nat, acc: Accumulator)
    requires n <= |items|
  {
    var exact := facts.height >= facts.exactFrom;
    && CountersAre(miner, items, n, acc.settled) && CreditsAre(exact, s, miner, items, n, acc.credit)
    && acc.work == work + Burned(exact, s, miner, items, n)
  }

  lemma LastSpentSnoc(items: seq<Settlement>, n: nat, miner: Address, t: Triple)
    requires n < |items|
    ensures LastSpent(items[..n + 1], miner, t)
         == if Triple(items[n].client, miner, items[n].asset) == t then Some(items[n].cumulativeSpent) else LastSpent(items[..n], miner, t)
  {
    assert items[..n + 1][..n] == items[..n];
  }

  /** What an entry does to a batch so far. */
  ghost function Advanced(facts: Facts, s: State, miner: Address, work: int, items: seq<Settlement>, n: nat, acc: Accumulator): Accumulator
    requires n < |items|
  {
    var exact, a := facts.height >= facts.exactFrom, items[n].asset;
    Accumulator(acc.settled[Triple(items[n].client, miner, a) := items[n].cumulativeSpent],
                acc.credit[a := Served(exact, s, miner, items, n + 1, a)], work + Burned(exact, s, miner, items, n + 1))
  }

  lemma EntryReads(facts: Facts, s: State, miner: Address, work: int, items: seq<Settlement>, n: nat, acc: Accumulator)
    requires n < |items| && Accumulated(facts, s, miner, work, items, n, acc)
    ensures var item, exact := items[n], facts.height >= facts.exactFrom;
            var t := Triple(item.client, miner, item.asset);
            && (if t in acc.settled then acc.settled[t] else Get(s.settled, t)) == Started(s, miner, items, n)
            && Get(acc.credit, item.asset) + Share(SERVING_NODE_PART, exact, Started(s, miner, items, n), item.cumulativeSpent)
            == Served(exact, s, miner, items, n + 1, item.asset)
            && acc.work + Share(BURNED_WORK_PART, exact, Started(s, miner, items, n), item.cumulativeSpent)
            == work + Burned(exact, s, miner, items, n + 1)
  {
    var item, exact := items[n], facts.height >= facts.exactFrom;
    assert Lookup(acc.settled, Triple(item.client, miner, item.asset)) == LastSpent(items[..n], miner, Triple(item.client, miner, item.asset));
    SharesInTenths(exact, Started(s, miner, items, n), item.cumulativeSpent);
    hide Share, Serves, Burns, LastSpent, Named;
  }

  lemma EntryAccepted(facts: Facts, s: State, miner: Address, work: int, items: seq<Settlement>, n: nat, acc: Accumulator)
    requires n < |items| && Accumulated(facts, s, miner, work, items, n, acc)
    ensures SettleOne(facts, s, miner, acc, items[n]).Ok? <==> EntryFits(facts, s, miner, work, items, n)
    ensures SettleOne(facts, s, miner, acc, items[n]).Ok? ==>
              SettleOne(facts, s, miner, acc, items[n]).value == Advanced(facts, s, miner, work, items, n, acc)
  {
    hide Share, Started, Accumulated, Served, Burned, Get;
    EntryReads(facts, s, miner, work, items, n, acc);
  }

  lemma EntryAccumulates(facts: Facts, s: State, miner: Address, work: int, items: seq<Settlement>, n: nat, acc: Accumulator)
    requires n < |items| && Accumulated(facts, s, miner, work, items, n, acc)
    ensures Accumulated(facts, s, miner, work, items, n + 1, Advanced(facts, s, miner, work, items, n, acc))
  {
    hide CountersAre, CreditsAre, Served, Burned;
    CountersAdvance(miner, items, n, acc.settled);
    CreditsAdvance(facts.height >= facts.exactFrom, s, miner, items, n, acc.credit);
  }

  lemma CountersAdvance(miner: Address, items: seq<Settlement>, n: nat, settled: map<Triple, int>)
    requires n < |items| && CountersAre(miner, items, n, settled)
    ensures CountersAre(miner, items, n + 1, settled[Triple(items[n].client, miner, items[n].asset) := items[n].cumulativeSpent])
  {
    hide LastSpent;
    var after := settled[Triple(items[n].client, miner, items[n].asset) := items[n].cumulativeSpent];
    forall t ensures Lookup(after, t) == LastSpent(items[..n + 1], miner, t) {
      LastSpentSnoc(items, n, miner, t);
      assert Lookup(settled, t) == LastSpent(items[..n], miner, t);
    }
  }

  lemma CreditsAdvance(exact: bool, s: State, miner: Address, items: seq<Settlement>, n: nat, credit: map<nat, int>)
    requires n < |items| && CreditsAre(exact, s, miner, items, n, credit)
    ensures CreditsAre(exact, s, miner, items, n + 1, credit[items[n].asset := Served(exact, s, miner, items, n + 1, items[n].asset)])
  {
    hide Started, Serves, Named;
    var after := credit[items[n].asset := Served(exact, s, miner, items, n + 1, items[n].asset)];
    forall a ensures Get(after, a) == Served(exact, s, miner, items, n + 1, a) && (a in after <==> Named(items, n + 1, a)) {
      NamedSnoc(items, n, a);
      assert Get(credit, a) == Served(exact, s, miner, items, n, a);
    }
  }

  lemma NamedSnoc(items: seq<Settlement>, n: nat, a: nat)
    requires n < |items|
    ensures Named(items, n + 1, a) <==> Named(items, n, a) || items[n].asset == a
  {
  }

  lemma NothingAccumulated(facts: Facts, s: State, miner: Address, work: int, items: seq<Settlement>)
    ensures Accumulated(facts, s, miner, work, items, 0, Accumulator(map[], map[], work))
  {
  }

  /** A batch goes through exactly if each entry does in turn; then its credits and its work are the sums of the entries'. */
  lemma {:induction false} BatchIs(facts: Facts, s: State, miner: Address, work: int, items: seq<Settlement>, n: nat)
    requires n <= |items|
    ensures SettleAll(facts, s, miner, work, items[..n]).Ok? <==> forall i :: 0 <= i < n ==> EntryFits(facts, s, miner, work, items, i)
    ensures SettleAll(facts, s, miner, work, items[..n]).Ok? ==>
              Accumulated(facts, s, miner, work, items, n, SettleAll(facts, s, miner, work, items[..n]).value)
    decreases n
  {
    hide SettleOne, EntryFits, Accumulated, Served, Burned, Advanced;
    if n == 0 {
      NothingAccumulated(facts, s, miner, work, items);
    } else {
      BatchIs(facts, s, miner, work, items, n - 1);
      assert items[..n][..n - 1] == items[..n - 1] && items[..n][n - 1] == items[n - 1];
      if SettleAll(facts, s, miner, work, items[..n - 1]).Ok? {
        EntryAccepted(facts, s, miner, work, items, n - 1, SettleAll(facts, s, miner, work, items[..n - 1]).value);
        EntryAccumulates(facts, s, miner, work, items, n - 1, SettleAll(facts, s, miner, work, items[..n - 1]).value);
      }
    }
  }

  /** The whole of a batch. */
  lemma WholeBatchIs(facts: Facts, s: State, miner: Address, work: int, items: seq<Settlement>)
    ensures SettleAll(facts, s, miner, work, items).Ok? <==> forall i :: 0 <= i < |items| ==> EntryFits(facts, s, miner, work, items, i)
    ensures SettleAll(facts, s, miner, work, items).Ok? ==>
              Accumulated(facts, s, miner, work, items, |items|, SettleAll(facts, s, miner, work, items).value)
  {
    BatchIs(facts, s, miner, work, items, |items|);
    assert items[..|items|] == items;
    hide SettleAll, EntryFits, Accumulated;
  }

  /** Who may settle: the operator of a registered enclave whose validator is committed, over the enclave's signature. */
  ghost predicate MaySettle(facts: Facts, tx: Transaction)
    requires tx.Settle?
  {
    && tx.enclaveKey in facts.enclaves && facts.enclaves[tx.enclaveKey].operator == tx.sender
    && tx.signatureValid && facts.enclaves[tx.enclaveKey].validator in facts.committed
  }

  /** No balance of the settling miner grows beyond a long. */
  ghost predicate CreditsFit(facts: Facts, s: State, tx: Transaction)
    requires tx.Settle?
  {
    forall a :: Named(tx.settlements, |tx.settlements|, a) ==>
      Get(s.balances, Account(tx.sender, Issued(a)))
      + Served(facts.height >= facts.exactFrom, s, tx.sender, tx.settlements, |tx.settlements|, a) <= 0x7fff_ffff_ffff_ffff
  }

  lemma CreditsFitLong(facts: Facts, s: State, tx: Transaction, work: int, acc: Accumulator)
    requires tx.Settle? && Accumulated(facts, s, tx.sender, work, tx.settlements, |tx.settlements|, acc)
    ensures FitsLong(Credited(s, tx.sender, acc.credit)) <==> CreditsFit(facts, s, tx)
  {
    hide Served, Burned, LastSpent, Named;
    var credited, exact := Credited(s, tx.sender, acc.credit), facts.height >= facts.exactFrom;
    forall a | a in acc.credit
      ensures Account(tx.sender, Issued(a)) in credited
      ensures credited[Account(tx.sender, Issued(a))]
           == Get(s.balances, Account(tx.sender, Issued(a))) + Served(exact, s, tx.sender, tx.settlements, |tx.settlements|, a)
    {
      assert Get(acc.credit, a) == Served(exact, s, tx.sender, tx.settlements, |tx.settlements|, a);
    }
  }

  function WorkBefore(facts: Facts, s: State, tx: Transaction): int
    requires tx.Settle? && facts.periodLength > 0 && facts.height > 0 && tx.enclaveKey in facts.enclaves
  {
    Get(s.work, SettleWorkKey(facts, tx))
  }

  lemma SettleIs(facts: Facts, s: State, tx: Transaction)
    requires tx.Settle? && facts.periodLength > 0 && facts.height > 0
    ensures SettleDiff(facts, s, tx).Ok? <==>
            && MaySettle(facts, tx)
            && (var all := SettleAll(facts, s, tx.sender, WorkBefore(facts, s, tx), tx.settlements);
                && all.Ok? && FitsLong(Credited(s, tx.sender, all.value.credit))
                && PayFee(s, Earning(s, tx.sender, SettleWorkKey(facts, tx), all.value), tx.sender, Hearth, tx.fee).Ok?)
  {
    hide SettleAll, FitsLong, Credited, Earning, PayFee;
  }

  lemma FeeAfterCredit(s: State, miner: Address, key: WorkKey, acc: Accumulator, fee: nat)
    ensures PayFee(s, Earning(s, miner, key, acc), miner, Hearth, fee).Ok? <==> fee <= Get(s.balances, Account(miner, Hearth))
  {
    hide PayFee, Credited, Get;
    CreditedAt(s, miner, acc.credit, Account(miner, Hearth));
    PayFeeExactly(s, Earning(s, miner, key, acc), miner, Hearth, fee, Account(miner, Hearth), Hearth);
  }

  /** A batch is accepted exactly if its sender may settle, every entry goes through in turn, nothing overflows, and the fee can
    * be paid out of what the sender had before.
    */
  lemma SettleAccepted(facts: Facts, s: State, tx: Transaction)
    requires tx.Settle? && facts.periodLength > 0 && facts.height > 0
    ensures SettleDiff(facts, s, tx).Ok? <==>
            && MaySettle(facts, tx)
            && (forall i :: 0 <= i < |tx.settlements| ==>
                  EntryFits(facts, s, tx.sender, WorkBefore(facts, s, tx), tx.settlements, i))
            && CreditsFit(facts, s, tx) && tx.fee <= Get(s.balances, Account(tx.sender, Hearth))
  {
    hide SettleDiff, SettleAll, FitsLong, Credited, Earning, PayFee, EntryFits, Accumulated, CreditsFit, Get, WorkBefore, SettleWorkKey;
    SettleIs(facts, s, tx);
    if MaySettle(facts, tx) {
      var work := WorkBefore(facts, s, tx);
      WholeBatchIs(facts, s, tx.sender, work, tx.settlements);
      var all := SettleAll(facts, s, tx.sender, work, tx.settlements);
      if all.Ok? {
        CreditsFitLong(facts, s, tx, work, all.value);
        FeeAfterCredit(s, tx.sender, SettleWorkKey(facts, tx), all.value, tx.fee);
      }
    }
  }

  /** What an accepted batch does: each counter gets the last value stated for it, the sender's account in an asset grows by
    * three tenths of its entries' moves, its HRTH pays the fee, and the validator's work in this period grows by six tenths.
    */
  lemma SettleExactly(facts: Facts, s: State, tx: Transaction, k: Account, t: Triple, w: WorkKey)
    requires tx.Settle? && facts.periodLength > 0 && facts.height > 0 && SettleDiff(facts, s, tx).Ok?
    ensures tx.enclaveKey in facts.enclaves
    ensures var after, items := Overlay(s, SettleDiff(facts, s, tx).value), tx.settlements;
            var exact, validator := facts.height >= facts.exactFrom, facts.enclaves[tx.enclaveKey].validator;
            && Get(after.settled, t) == Or(LastSpent(items, tx.sender, t), Get(s.settled, t))
            && Get(after.balances, k) == Get(s.balances, k)
               + (if k.owner == tx.sender && k.asset.Issued? then Served(exact, s, tx.sender, items, |items|, k.asset.id) else 0)
               - (if k == Account(tx.sender, Hearth) then tx.fee else 0)
            && Get(after.work, w) == Get(s.work, w)
               + (if w == WorkKey(validator, PeriodStart(facts.height, facts.periodLength)) then Burned(exact, s, tx.sender, items, |items|) else 0)
            && after.reserved == s.reserved && after.withdrawn == s.withdrawn && after.pending == s.pending
  {
    hide SettleDiff, SettleAll, Accumulated, SettleAcc, Served, Burned, LastSpent, Get;
    SettleCounters(facts, s, tx, t, w);
    SettleBalance(facts, s, tx, k);
    SettleSums(facts, s, tx, k);
    SettleLedgers(facts, s, tx);
    MergedAt(s.work, map[SettleWorkKey(facts, tx) := SettleAcc(facts, s, tx).work], w);
    SettleTouches(facts, s, tx);
  }

  lemma SettleSums(facts: Facts, s: State, tx: Transaction, k: Account)
    requires tx.Settle? && facts.periodLength > 0 && facts.height > 0 && SettleDiff(facts, s, tx).Ok?
    ensures var acc, exact := SettleAcc(facts, s, tx), facts.height >= facts.exactFrom;
            && (k.asset.Issued? ==> Get(acc.credit, k.asset.id) == Served(exact, s, tx.sender, tx.settlements, |tx.settlements|, k.asset.id))
            && tx.enclaveKey in facts.enclaves
            && acc.work == Get(s.work, SettleWorkKey(facts, tx)) + Burned(exact, s, tx.sender, tx.settlements, |tx.settlements|)
  {
    hide SettleDiff, SettleAll, Served, Burned, LastSpent, Get, CountersAre;
    SettleLedgers(facts, s, tx);
    WholeBatchIs(facts, s, tx.sender, WorkBefore(facts, s, tx), tx.settlements);
  }

  lemma SettleTouches(facts: Facts, s: State, tx: Transaction)
    requires tx.Settle? && facts.periodLength > 0 && facts.height > 0 && SettleDiff(facts, s, tx).Ok?
    ensures var after := Overlay(s, SettleDiff(facts, s, tx).value);
            after.reserved == s.reserved && after.withdrawn == s.withdrawn && after.pending == s.pending
  {
    hide SettleDiff, SettleAll, Credited, PayFee, SettleAcc;
    SettleParts(facts, s, tx);
    PayFeeTouches(s, Earned(facts, s, tx), tx.sender, Hearth, tx.fee);
    CountersUnchanged(s);
    MergeEmpty(s.pending);
  }

  /** In plain numbers, for a batch of one entry that takes a counter from `p` to `c`: the sender earns three tenths and the
    * validator records six, of the lifetime counter from the gate on, and of the move in tens below it.
    */
  lemma SettleOneEntry(facts: Facts, s: State, tx: Transaction, item: Settlement)
    requires tx.Settle? && facts.periodLength > 0 && facts.height > 0 && SettleDiff(facts, s, tx).Ok?
    requires tx.settlements == [item] && tx.enclaveKey in facts.enclaves
    ensures var after, p, c := Overlay(s, SettleDiff(facts, s, tx).value), Get(s.settled, Triple(item.client, tx.sender, item.asset)), item.cumulativeSpent;
            var mine, w := Account(tx.sender, Issued(item.asset)), WorkKey(facts.enclaves[tx.enclaveKey].validator, PeriodStart(facts.height, facts.periodLength));
            && Get(after.settled, Triple(item.client, tx.sender, item.asset)) == c
            && (facts.height >= facts.exactFrom ==>
                  && Get(after.balances, mine) == Get(s.balances, mine) + 3 * c / 10 - 3 * p / 10
                  && Get(after.work, w) == Get(s.work, w) + 6 * c / 10 - 6 * p / 10)
            && (facts.height < facts.exactFrom ==>
                  && Get(after.balances, mine) == Get(s.balances, mine) + (c - p) / 10 * 3
                  && Get(after.work, w) == Get(s.work, w) + (c - p) / 10 * 6)
  {
    hide SettleDiff, Served, Burned, LastSpent, Get, Overlay, PeriodStart, Serves, Burns;
    var p, t := Get(s.settled, Triple(item.client, tx.sender, item.asset)), Triple(item.client, tx.sender, item.asset);
    OneEntry(facts.height >= facts.exactFrom, s, tx.sender, item);
    SettleExactly(facts, s, tx, Account(tx.sender, Issued(item.asset)), t,
                  WorkKey(facts.enclaves[tx.enclaveKey].validator, PeriodStart(facts.height, facts.periodLength)));
    Tenths(facts.height >= facts.exactFrom, p, item.cumulativeSpent);
  }

  lemma OneEntry(exact: bool, s: State, miner: Address, item: Settlement)
    ensures var t, items := Triple(item.client, miner, item.asset), [item];
            && LastSpent(items, miner, t) == Some(item.cumulativeSpent)
            && Served(exact, s, miner, items, 1, item.asset) == Serves(exact, Get(s.settled, t), item.cumulativeSpent)
            && Burned(exact, s, miner, items, 1) == Burns(exact, Get(s.settled, t), item.cumulativeSpent)
  {
    hide Serves, Burns;
    var items := [item];
    assert items[..0] == [] && items[0] == item;
    assert Started(s, miner, items, 0) == Get(s.settled, Triple(item.client, miner, item.asset));
  }

  lemma Tenths(exact: bool, p: int, c: int)
    ensures exact ==> Serves(exact, p, c) == 3 * c / 10 - 3 * p / 10 && Burns(exact, p, c) == 6 * c / 10 - 6 * p / 10
    ensures !exact ==> Serves(exact, p, c) == (c - p) / 10 * 3 && Burns(exact, p, c) == (c - p) / 10 * 6
  {
  }

  // ----- Payout

  /** What a due request is paid, as the counters show it. */
  ghost function PaidOut(s: State, after: State, t: Triple): int { Get(after.withdrawn, t) - Get(s.withdrawn, t) }

  ghost function DueOf(due: seq<Triple>, k: Account): set<Triple> {
    set t | t in due && Account(t.client, Issued(t.asset)) == k
  }

  function Positive(n: int): int { if n > 0 then n else 0 }

  lemma DueSnoc(due: seq<Triple>, n: nat, k: Account)
    requires n < |due| && forall i :: 0 <= i < n ==> due[i] != due[n]
    ensures due[n] !in DueOf(due[..n], k)
    ensures DueOf(due[..n + 1], k) == DueOf(due[..n], k) + if Account(due[n].client, Issued(due[n].asset)) == k then {due[n]} else {}
  {
    assert due[..n + 1] == due[..n] + [due[n]];
  }

  /** What the payments bring to an account is the sum over its due requests. */
  lemma {:induction false} PaidToIsSum(s: State, due: seq<Triple>, k: Account, n: nat, f: Triple -> int)
    requires DueInOrder(s, due) && n <= |due|
    requires forall t :: t in due ==> f(t) == Positive(Paid(s, t))
    ensures PaidTo(Payments(s, due)[..n], k) == Sum(DueOf(due[..n], k), f)
    decreases n
  {
    hide Paid;
    if n == 0 {
      assert DueOf(due[..0], k) == {};
    } else {
      PaidToIsSum(s, due, k, n - 1, f);
      var payments, t := Payments(s, due), due[n - 1];
      assert payments[..n][..n - 1] == payments[..n - 1] && payments[n - 1] == Payment(t, Paid(s, t));
      DueSnoc(due, n - 1, k);
      if Account(t.client, Issued(t.asset)) == k {
        SumRemove(DueOf(due[..n], k), f, t);
        assert DueOf(due[..n], k) - {t} == DueOf(due[..n - 1], k);
      } else {
        assert DueOf(due[..n], k) == DueOf(due[..n - 1], k);
      }
    }
  }

  lemma PaidIsLesser(s: State, t: Triple)
    requires Inv(s) && PendingOf(s, t).Some?
    ensures var x, left := Paid(s, t), Get(s.reserved, t) - Get(s.withdrawn, t) - Get(s.settled, t);
            0 <= x <= PendingOf(s, t).value.amount && x <= left && (x == PendingOf(s, t).value.amount || x == left)
  {
  }

  /** Each due request is paid what it asked for or what is left of the reserve, whichever is less, and cleared. */
  lemma PayoutExactly(s: State, due: seq<Triple>, t: Triple)
    requires Inv(s) && DueInOrder(s, due) && PayoutDiff(s, due).Ok?
    ensures var after := Overlay(s, PayoutDiff(s, due).value);
            && (t in due ==>
                  var x, left := PaidOut(s, after, t), Get(s.reserved, t) - Get(s.withdrawn, t) - Get(s.settled, t);
                  && 0 <= x <= PendingOf(s, t).value.amount && x <= left && (x == PendingOf(s, t).value.amount || x == left)
                  && PendingOf(after, t).None?)
            && (t !in due ==> PaidOut(s, after, t) == 0 && PendingOf(after, t) == PendingOf(s, t))
            && after.reserved == s.reserved && after.settled == s.settled && after.work == s.work && after.fees == s.fees
  {
    hide PayoutDiff, Paid, Inv, Get, PendingOf, PaidTo, Payments;
    PayoutEffect(s, due, t, Account(t.client, Issued(t.asset)));
    if t in due {
      PaidIsLesser(s, t);
    }
  }

  /** Each account grows by what its due requests in that asset are paid together, and by nothing else. */
  lemma PayoutReturns(s: State, due: seq<Triple>, k: Account)
    requires DueInOrder(s, due) && PayoutDiff(s, due).Ok?
    ensures var after := Overlay(s, PayoutDiff(s, due).value);
            Get(after.balances, k) == Get(s.balances, k) + Sum(DueOf(due, k), (t: Triple) => PaidOut(s, after, t))
  {
    hide PayoutDiff, Paid, Get, PendingOf, PaidTo, DueOf;
    var after := Overlay(s, PayoutDiff(s, due).value);
    var f := (t: Triple) => PaidOut(s, after, t);
    forall t | t in due ensures f(t) == Positive(Paid(s, t)) {
      PayoutEffect(s, due, t, k);
    }
    PaidToIsSum(s, due, k, |due|, f);
    assert Payments(s, due)[..|due|] == Payments(s, due) && due[..|due|] == due;
    PayoutEffect(s, due, Triple(0, 0, 0), k);
  }

  /** Everything paid by the first `n` payments fits. */
  ghost predicate PaidFits(balances: map<Account, int>, payments: seq<Payment>, n: nat)
    requires n <= |payments|
  {
    forall k :: Get(balances, k) + PaidTo(payments[..n], k) <= 0x7fff_ffff_ffff_ffff
  }

  lemma PaidSnoc(payments: seq<Payment>, n: nat, k: Account)
    requires n < |payments|
    ensures var p := payments[n];
            PaidTo(payments[..n + 1], k) == PaidTo(payments[..n], k) + if Account(p.triple.client, Issued(p.triple.asset)) == k then Positive(p.amount) else 0
  {
    assert payments[..n + 1][..n] == payments[..n];
  }

  lemma FitsSnoc(balances: map<Account, int>, payments: seq<Payment>, n: nat)
    requires n < |payments|
    ensures var p := payments[n];
            var account := Account(p.triple.client, Issued(p.triple.asset));
            PaidFits(balances, payments, n + 1) <==>
            PaidFits(balances, payments, n) && Get(balances, account) + PaidTo(payments[..n], account) + Positive(p.amount) <= 0x7fff_ffff_ffff_ffff
  {
    hide PaidTo, Get;
    var account := Account(payments[n].triple.client, Issued(payments[n].triple.asset));
    PaidSnoc(payments, n, account);
    forall k ensures PaidTo(payments[..n], k) <= PaidTo(payments[..n + 1], k) && (k != account ==> PaidTo(payments[..n], k) == PaidTo(payments[..n + 1], k)) {
      PaidSnoc(payments, n, k);
    }
  }

  lemma {:induction false} PaymentsAccepted(balances: map<Account, int>, payments: seq<Payment>, n: nat)
    requires n <= |payments| && BalancesInv(balances)
    ensures PayoutBalances(balances, payments[..n]).Ok? <==> PaidFits(balances, payments, n)
    decreases n
  {
    if n == 0 {
      assert forall k :: Get(balances, k) <= 0x7fff_ffff_ffff_ffff;
    } else {
      PaymentsAccepted(balances, payments, n - 1);
      FitsSnoc(balances, payments, n - 1);
      assert payments[..n][..n - 1] == payments[..n - 1] && payments[..n][n - 1] == payments[n - 1];
      var p := payments[n - 1];
      var account := Account(p.triple.client, Issued(p.triple.asset));
      hide PaidFits, PaidTo;
      if PayoutBalances(balances, payments[..n - 1]).Ok? {
        PayoutBalancesAt(balances, payments[..n - 1], account);
        PayoutBalancesInv(balances, payments[..n - 1]);
        var paid := PayoutBalances(balances, payments[..n - 1]).value;
        assert Get(balances + paid, account) >= 0;
      }
    }
  }

  /** What a due request is owed: the lesser of what it asks for and what is left. */
  function Owed(s: State, t: Triple): int
    requires PendingOf(s, t).Some?
  {
    var amount, left := PendingOf(s, t).value.amount, Get(s.reserved, t) - Get(s.withdrawn, t) - Get(s.settled, t);
    if amount <= left then amount else left
  }

  /** A payout fails exactly if what it returns to some account, together with what is there, exceeds a long. */
  lemma PayoutAccepted(s: State, due: seq<Triple>, f: Triple -> int)
    requires Inv(s) && DueInOrder(s, due) && forall t :: t in due ==> f(t) == Owed(s, t)
    ensures PayoutDiff(s, due).Ok? <==> forall k :: Get(s.balances, k) + Sum(DueOf(due, k), f) <= 0x7fff_ffff_ffff_ffff
  {
    var payments := Payments(s, due);
    assert payments[..|due|] == payments && due[..|due|] == due;
    forall t | t in due ensures f(t) == Positive(Paid(s, t)) {
      PaidIsLesser(s, t);
    }
    PaymentsAccepted(s.balances, payments, |due|);
    hide Paid, PayoutBalances, PaidTo, Payments, Get, DueOf, BalancesInv, CountersInv;
    forall k ensures PaidTo(payments[..|due|], k) == Sum(DueOf(due, k), f) {
      PaidToIsSum(s, due, k, |due|, f);
    }
  }
}
