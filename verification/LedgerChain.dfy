/** Blocks over the reservation ledgers, appended to storage and rolled back: what holds in every reachable state. */
module LedgerChain {
  import opened Wrappers
  import opened Periods
  import opened KeyedHistory
  import opened Ledger
  import opened LedgerBooks
  import opened WithdrawalIndex

  // ----- One block

  datatype Carried = Carried(facts: Facts, tx: Transaction)

  datatype Rules = Rules(periodLength: nat, exactFrom: Height, maxRollbackDepth: nat)

  predicate Fits(rules: Rules, h: Height, txs: seq<Carried>) {
    rules.periodLength > 0 && h > 0 &&
    forall c :: c in txs ==>
      c.facts.height == h && c.facts.periodLength == rules.periodLength && c.facts.exactFrom == rules.exactFrom
  }

  /** The transactions of a block in order, each over everything before it. */
  function TxsDiff(s: State, initial: State, txs: seq<Carried>): Result<State, Error>
    requires forall c :: c in txs ==> c.facts.periodLength > 0 && c.facts.height > 0
  {
    if txs == [] then Ok(initial)
    else
      match TxsDiff(s, initial, txs[..|txs| - 1])
      case Err(e) => Err(e)
      case Ok(diff) =>
        match Diff(txs[|txs| - 1].facts, Overlay(s, diff), txs[|txs| - 1].tx)
        case Err(e) => Err(e)
        case Ok(change) => Ok(Overlay(diff, change))
  }

  /** A block: the payouts due at it first, then its transactions. */
  function BlockDiff(s: State, due: seq<Triple>, txs: seq<Carried>): Result<State, Error>
    requires forall t :: t in due ==> PendingOf(s, t).Some?
    requires forall c :: c in txs ==> c.facts.periodLength > 0 && c.facts.height > 0
  {
    match PayoutDiff(s, due)
    case Err(e) => Err(e)
    case Ok(initial) => TxsDiff(s, initial, txs)
  }

  lemma OverlayAssociative(s: State, one: State, two: State)
    ensures Overlay(s, Overlay(one, two)) == Overlay(Overlay(s, one), two)
  {
    MergeAssociative(s.balances, one.balances, two.balances);
    MergeAssociative(s.reserved, one.reserved, two.reserved);
    MergeAssociative(s.settled, one.settled, two.settled);
    MergeAssociative(s.withdrawn, one.withdrawn, two.withdrawn);
    MergeAssociative(s.pending, one.pending, two.pending);
    MergeAssociative(s.work, one.work, two.work);
    MergeAssociative(s.fees, one.fees, two.fees);
  }

  lemma MergeAssociative<K, V>(a: map<K, V>, b: map<K, V>, c: map<K, V>)
    ensures a + (b + c) == (a + b) + c
  {
  }

  /** A block pays what is due on the state before it, and then each transaction is applied to what all before it have left;
    * it fails as soon as one of these does.
    */
  lemma BlockInOrder(s: State, due: seq<Triple>, txs: seq<Carried>, next: Carried)
    requires forall t :: t in due ==> PendingOf(s, t).Some?
    requires forall c :: c in txs || c == next ==> c.facts.periodLength > 0 && c.facts.height > 0
    ensures BlockDiff(s, due, []) == PayoutDiff(s, due)
    ensures BlockDiff(s, due, txs).Err? ==> BlockDiff(s, due, txs + [next]).Err?
    ensures BlockDiff(s, due, txs).Ok? ==>
              var before := Overlay(s, BlockDiff(s, due, txs).value);
              var after := BlockDiff(s, due, txs + [next]);
              && (after.Ok? <==> Diff(next.facts, before, next.tx).Ok?)
              && (after.Ok? ==> Overlay(s, after.value) == Overlay(before, Diff(next.facts, before, next.tx).value))
  {
    hide PayoutDiff, Diff, Overlay;
    assert (txs + [next])[..|txs|] == txs && (txs + [next])[|txs|] == next;
    if BlockDiff(s, due, txs).Ok? && BlockDiff(s, due, txs + [next]).Ok? {
      var diff := BlockDiff(s, due, txs).value;
      OverlayAssociative(s, diff, Diff(next.facts, Overlay(s, diff), next.tx).value);
    }
  }

  lemma {:induction false} TxsKeep(rules: Rules, h: Height, s: State, initial: State, txs: seq<Carried>, a: Asset)
    requires Fits(rules, h, txs) && TxsDiff(s, initial, txs).Ok?
    requires Kept(h >= rules.exactFrom, s, Overlay(s, initial), a)
    ensures Kept(h >= rules.exactFrom, s, Overlay(s, TxsDiff(s, initial, txs).value), a)
  {
    if txs != [] {
      var n := |txs| - 1;
      TxsKeep(rules, h, s, initial, txs[..n], a);
      var diff := TxsDiff(s, initial, txs[..n]).value;
      assert txs[n] in txs;
      var change := Diff(txs[n].facts, Overlay(s, diff), txs[n].tx).value;
      DiffKeeps(txs[n].facts, Overlay(s, diff), txs[n].tx, a);
      OverlayAssociative(s, diff, change);
    }
  }

  lemma BlockKeeps(rules: Rules, h: Height, s: State, due: seq<Triple>, txs: seq<Carried>, a: Asset)
    requires Fits(rules, h, txs) && Inv(s) && DueInOrder(s, due) && BlockDiff(s, due, txs).Ok?
    ensures Kept(h >= rules.exactFrom, s, Overlay(s, BlockDiff(s, due, txs).value), a)
  {
    PayoutInv(s, due);
    PayoutKeeps(s, due, a);
    TxsKeep(rules, h, s, PayoutDiff(s, due).value, txs, a);
  }

  // ----- What a block writes to the pending ledger

  /** Partway through a block: payouts answered, new requests only where nothing else is pending. */
  ghost predicate Writing(s: State, due: seq<Triple>, payoutAt: Height, entries: Requests) {
    && (forall t :: t in due ==> t in entries)
    && (forall t :: t in entries && entries[t].None? ==> t in due)
    && (forall t :: t in entries && entries[t].Some? ==>
          entries[t].value.payoutAt == payoutAt && (PendingOf(s, t).None? || t in due))
  }

  /** What one transaction writes to the pending ledger. */
  lemma DiffWrites(facts: Facts, s: State, diff: State, tx: Transaction)
    requires facts.periodLength > 0 && facts.height > 0 && Diff(facts, Overlay(s, diff), tx).Ok?
    ensures Filing(s, diff.pending, PayoutHeight(facts.height, facts.periodLength),
                   Diff(facts, Overlay(s, diff), tx).value.pending)
  {
    hide SettleAll, Credited, Get;
    match tx
    case Withdraw(_, _, _, _, _, _) =>
      var t := Triple(tx.sender, tx.fromMiner, tx.asset);
      assert PendingOf(Overlay(s, diff), t).None?;
      assert Diff(facts, Overlay(s, diff), tx).value.pending ==
             map[t := Some(PendingWithdrawal(tx.amount, PayoutHeight(facts.height, facts.periodLength)))];
    case _ =>
      assert Diff(facts, Overlay(s, diff), tx).value.pending == map[];
  }

  lemma {:induction false} TxsWrite(rules: Rules, h: Height, s: State, initial: State, due: seq<Triple>,
                                    txs: seq<Carried>)
    requires Fits(rules, h, txs) && TxsDiff(s, initial, txs).Ok?
    requires Writing(s, due, PayoutHeight(h, rules.periodLength), initial.pending)
    ensures Writing(s, due, PayoutHeight(h, rules.periodLength), TxsDiff(s, initial, txs).value.pending)
  {
    if txs != [] {
      var n := |txs| - 1;
      TxsWrite(rules, h, s, initial, due, txs[..n]);
      var diff := TxsDiff(s, initial, txs[..n]).value;
      assert txs[n] in txs;
      DiffWrites(txs[n].facts, s, diff, txs[n].tx);
      WritingStep(s, due, PayoutHeight(h, rules.periodLength), diff.pending,
                  Diff(txs[n].facts, Overlay(s, diff), txs[n].tx).value.pending);
    }
  }

  /** A request filed over what the block has written so far. */
  ghost predicate Filing(s: State, sofar: Requests, payoutAt: Height, entries: Requests) {
    entries == map[] ||
    exists t, amount: nat ::
      entries == map[t := Some(PendingWithdrawal(amount, payoutAt))] &&
      (if t in sofar then sofar[t].None? else PendingOf(s, t).None?)
  }

  lemma WritingStep(s: State, due: seq<Triple>, payoutAt: Height, sofar: Requests, entries: Requests)
    requires Writing(s, due, payoutAt, sofar) && Filing(s, sofar, payoutAt, entries)
    ensures Writing(s, due, payoutAt, sofar + entries)
  {
  }

  /** The triples to pay at a height, in the order the prefix scan finds them. */
  ghost predicate IsDueList(log: seq<Requests>, h: Height, due: seq<Triple>) {
    && (forall t :: t in due <==> DueAt(log, t, h))
    && (forall i, j :: 0 <= i < j < |due| ==> due[i] != due[j])
  }

  lemma BlockWrites(rules: Rules, log: seq<Requests>, s: State, due: seq<Triple>, txs: seq<Carried>)
    requires Fits(rules, |log| + 1, txs) && IsDueList(log, |log| + 1, due)
    requires forall t :: PendingOf(s, t) == PendingBy(log, t)
    requires BlockDiff(s, due, txs).Ok?
    ensures MayWrite(log, rules.periodLength, BlockDiff(s, due, txs).value.pending)
  {
    var initial := PayoutDiff(s, due).value;
    assert Writing(s, due, PayoutHeight(|log| + 1, rules.periodLength), initial.pending);
    TxsWrite(rules, |log| + 1, s, initial, due, txs);
  }

  // ----- The chain of blocks

  /** The state a chain of block diffs leads to. */
  function StateAt(genesis: State, diffs: seq<State>): State {
    if diffs == [] then genesis else Overlay(StateAt(genesis, diffs[..|diffs| - 1]), diffs[|diffs| - 1])
  }

  /** At genesis nothing is reserved. */
  predicate IsGenesis(s: State) {
    s.reserved == map[] && s.settled == map[] && s.withdrawn == map[] && s.pending == map[] && s.work == map[]
  }

  function ReservedLog(diffs: seq<State>): Log<Triple, int> { seq(|diffs|, i requires 0 <= i < |diffs| => diffs[i].reserved) }
  function SettledLog(diffs: seq<State>): Log<Triple, int> { seq(|diffs|, i requires 0 <= i < |diffs| => diffs[i].settled) }
  function WithdrawnLog(diffs: seq<State>): Log<Triple, int> { seq(|diffs|, i requires 0 <= i < |diffs| => diffs[i].withdrawn) }
  function PendingLog(diffs: seq<State>): seq<Requests> { seq(|diffs|, i requires 0 <= i < |diffs| => diffs[i].pending) }

  function OrZero(v: Option<int>): int { match v case Some(n) => n case None => 0 }

  /** Reading the logs is reading the state. */
  lemma {:induction false} LogsAreState(genesis: State, diffs: seq<State>, t: Triple)
    requires IsGenesis(genesis)
    ensures Get(StateAt(genesis, diffs).reserved, t) == OrZero(Latest(ReservedLog(diffs), t))
    ensures Get(StateAt(genesis, diffs).settled, t) == OrZero(Latest(SettledLog(diffs), t))
    ensures Get(StateAt(genesis, diffs).withdrawn, t) == OrZero(Latest(WithdrawnLog(diffs), t))
    ensures PendingOf(StateAt(genesis, diffs), t) == PendingBy(PendingLog(diffs), t)
  {
    if diffs != [] {
      var n := |diffs| - 1;
      LogsAreState(genesis, diffs[..n], t);
      LogsPrefix(diffs, n);
    }
  }

  lemma LogsPrefix(diffs: seq<State>, n: nat)
    requires n <= |diffs|
    ensures ReservedLog(diffs)[..n] == ReservedLog(diffs[..n]) && SettledLog(diffs)[..n] == SettledLog(diffs[..n])
    ensures WithdrawnLog(diffs)[..n] == WithdrawnLog(diffs[..n]) && PendingLog(diffs)[..n] == PendingLog(diffs[..n])
  {
  }

  lemma LogsSnoc(diffs: seq<State>, diff: State)
    ensures ReservedLog(diffs + [diff]) == ReservedLog(diffs) + [diff.reserved]
    ensures SettledLog(diffs + [diff]) == SettledLog(diffs) + [diff.settled]
    ensures WithdrawnLog(diffs + [diff]) == WithdrawnLog(diffs) + [diff.withdrawn]
    ensures PendingLog(diffs + [diff]) == PendingLog(diffs) + [diff.pending]
  {
  }

  // ----- Storage

  datatype Store = Store(
    height: Height,
    safe: int,                                   // safeRollbackHeight
    reserved: Family<Triple, int>,
    settled: Family<Triple, int>,
    withdrawn: Family<Triple, int>,
    pending: Family<Triple, Option<PendingWithdrawal>>,
    due: set<Due>)

  const NEW_STORE := Store(0, 0, Empty(), Empty(), Empty(), Empty(), {})

  function Append(rules: Rules, st: Store, diff: State): Store {
    var h := st.height + 1;
    var threshold := h - rules.maxRollbackDepth;
    Store(h, Max(st.safe, threshold),
          Write(st.reserved, h, threshold, diff.reserved),
          Write(st.settled, h, threshold, diff.settled),
          Write(st.withdrawn, h, threshold, diff.withdrawn),
          Write(st.pending, h, threshold, diff.pending),
          IndexAppend(st.due, h, diff.pending))
  }

  /** What the newest block wrote to the pending ledger, read back off the ledger itself. */
  function WrittenAtTip(st: Store): Requests {
    map t | t in KeysAt(st.pending, st.height) && (t, st.height) in st.pending.values ::
      st.pending.values[(t, st.height)]
  }

  function Undo(st: Store): Store
    requires st.height > 0
  {
    Store(st.height - 1, st.safe,
          Rollback(st.reserved, st.height), Rollback(st.settled, st.height), Rollback(st.withdrawn, st.height),
          Rollback(st.pending, st.height),
          IndexRollback(st.due, st.height, WrittenAtTip(st)))
  }

  function UndoTo(st: Store, target: Height): Store
    requires target <= st.height
    decreases st.height
  {
    if st.height == target then st else UndoTo(Undo(st), target)
  }

  // ----- Every reachable state

  /** `diff` is what a valid block with these payouts and transactions changes. */
  ghost predicate IsBlock(rules: Rules, s: State, log: seq<Requests>, due: seq<Triple>, txs: seq<Carried>, diff: State)
  {
    && Fits(rules, |log| + 1, txs) && IsDueList(log, |log| + 1, due)
    && (forall t :: t in due ==> PendingOf(s, t).Some?)
    && BlockDiff(s, due, txs) == Ok(diff)
  }

  /** Every diff is a valid block over the ones before it. */
  ghost predicate IsChain(rules: Rules, genesis: State, diffs: seq<State>) {
    diffs == [] ||
    var before := diffs[..|diffs| - 1];
    IsChain(rules, genesis, before) && MayFollow(rules, genesis, before, diffs[|diffs| - 1])
  }

  ghost predicate MayFollow(rules: Rules, genesis: State, diffs: seq<State>, diff: State) {
    exists due, txs :: IsNext(rules, genesis, diffs, due, txs, diff)
  }

  ghost predicate IsNext(rules: Rules, genesis: State, diffs: seq<State>, due: seq<Triple>, txs: seq<Carried>,
                         diff: State)
  {
    IsBlock(rules, StateAt(genesis, diffs), PendingLog(diffs), due, txs, diff)
  }

  ghost predicate FamiliesHold(diffs: seq<State>, st: Store) {
    && Valid(st.reserved, ReservedLog(diffs), st.safe)
    && Valid(st.settled, SettledLog(diffs), st.safe)
    && Valid(st.withdrawn, WithdrawnLog(diffs), st.safe)
    && Valid(st.pending, PendingLog(diffs), st.safe)
  }

  ghost predicate IndexHolds(length: nat, log: seq<Requests>, due: set<Due>) {
    length > 0 && Shaped(log, length) && IndexValid(due, log)
  }

  /** The store holds exactly the chain of valid blocks `diffs` over `genesis`. */
  ghost predicate Holds(rules: Rules, genesis: State, diffs: seq<State>, st: Store) {
    && IsGenesis(genesis) && Inv(genesis) && IsChain(rules, genesis, diffs)
    && st.height == |diffs|
    && FamiliesHold(diffs, st)
    && IndexHolds(rules.periodLength, PendingLog(diffs), st.due)
  }

  /** The prefix scan at the next height finds exactly the requests due there. */
  lemma ScanFindsDue(rules: Rules, genesis: State, diffs: seq<State>, st: Store, t: Triple)
    requires Holds(rules, genesis, diffs, st)
    ensures Due(st.height + 1, t) in st.due <==> DueAt(PendingLog(diffs), t, st.height + 1)
    ensures DueAt(PendingLog(diffs), t, st.height + 1) ==>
              PeriodStart(st.height + 1, rules.periodLength) == st.height + 1
  {
    IndexAgreesAhead(st.due, PendingLog(diffs), rules.periodLength, st.height + 1, t);
    if DueAt(PendingLog(diffs), t, st.height + 1) {
      PendingIsAhead(PendingLog(diffs), rules.periodLength, t);
    }
  }

  lemma FamiliesAppend(rules: Rules, diffs: seq<State>, st: Store, diff: State)
    requires FamiliesHold(diffs, st) && st.height == |diffs|
    ensures FamiliesHold(diffs + [diff], Append(rules, st, diff))
  {
    hide Write, Valid, IndexAppend;
    var threshold := st.height + 1 - rules.maxRollbackDepth;
    LogsSnoc(diffs, diff);
    WriteValid(st.reserved, ReservedLog(diffs), st.safe, threshold, diff.reserved);
    WriteValid(st.settled, SettledLog(diffs), st.safe, threshold, diff.settled);
    WriteValid(st.withdrawn, WithdrawnLog(diffs), st.safe, threshold, diff.withdrawn);
    WriteValid(st.pending, PendingLog(diffs), st.safe, threshold, diff.pending);
  }

  lemma IndexHoldsAppend(length: nat, log: seq<Requests>, due: set<Due>, entries: Requests)
    requires IndexHolds(length, log, due) && MayWrite(log, length, entries)
    ensures IndexHolds(length, log + [entries], IndexAppend(due, |log| + 1, entries))
  {
    ShapedSnoc(log, length, entries);
    IndexAppendValid(due, log, length, entries);
  }

  lemma BlockMayWrite(rules: Rules, genesis: State, diffs: seq<State>, due: seq<Triple>, txs: seq<Carried>, diff: State)
    requires IsGenesis(genesis) && rules.periodLength > 0
    requires IsNext(rules, genesis, diffs, due, txs, diff)
    ensures MayWrite(PendingLog(diffs), rules.periodLength, diff.pending)
  {
    forall t ensures PendingOf(StateAt(genesis, diffs), t) == PendingBy(PendingLog(diffs), t) {
      LogsAreState(genesis, diffs, t);
    }
    BlockWrites(rules, PendingLog(diffs), StateAt(genesis, diffs), due, txs);
  }

  lemma ChainSnoc(rules: Rules, genesis: State, diffs: seq<State>, due: seq<Triple>, txs: seq<Carried>, diff: State)
    requires IsChain(rules, genesis, diffs)
    requires IsNext(rules, genesis, diffs, due, txs, diff)
    ensures IsChain(rules, genesis, diffs + [diff])
  {
    assert (diffs + [diff])[..|diffs|] == diffs;
  }

  lemma AppendHolds(rules: Rules, genesis: State, diffs: seq<State>, st: Store, due: seq<Triple>, txs: seq<Carried>,
                    diff: State)
    requires Holds(rules, genesis, diffs, st)
    requires IsNext(rules, genesis, diffs, due, txs, diff)
    ensures Holds(rules, genesis, diffs + [diff], Append(rules, st, diff))
  {
    FamiliesAppend(rules, diffs, st, diff);
    BlockMayWrite(rules, genesis, diffs, due, txs, diff);
    IndexHoldsAppend(rules.periodLength, PendingLog(diffs), st.due, diff.pending);
    LogsSnoc(diffs, diff);
    ChainSnoc(rules, genesis, diffs, due, txs, diff);
  }

  /** The newest block's writes, read off the ledger, are what that block wrote. */
  lemma TipIsLastWrite(st: Store, log: seq<Requests>)
    requires log != [] && st.height == |log| && Valid(st.pending, log, st.safe) && st.safe < st.height
    ensures WrittenAtTip(st) == log[|log| - 1]
  {
    var n := |log| - 1;
    assert KeysAt(st.pending, |log|) == log[n].Keys;
    forall t | t in log[n] ensures (t, |log|) in st.pending.values && st.pending.values[(t, |log|)] == log[n][t] {
      assert HistoryValid(st.pending, log, st.safe, t);
      HeightsDescend(log[..n], t);
      assert Heights(log, t) == [|log|] + Heights(log[..n], t);
      assert HistoryOf(st.pending, t) != [];
      assert HistoryOf(st.pending, t)[0] == |log|;
    }
  }

  lemma FamiliesUndo(diffs: seq<State>, st: Store)
    requires FamiliesHold(diffs, st) && st.height == |diffs| && diffs != [] && st.safe < st.height
    ensures FamiliesHold(diffs[..|diffs| - 1], Undo(st))
  {
    hide Rollback, Valid, WrittenAtTip, IndexRollback;
    var n := |diffs| - 1;
    LogsPrefix(diffs, n);
    assert Valid(Rollback(st.reserved, st.height), ReservedLog(diffs[..n]), st.safe) by {
      RollbackValid(st.reserved, ReservedLog(diffs), st.safe);
    }
    assert Valid(Rollback(st.settled, st.height), SettledLog(diffs[..n]), st.safe) by {
      RollbackValid(st.settled, SettledLog(diffs), st.safe);
    }
    assert Valid(Rollback(st.withdrawn, st.height), WithdrawnLog(diffs[..n]), st.safe) by {
      RollbackValid(st.withdrawn, WithdrawnLog(diffs), st.safe);
    }
    assert Valid(Rollback(st.pending, st.height), PendingLog(diffs[..n]), st.safe) by {
      RollbackValid(st.pending, PendingLog(diffs), st.safe);
    }
  }

  lemma IndexHoldsUndo(length: nat, log: seq<Requests>, due: set<Due>)
    requires IndexHolds(length, log, due) && log != []
    ensures IndexHolds(length, log[..|log| - 1], IndexRollback(due, |log|, log[|log| - 1]))
  {
    var n := |log| - 1;
    ShapedPrefix(log, length, n);
    assert WrittenAt(log, length, n);
    assert log[..n] + [log[n]] == log;
    IndexRollbackValid(due, log[..n], length, log[n]);
  }

  /** Undoing the newest block leaves the store holding the chain without it. */
  lemma UndoHolds(rules: Rules, genesis: State, diffs: seq<State>, st: Store)
    requires Holds(rules, genesis, diffs, st) && diffs != [] && st.safe < st.height
    ensures Holds(rules, genesis, diffs[..|diffs| - 1], Undo(st))
  {
    FamiliesUndo(diffs, st);
    TipIsLastWrite(st, PendingLog(diffs));
    IndexHoldsUndo(rules.periodLength, PendingLog(diffs), st.due);
    LogsPrefix(diffs, |diffs| - 1);
  }

  lemma {:induction false} UndoToHolds(rules: Rules, genesis: State, diffs: seq<State>, st: Store, target: Height)
    requires Holds(rules, genesis, diffs, st) && st.safe <= target <= st.height
    ensures Holds(rules, genesis, diffs[..target], UndoTo(st, target))
    decreases st.height
  {
    hide IsChain, FamiliesHold, IndexHolds, Inv, IsGenesis, Rollback, WrittenAtTip, IndexRollback;
    if st.height == target {
      assert diffs[..target] == diffs;
    } else {
      var n := |diffs| - 1;
      UndoHolds(rules, genesis, diffs, st);
      UndoToHolds(rules, genesis, diffs[..n], Undo(st), target);
      assert diffs[..n][..target] == diffs[..target];
    }
  }

  // ----- Storage as the node drives it

  /** The ledger writes of a block. */
  method Persist(rules: Rules, st: Store, diff: State) returns (after: Store)
    ensures after == Append(rules, st, diff)
  {
    hide Write, IndexAppend;
    var h := st.height + 1;
    var threshold := h - rules.maxRollbackDepth;
    var reserved := WriteKeyed(st.reserved, h, threshold, diff.reserved);
    var settled := WriteKeyed(st.settled, h, threshold, diff.settled);
    var withdrawn := WriteKeyed(st.withdrawn, h, threshold, diff.withdrawn);
    var pending := WriteKeyed(st.pending, h, threshold, diff.pending);
    var index := PutDue(st.due, h, diff.pending);
    after := Store(h, Max(st.safe, threshold), reserved, settled, withdrawn, pending, index);
  }

  /** The undoing of the newest block: its index entries by what the ledger still says it wrote, then its ledger values. */
  method Unwind(st: Store) returns (after: Store)
    requires st.height > 0
    ensures after == Undo(st)
  {
    hide Rollback, IndexRollback, WrittenAtTip;
    var h := st.height;
    var index := UndoDue(st.due, h, WrittenAtTip(st));
    var reserved := RollbackKeyed(st.reserved, h);
    var settled := RollbackKeyed(st.settled, h);
    var withdrawn := RollbackKeyed(st.withdrawn, h);
    var pending := RollbackKeyed(st.pending, h);
    after := Store(h - 1, st.safe, reserved, settled, withdrawn, pending, index);
  }

  /** What storage says of a triple is what the chain has led to. */
  lemma UnsettledRead(rules: Rules, genesis: State, diffs: seq<State>, st: Store, t: Triple)
    requires Holds(rules, genesis, diffs, st)
    ensures OrZero(Read(st.reserved, t)) - OrZero(Read(st.withdrawn, t)) - OrZero(Read(st.settled, t))
         == Unsettled(StateAt(genesis, diffs), t) >= 0
  {
    LogsAreState(genesis, diffs, t);
    ReadIsLatest(st.reserved, ReservedLog(diffs), st.safe, t);
    ReadIsLatest(st.settled, SettledLog(diffs), st.safe, t);
    ReadIsLatest(st.withdrawn, WithdrawnLog(diffs), st.safe, t);
    UnsettledCounts(rules, genesis, diffs, t);
    hide StateAt, ReservedLog, SettledLog, WithdrawnLog, Read, Latest, IsChain, Get;
  }

  lemma UnsettledCounts(rules: Rules, genesis: State, diffs: seq<State>, t: Triple)
    requires Inv(genesis) && IsChain(rules, genesis, diffs)
    ensures Unsettled(StateAt(genesis, diffs), t) >= 0
  {
    hide IsChain, StateAt, Kept;
    ChainKeeps(rules, genesis, diffs, 0, Hearth);
    KeptInv(rules.exactFrom <= 1, StateAt(genesis, diffs[..0]), StateAt(genesis, diffs), Hearth);
  }

  class LedgerStore {
    const rules: Rules
    ghost const genesis: State
    var store: Store
    ghost var diffs: seq<State>     // what the blocks on the chain changed, in order
    ghost var top: Height           // the greatest height so far

    /** Storage stands for the chain, and can go back as many blocks from the greatest height as the rules say. */
    ghost predicate Valid()
      reads this
    {
      && Holds(rules, genesis, diffs, store) && store.height <= top
      && store.safe == if top > rules.maxRollbackDepth then top - rules.maxRollbackDepth else 0
    }

    constructor (rules: Rules, ghost genesis: State)
      requires rules.periodLength > 0 && IsGenesis(genesis) && Inv(genesis)
      ensures Valid() && diffs == [] && top == 0 && this.rules == rules && this.genesis == genesis
    {
      this.rules, this.genesis := rules, genesis;
      store, diffs, top := NEW_STORE, [], 0;
      new;
      StartHolds(rules, genesis);
    }

    /** Persists a valid block: storage then stands for the longer chain. */
    method DoAppend(diff: State, ghost due: seq<Triple>, ghost txs: seq<Carried>)
      requires Valid() && IsNext(rules, genesis, diffs, due, txs, diff)
      modifies this
      ensures Valid() && diffs == old(diffs) + [diff] && store == Append(rules, old(store), diff)
      ensures top == if old(top) > store.height then old(top) else store.height
    {
      hide Holds, Append, IsNext;
      AppendHolds(rules, genesis, diffs, store, due, txs, diff);
      AppendHorizon(rules, store, diff);
      store := Persist(rules, store, diff);
      diffs := diffs + [diff];
      top := if top > store.height then top else store.height;
    }

    /** Unwinds block by block down to `target`: storage then stands for the blocks up to there. Each block's index entries
      * are undone by what the ledger still says it wrote.
      */
    method DoRollback(target: Height)
      requires Valid() && top - rules.maxRollbackDepth <= target <= store.height
      modifies this
      ensures Valid() && diffs == old(diffs[..target]) && store == UndoTo(old(store), target) && top == old(top)
    {
      hide Holds, Undo;
      HoldsHeight(rules, genesis, diffs, store);
      UndoToHolds(rules, genesis, diffs, store, target);
      UndoToKeeps(store, target);
      while store.height > target
        invariant target <= store.height && UndoTo(store, target) == UndoTo(old(store), target)
        invariant diffs == old(diffs) && top == old(top)
      {
        UndoHeight(store);
        store := Unwind(store);
      }
      diffs := diffs[..target];
    }

    /** What a Withdraw may still ask for, read from storage. */
    method UnsettledAmount(t: Triple) returns (amount: int)
      requires Valid()
      ensures amount == Unsettled(StateAt(genesis, diffs), t) && amount >= 0
    {
      UnsettledRead(rules, genesis, diffs, store, t);
      amount := OrZero(Read(store.reserved, t)) - OrZero(Read(store.withdrawn, t)) - OrZero(Read(store.settled, t));
    }
  }

  lemma HoldsHeight(rules: Rules, genesis: State, diffs: seq<State>, st: Store)
    requires Holds(rules, genesis, diffs, st)
    ensures st.height == |diffs|
  {
  }

  lemma AppendHorizon(rules: Rules, st: Store, diff: State)
    ensures var after := Append(rules, st, diff);
            && after.height == st.height + 1
            && after.safe == if after.height - rules.maxRollbackDepth > st.safe then after.height - rules.maxRollbackDepth else st.safe
  {
    hide Write, IndexAppend;
  }

  lemma {:induction false} UndoToKeeps(st: Store, target: Height)
    requires target <= st.height
    ensures UndoTo(st, target).height == target && UndoTo(st, target).safe == st.safe
    decreases st.height
  {
    if st.height > target {
      hide Rollback, IndexRollback, WrittenAtTip;
      UndoToKeeps(Undo(st), target);
    }
  }

  lemma UndoHeight(st: Store)
    requires st.height > 0
    ensures Undo(st).height == st.height - 1
  {
  }

  // ----- Runs

  datatype Config = Config(diffs: seq<State>, store: Store)

  /** The node appends a valid block, or rolls back to a height at or above the rollback horizon. */
  ghost predicate Moves(rules: Rules, genesis: State, c: Config, d: Config) {
    || (exists due, txs, diff ::
          IsNext(rules, genesis, c.diffs, due, txs, diff) &&
          d == Config(c.diffs + [diff], Append(rules, c.store, diff)))
    || (exists target: Height ::
          c.store.safe <= target <= c.store.height && |c.diffs| == c.store.height &&
          d == Config(c.diffs[..target], UndoTo(c.store, target)))
  }

  ghost predicate IsRun(rules: Rules, genesis: State, run: seq<Config>) {
    && rules.periodLength > 0 && IsGenesis(genesis) && Inv(genesis)
    && run != [] && run[0] == Config([], NEW_STORE)
    && forall i :: 0 < i < |run| ==> MovesAt(rules, genesis, run, i)
  }

  ghost predicate MovesAt(rules: Rules, genesis: State, run: seq<Config>, i: nat)
    requires 0 < i < |run|
  {
    Moves(rules, genesis, run[i - 1], run[i])
  }

  lemma StartHolds(rules: Rules, genesis: State)
    requires rules.periodLength > 0 && IsGenesis(genesis) && Inv(genesis)
    ensures Holds(rules, genesis, [], NEW_STORE)
  {
  }

  lemma {:induction false} RunHolds(rules: Rules, genesis: State, run: seq<Config>, i: nat)
    requires IsRun(rules, genesis, run) && i < |run|
    ensures Holds(rules, genesis, run[i].diffs, run[i].store)
  {
    hide Moves, Holds;
    if i == 0 {
      StartHolds(rules, genesis);
    } else {
      RunHolds(rules, genesis, run, i - 1);
      assert MovesAt(rules, genesis, run, i);
      MoveHolds(rules, genesis, run[i - 1], run[i]);
    }
  }

  lemma MoveHolds(rules: Rules, genesis: State, c: Config, d: Config)
    requires Holds(rules, genesis, c.diffs, c.store) && Moves(rules, genesis, c, d)
    ensures Holds(rules, genesis, d.diffs, d.store)
  {
    if exists target: Height ::
         c.store.safe <= target <= c.store.height && d == Config(c.diffs[..target], UndoTo(c.store, target)) {
      var target: Height :|
        c.store.safe <= target <= c.store.height && d == Config(c.diffs[..target], UndoTo(c.store, target));
      UndoToHolds(rules, genesis, c.diffs, c.store, target);
    } else {
      var due, txs, diff :|
        IsNext(rules, genesis, c.diffs, due, txs, diff) &&
        d == Config(c.diffs + [diff], Append(rules, c.store, diff));
      AppendHolds(rules, genesis, c.diffs, c.store, due, txs, diff);
    }
  }

  lemma LastBlockKeeps(rules: Rules, genesis: State, diffs: seq<State>, a: Asset)
    requires IsChain(rules, genesis, diffs) && diffs != [] && Inv(StateAt(genesis, diffs[..|diffs| - 1]))
    ensures Kept(|diffs| >= rules.exactFrom, StateAt(genesis, diffs[..|diffs| - 1]), StateAt(genesis, diffs), a)
  {
    var n := |diffs| - 1;
    var due, txs :| IsNext(rules, genesis, diffs[..n], due, txs, diffs[n]);
    BlockKeeps(rules, n + 1, StateAt(genesis, diffs[..n]), due, txs, a);
  }

  lemma KeptThen(exact: bool, later: bool, s: State, between: State, after: State, a: Asset)
    requires Kept(exact, s, between, a) && Kept(later, between, after, a) && (exact ==> later)
    ensures Kept(exact, s, after, a)
  {
    hide Inv, Supply, WorkDrift;
  }

  /** The books along any chain of valid blocks, between any two of its heights: once the exact split applies, nothing is
    * lost any more, whatever the truncating split lost before.
    */
  lemma {:induction false} ChainKeeps(rules: Rules, genesis: State, diffs: seq<State>, from: nat, a: Asset)
    requires Inv(genesis) && IsChain(rules, genesis, diffs) && from <= |diffs|
    ensures Kept(rules.exactFrom <= from + 1, StateAt(genesis, diffs[..from]), StateAt(genesis, diffs), a)
    decreases |diffs|
  {
    hide Kept, Inv, MayFollow;
    var n := |diffs| - 1;
    if n < 0 {
      KeptAtOnce(rules.exactFrom <= from + 1, genesis, a);
    } else {
      ChainKeeps(rules, genesis, diffs[..n], 0, a);
      KeptInv(rules.exactFrom <= 1, StateAt(genesis, diffs[..n][..0]), StateAt(genesis, diffs[..n]), a);
      LastBlockKeeps(rules, genesis, diffs, a);
      if from == |diffs| {
        KeptInv(|diffs| >= rules.exactFrom, StateAt(genesis, diffs[..n]), StateAt(genesis, diffs), a);
        KeptAtOnce(rules.exactFrom <= from + 1, StateAt(genesis, diffs), a);
        assert diffs[..from] == diffs;
      } else {
        ChainKeeps(rules, genesis, diffs[..n], from, a);
        assert diffs[..n][..from] == diffs[..from];
        KeptThen(rules.exactFrom <= from + 1, |diffs| >= rules.exactFrom,
                 StateAt(genesis, diffs[..from]), StateAt(genesis, diffs[..n]), StateAt(genesis, diffs), a);
      }
    }
  }

  lemma KeptAtOnce(exact: bool, s: State, a: Asset)
    requires Inv(s)
    ensures Kept(exact, s, s, a)
  {
    hide Inv, Supply, WorkDrift;
  }

  lemma KeptInv(exact: bool, s: State, after: State, a: Asset)
    requires Kept(exact, s, after, a)
    ensures Inv(after)
  {
  }

  /** In every state of every run of blocks and rollbacks, read through storage: what was settled and withdrawn never
    * exceeds what was reserved, no asset's supply and no validator's work comes from nowhere, and under the exact
    * split both are conserved to the unit.
    */
  lemma LedgersSound(rules: Rules, genesis: State, run: seq<Config>, i: nat, t: Triple, a: Asset)
    requires IsRun(rules, genesis, run) && i < |run|
    ensures var st := run[i].store;
            var reserved, settled, withdrawn :=
              OrZero(Read(st.reserved, t)), OrZero(Read(st.settled, t)), OrZero(Read(st.withdrawn, t));
            0 <= settled && 0 <= withdrawn && settled + withdrawn <= reserved
    ensures var now := StateAt(genesis, run[i].diffs);
            && Supply(now, a) <= Supply(genesis, a)
            && WorkTotal(now.work) <= BurnedTotal(now.settled)
            && (rules.exactFrom <= 1 ==>
                  Supply(now, a) == Supply(genesis, a) &&
                  WorkTotal(now.work) == BurnedTotal(now.settled))
  {
    RunHolds(rules, genesis, run, i);
    var diffs, st := run[i].diffs, run[i].store;
    ChainKeeps(rules, genesis, diffs, 0, a);
    assert diffs[..0] == [];
    LogsAreState(genesis, diffs, t);
    ReadIsLatest(st.reserved, ReservedLog(diffs), st.safe, t);
    ReadIsLatest(st.settled, SettledLog(diffs), st.safe, t);
    ReadIsLatest(st.withdrawn, WithdrawnLog(diffs), st.safe, t);
  }

  /** In every state of every run, for every height to come, an index entry exists exactly when the pending request
    * read from storage has that payout height; a height already passed has an entry exactly when its block carried
    * the next request of a triple it was paying.
    */
  lemma IndexSound(rules: Rules, genesis: State, run: seq<Config>, i: nat, h: Height, t: Triple)
    requires IsRun(rules, genesis, run) && i < |run|
    ensures var st := run[i].store;
            && (h > st.height ==>
                  (Due(h, t) in st.due <==>
                   exists p: PendingWithdrawal :: Read(st.pending, t) == Some(Some(p)) && p.payoutAt == h))
            && (h <= st.height ==> (Due(h, t) in st.due <==> PaidAndRefiled(PendingLog(run[i].diffs), h, t)))
  {
    RunHolds(rules, genesis, run, i);
    var log, st := PendingLog(run[i].diffs), run[i].store;
    ReadIsLatest(st.pending, log, st.safe, t);
    if h > st.height {
      IndexAgreesAhead(st.due, log, rules.periodLength, h, t);
    } else {
      StaleEntries(st.due, log, rules.periodLength, h, t);
    }
  }

  /** Appending a block and rolling it back leaves the index as it was, and every ledger reading what it read. */
  lemma RollbackUndoesAppend(rules: Rules, genesis: State, diffs: seq<State>, st: Store, due: seq<Triple>,
                             txs: seq<Carried>, diff: State, t: Triple)
    requires Holds(rules, genesis, diffs, st) && rules.maxRollbackDepth > 0 && st.safe <= st.height
    requires IsNext(rules, genesis, diffs, due, txs, diff)
    ensures var back := Undo(Append(rules, st, diff));
            && back.height == st.height && back.due == st.due
            && Read(back.reserved, t) == Read(st.reserved, t) && Read(back.settled, t) == Read(st.settled, t)
            && Read(back.withdrawn, t) == Read(st.withdrawn, t) && Read(back.pending, t) == Read(st.pending, t)
  {
    hide IsChain, Valid, IsNext, Write, Rollback, WrittenAtTip, IndexAppend, IndexRollback, Read, Latest, Owed;
    var there := Append(rules, st, diff);
    AppendHolds(rules, genesis, diffs, st, due, txs, diff);
    UndoHolds(rules, genesis, diffs + [diff], there);
    assert (diffs + [diff])[..|diffs|] == diffs;
    var back := Undo(there);
    ReadIsLatest(st.reserved, ReservedLog(diffs), st.safe, t);
    ReadIsLatest(st.settled, SettledLog(diffs), st.safe, t);
    ReadIsLatest(st.withdrawn, WithdrawnLog(diffs), st.safe, t);
    ReadIsLatest(st.pending, PendingLog(diffs), st.safe, t);
    ReadIsLatest(back.reserved, ReservedLog(diffs), back.safe, t);
    ReadIsLatest(back.settled, SettledLog(diffs), back.safe, t);
    ReadIsLatest(back.withdrawn, WithdrawnLog(diffs), back.safe, t);
    ReadIsLatest(back.pending, PendingLog(diffs), back.safe, t);
    forall d ensures d in back.due <==> d in st.due {
      assert Due(d.payoutAt, d.triple) in back.due <==> Owed(PendingLog(diffs), d.payoutAt, d.triple);
      assert Due(d.payoutAt, d.triple) in st.due <==> Owed(PendingLog(diffs), d.payoutAt, d.triple);
    }
  }
}
