/** A run, from genesis on, at whose end the index still holds the entry of a request that has been paid. */
module StaleWithdrawal {
  import opened Wrappers
  import opened Periods
  import opened KeyedHistory
  import opened Ledger
  import opened LedgerBooks
  import opened WithdrawalIndex
  import opened LedgerChain

  const CLIENT: Address := 1
  const MINER: Address := 2
  const ASSET: nat := 3
  const RESERVATION := Triple(CLIENT, MINER, ASSET)
  const CRED := Account(CLIENT, Issued(ASSET))
  const HRTH := Account(CLIENT, Hearth)

  const RULES := Rules(1, 1, 100)
  const GENESIS := EMPTY.(balances := map[CRED := 100, HRTH := 10])

  function At(h: Height, tx: Transaction): Carried { Carried(Facts(h, 1, 1, {ASSET}, {MINER}, map[], {}), tx) }

  const RESERVE := Reserve(CLIENT, ASSET, 10, MINER, Hearth, 1)
  const ASK_FIVE := Withdraw(CLIENT, MINER, ASSET, 5, Hearth, 1)
  const ASK_FOUR := Withdraw(CLIENT, MINER, ASSET, 4, Hearth, 1)

  /** Block 2 reserves 10 and asks for 5 back, to be paid at height 4. What it changes is also the state it leads to. */
  const FILING := EMPTY.(balances := map[CRED := 90, HRTH := 8], reserved := map[RESERVATION := 10],
                         pending := map[RESERVATION := Some(PendingWithdrawal(5, 4))], fees := map[Hearth := 2])

  const PAYING := EMPTY.(balances := map[CRED := 95], withdrawn := map[RESERVATION := 5], pending := map[RESERVATION := None])

  /** Block 4 pays the 5 and carries a request for 4 more. */
  const REFILING := EMPTY.(balances := map[CRED := 95, HRTH := 7], withdrawn := map[RESERVATION := 5],
                           pending := map[RESERVATION := Some(PendingWithdrawal(4, 6))], fees := map[Hearth := 3])

  const RESERVING := EMPTY.(balances := map[CRED := 90, HRTH := 9], reserved := map[RESERVATION := 10], fees := map[Hearth := 1])

  lemma Reserves()
    ensures Diff(At(2, RESERVE).facts, GENESIS, RESERVE) == Ok(RESERVING)
  {
  }

  lemma Asks(s: State, h: Height, tx: Transaction, paid: int)
    requires tx == if h == 2 then ASK_FIVE else ASK_FOUR
    requires h == 2 || h == 4
    requires PendingOf(s, RESERVATION).None? && Unsettled(s, RESERVATION) >= tx.amount && Get(s.reserved, RESERVATION) > 0
    requires Get(s.balances, HRTH) == paid > 0
    ensures Diff(At(h, tx).facts, s, tx) ==
            Ok(EMPTY.(balances := map[HRTH := paid - 1], fees := map[Hearth := Get(s.fees, Hearth) + 1],
                      pending := map[RESERVATION := Some(PendingWithdrawal(tx.amount, h + 2))]))
  {
    assert PeriodStart(h, 1) == h;
    MergeEmpty(s.balances);
  }

  lemma OneTx(s: State, initial: State, c: Carried, change: State)
    requires c.facts.periodLength > 0 && c.facts.height > 0
    requires Diff(c.facts, Overlay(s, initial), c.tx) == Ok(change)
    ensures TxsDiff(s, initial, [c]) == Ok(Overlay(initial, change))
  {
    hide Diff, Overlay;
    assert [c][..0] == [];
  }

  lemma TwoTxs(s: State, initial: State, c: Carried, change: State, d: Carried, last: State)
    requires c.facts.periodLength > 0 && c.facts.height > 0 && d.facts.periodLength > 0 && d.facts.height > 0
    requires Diff(c.facts, Overlay(s, initial), c.tx) == Ok(change)
    requires Diff(d.facts, Overlay(s, Overlay(initial, change)), d.tx) == Ok(last)
    ensures TxsDiff(s, initial, [c, d]) == Ok(Overlay(Overlay(initial, change), last))
  {
    hide Diff, Overlay;
    OneTx(s, initial, c, change);
    assert [c, d][..1] == [c];
  }

  const ASKED_FIVE := EMPTY.(balances := map[HRTH := 8], fees := map[Hearth := 2],
                             pending := map[RESERVATION := Some(PendingWithdrawal(5, 4))])

  const ASKED_FOUR := EMPTY.(balances := map[HRTH := 7], fees := map[Hearth := 3],
                             pending := map[RESERVATION := Some(PendingWithdrawal(4, 6))])

  lemma FilingBlock()
    ensures BlockDiff(GENESIS, [], [At(2, RESERVE), At(2, ASK_FIVE)]) == Ok(FILING)
  {
    hide Diff, Overlay, PayoutDiff;
    IdleBlock(GENESIS);
    EmptyOverlay(GENESIS);
    EmptyOverlaid(RESERVING);
    Reserves();
    AskFive();
    FilingParts();
    TwoTxs(GENESIS, EMPTY, At(2, RESERVE), RESERVING, At(2, ASK_FIVE), ASKED_FIVE);
    hide TxsDiff;
  }

  lemma AskFive()
    ensures Diff(At(2, ASK_FIVE).facts, Overlay(GENESIS, RESERVING), ASK_FIVE) == Ok(ASKED_FIVE)
  {
    var s := Overlay(GENESIS, RESERVING);
    assert Get(s.balances, HRTH) == 9 && Get(s.fees, Hearth) == 1 && Get(s.reserved, RESERVATION) == 10;
    assert Get(s.withdrawn, RESERVATION) == 0 && Get(s.settled, RESERVATION) == 0;
    hide Diff;
    Asks(s, 2, ASK_FIVE, 9);
  }

  lemma EmptyOverlaid(diff: State)
    ensures Overlay(EMPTY, diff) == diff
  {
    MergeOnto(diff.balances);
    MergeOnto(diff.reserved);
    MergeOnto(diff.settled);
    MergeOnto(diff.withdrawn);
    MergeOnto(diff.pending);
    MergeOnto(diff.work);
    MergeOnto(diff.fees);
  }

  lemma MergeOnto<K, V>(m: map<K, V>)
    ensures map[] + m == m
  {
  }

  /** Overlaying field by field. */
  lemma Fields(a: State, b: State, c: State)
    requires a.balances + b.balances == c.balances && a.reserved + b.reserved == c.reserved && a.settled + b.settled == c.settled
    requires a.withdrawn + b.withdrawn == c.withdrawn && a.pending + b.pending == c.pending
    requires a.work + b.work == c.work && a.fees + b.fees == c.fees
    ensures Overlay(a, b) == c
  {
  }

  lemma Replaces<K, V>(k: K, v: V, w: V)
    ensures map[k := v] + map[k := w] == map[k := w] && map[k := v] + map[] == map[k := v] == map[] + map[k := v]
  {
  }

  lemma BalancesMeet(cred: int, hrth: int, c: int, h: int)
    ensures map[CRED := cred, HRTH := hrth] + map[HRTH := h] == map[CRED := cred, HRTH := h]
    ensures map[CRED := c] + map[HRTH := h] == map[CRED := c, HRTH := h]
    ensures map[CRED := cred, HRTH := hrth] + map[CRED := c, HRTH := h] == map[CRED := c, HRTH := h]
  {
  }

  lemma FilingParts()
    ensures Overlay(RESERVING, ASKED_FIVE) == FILING
  {
    BalancesMeet(90, 9, 0, 8);
    Replaces(RESERVATION, 10, 10);
    Replaces(RESERVATION, Some(PendingWithdrawal(5, 4)), None);
    Replaces(Hearth, 1, 2);
    Fields(RESERVING, ASKED_FIVE, FILING);
  }

  lemma RefilingParts()
    ensures Overlay(PAYING, ASKED_FOUR) == REFILING
  {
    BalancesMeet(0, 0, 95, 7);
    Replaces(RESERVATION, 5, 5);
    Replaces(RESERVATION, None, Some(PendingWithdrawal(4, 6)));
    Replaces(Hearth, 3, 3);
    Fields(PAYING, ASKED_FOUR, REFILING);
  }

  lemma FilingState()
    ensures Overlay(GENESIS, FILING) == FILING
  {
    BalancesMeet(100, 10, 90, 8);
    Replaces(RESERVATION, 10, 10);
    Replaces(RESERVATION, Some(PendingWithdrawal(5, 4)), None);
    Replaces(Hearth, 2, 2);
    Fields(GENESIS, FILING, FILING);
  }

  lemma IdleBlock(s: State)
    ensures BlockDiff(s, [], []) == Ok(EMPTY) && PayoutDiff(s, []) == Ok(EMPTY)
  {
  }

  lemma Pays()
    ensures PayoutDiff(FILING, [RESERVATION]) == Ok(PAYING)
  {
    var payments := Payments(FILING, [RESERVATION]);
    assert Paid(FILING, RESERVATION) == 5;
    assert payments == [Payment(RESERVATION, 5)] && payments[..0] == [];
    assert Get(FILING.balances + map[], CRED) == 90;
    assert PayoutBalances(FILING.balances, payments[..0]) == Ok(map[]);
    assert PayoutBalances(FILING.balances, payments) == Ok(map[CRED := 95]);
    assert PayoutWithdrawn(FILING.withdrawn, payments[..0]) == map[];
    assert PayoutWithdrawn(FILING.withdrawn, payments) == map[RESERVATION := 5];
    var cleared: Requests := map t | t in [RESERVATION] :: None;
    assert cleared == map[RESERVATION := None];
  }

  lemma AskFour()
    ensures Diff(At(4, ASK_FOUR).facts, Overlay(FILING, PAYING), ASK_FOUR) == Ok(ASKED_FOUR)
  {
    var s := Overlay(FILING, PAYING);
    assert Get(s.balances, HRTH) == 8 && Get(s.fees, Hearth) == 2 && Get(s.reserved, RESERVATION) == 10;
    assert Get(s.withdrawn, RESERVATION) == 5 && Get(s.settled, RESERVATION) == 0;
    hide Diff;
    Asks(s, 4, ASK_FOUR, 8);
  }

  lemma RefilingBlock()
    ensures BlockDiff(FILING, [RESERVATION], [At(4, ASK_FOUR)]) == Ok(REFILING)
  {
    hide Diff, Overlay, PayoutDiff;
    Pays();
    AskFour();
    RefilingParts();
    OneTx(FILING, PAYING, At(4, ASK_FOUR), ASKED_FOUR);
    hide TxsDiff;
  }

  // ----- The run

  function Next(c: Config, diff: State): Config { Config(c.diffs + [diff], Append(RULES, c.store, diff)) }

  const START := Config([], NEW_STORE)

  function One(): Config { Next(START, EMPTY) }
  function Two(): Config { Next(One(), FILING) }
  function Three(): Config { Next(Two(), EMPTY) }
  function Four(): Config { Next(Three(), REFILING) }

  /** Genesis, the filing block, an idle one and the one that pays and files again. */
  function StaleRun(): seq<Config> { [START, One(), Two(), Three(), Four()] }

  lemma StaleDiffs()
    ensures One().diffs == [] + [EMPTY] && Two().diffs == [] + [EMPTY] + [FILING]
    ensures Three().diffs == [] + [EMPTY] + [FILING] + [EMPTY]
    ensures Four().diffs == [] + [EMPTY] + [FILING] + [EMPTY] + [REFILING]
    ensures Four().store.height == 4
  {
    hide Write, IndexAppend;
  }

  lemma StateSnoc(diffs: seq<State>, diff: State)
    ensures StateAt(GENESIS, diffs + [diff]) == Overlay(StateAt(GENESIS, diffs), diff)
  {
    assert (diffs + [diff])[..|diffs|] == diffs;
  }

  lemma States()
    ensures StateAt(GENESIS, [] + [EMPTY]) == GENESIS
    ensures StateAt(GENESIS, [] + [EMPTY] + [FILING]) == FILING
    ensures StateAt(GENESIS, [] + [EMPTY] + [FILING] + [EMPTY]) == FILING
  {
    assert StateAt(GENESIS, []) == GENESIS;
    hide StateAt, Overlay;
    StateSnoc([], EMPTY);
    StateSnoc([] + [EMPTY], FILING);
    StateSnoc([] + [EMPTY] + [FILING], EMPTY);
    EmptyOverlay(GENESIS);
    EmptyOverlay(FILING);
    FilingState();
  }

  /** The payouts of a block are those the state before it has due. */
  ghost predicate Dues(s: State, h: Height, due: seq<Triple>) {
    |due| <= 1 && forall t :: t in due <==> PendingOf(s, t).Some? && PendingOf(s, t).value.payoutAt == h
  }

  lemma DueListed(genesis: State, diffs: seq<State>, due: seq<Triple>)
    requires IsGenesis(genesis) && Dues(StateAt(genesis, diffs), |diffs| + 1, due)
    ensures IsDueList(PendingLog(diffs), |diffs| + 1, due)
  {
    hide StateAt, PendingLog;
    forall t ensures PendingOf(StateAt(genesis, diffs), t) == PendingBy(PendingLog(diffs), t) {
      LogsAreState(genesis, diffs, t);
    }
  }

  lemma IdleMoves(c: Config)
    requires Dues(StateAt(GENESIS, c.diffs), |c.diffs| + 1, [])
    ensures Moves(RULES, GENESIS, c, Next(c, EMPTY))
  {
    IdleBlock(StateAt(GENESIS, c.diffs));
    hide StateAt, BlockDiff, Append;
    DueListed(GENESIS, c.diffs, []);
    assert IsNext(RULES, GENESIS, c.diffs, [], [], EMPTY);
    hide IsNext;
  }

  lemma FilingMoves(c: Config)
    requires |c.diffs| == 1 && StateAt(GENESIS, c.diffs) == GENESIS
    ensures Moves(RULES, GENESIS, c, Next(c, FILING))
  {
    FilingBlock();
    hide StateAt, BlockDiff, Append;
    DueListed(GENESIS, c.diffs, []);
    assert IsNext(RULES, GENESIS, c.diffs, [], [At(2, RESERVE), At(2, ASK_FIVE)], FILING);
    hide IsNext;
  }

  lemma RefilingMoves(c: Config)
    requires |c.diffs| == 3 && StateAt(GENESIS, c.diffs) == FILING
    ensures Moves(RULES, GENESIS, c, Next(c, REFILING))
  {
    RefilingBlock();
    hide StateAt, BlockDiff, Append;
    DueListed(GENESIS, c.diffs, [RESERVATION]);
    assert IsNext(RULES, GENESIS, c.diffs, [RESERVATION], [At(4, ASK_FOUR)], REFILING);
    hide IsNext;
  }

  lemma GenesisSound()
    ensures IsGenesis(GENESIS) && Inv(GENESIS)
  {
  }

  lemma NothingDue(s: State, h: Height)
    requires s == GENESIS || (s == FILING && h != 4)
    ensures Dues(s, h, [])
  {
  }

  lemma FirstMoves()
    ensures Moves(RULES, GENESIS, START, One())
  {
    assert StateAt(GENESIS, START.diffs) == GENESIS && |START.diffs| == 0;
    hide Moves, StateAt, Dues, Append;
    NothingDue(GENESIS, 1);
    IdleMoves(START);
  }

  lemma SecondMoves()
    ensures Moves(RULES, GENESIS, One(), Two())
  {
    hide Moves, StateAt, Append;
    States();
    StaleDiffs();
    FilingMoves(One());
  }

  lemma ThirdMoves()
    ensures Moves(RULES, GENESIS, Two(), Three())
  {
    hide Moves, StateAt, Dues, Append;
    States();
    StaleDiffs();
    assert |Two().diffs| == 2;
    NothingDue(FILING, 3);
    IdleMoves(Two());
  }

  lemma FourthMoves()
    ensures Moves(RULES, GENESIS, Three(), Four())
  {
    hide Moves, StateAt, Append;
    States();
    StaleDiffs();
    RefilingMoves(Three());
  }

  lemma StaleRunIsRun()
    ensures IsRun(RULES, GENESIS, StaleRun())
  {
    hide Moves, One, Two, Three, Four, Inv, IsGenesis;
    GenesisSound();
    FirstMoves();
    SecondMoves();
    ThirdMoves();
    FourthMoves();
    var run := StaleRun();
    forall i | 0 < i < |run| ensures MovesAt(RULES, GENESIS, run, i) {
      assert i == 1 || i == 2 || i == 3 || i == 4;
    }
  }

  /** The run is one the node can make; at its end the entry of the paid request is still in the index, though the request
    * now pending is due at another height.
    */
  lemma StaleEntryReached()
    ensures IsRun(RULES, GENESIS, StaleRun())
    ensures var st := StaleRun()[4].store;
            && st.height == 4 && Due(4, RESERVATION) in st.due
            && Read(st.pending, RESERVATION) == Some(Some(PendingWithdrawal(4, 6)))
  {
    var log, st := PendingLog(Four().diffs), Four().store;
    StaleRunIsRun();
    StaleDiffs();
    StaleLog();
    assert StaleRun()[4] == Four();
    hide IsRun, Append, Four, StaleRun, Latest, PendingLog;
    IndexSound(RULES, GENESIS, StaleRun(), 4, 4, RESERVATION);
    RunHolds(RULES, GENESIS, StaleRun(), 4);
    ReadIsLatest(st.pending, log, st.safe, RESERVATION);
  }

  lemma StaleLog()
    ensures var log := PendingLog(Four().diffs);
            PaidAndRefiled(log, 4, RESERVATION) && Latest(log, RESERVATION) == Some(Some(PendingWithdrawal(4, 6)))
  {
    StaleDiffs();
    hide Four;
    LogsSnoc([], EMPTY);
    LogsSnoc([] + [EMPTY], FILING);
    LogsSnoc([] + [EMPTY] + [FILING], EMPTY);
    LogsSnoc([] + [EMPTY] + [FILING] + [EMPTY], REFILING);
    assert PendingLog([]) == [];
    hide PendingLog;
    Refiled([] + [map[]], FILING.pending, REFILING.pending);
  }

  lemma Refiled(log: seq<Requests>, first: Requests, second: Requests)
    requires |log| == 1 && first == map[RESERVATION := Some(PendingWithdrawal(5, 4))]
    requires second == map[RESERVATION := Some(PendingWithdrawal(4, 6))]
    ensures var all := log + [first] + [map[]] + [second];
            PaidAndRefiled(all, 4, RESERVATION) && Latest(all, RESERVATION) == Some(Some(PendingWithdrawal(4, 6)))
  {
    var all: seq<Requests> := log + [first] + [map[]] + [second];
    assert all[..3] == log + [first] + [map[]] && all[..3][..2] == log + [first];
    assert Latest(log + [first], RESERVATION) == Some(Some(PendingWithdrawal(5, 4)));
    assert Latest(all[..3], RESERVATION) == Some(Some(PendingWithdrawal(5, 4)));
  }
}
