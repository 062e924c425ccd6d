/** How far back the node can go: the rollback horizon follows the highest block ever appended, and any height from there to
  * the tip can be returned to, with storage reading as it did then.
  */
module RollbackHorizon {
  import opened Wrappers
  import opened Periods
  import opened KeyedHistory
  import opened Ledger
  import opened LedgerBooks
  import opened WithdrawalIndex
  import opened LedgerChain

  /** The greatest height storage has had so far. */
  ghost function Highest(run: seq<Config>, i: nat): (top: Height)
    requires i < |run|
    ensures forall j :: 0 <= j <= i ==> run[j].store.height <= top
    ensures exists j :: 0 <= j <= i && run[j].store.height == top
  {
    if i == 0 then run[0].store.height
    else
      var before := Highest(run, i - 1);
      if run[i].store.height > before then run[i].store.height else before
  }

  ghost predicate BacksTo(c: Config, d: Config, target: Height) {
    && c.store.safe <= target <= c.store.height == |c.diffs|
    && d == Config(c.diffs[..target], UndoTo(c.store, target))
  }

  ghost predicate Grows(rules: Rules, c: Config, d: Config) {
    exists diff :: d == Config(c.diffs + [diff], Append(rules, c.store, diff))
  }

  lemma MoveIs(rules: Rules, genesis: State, c: Config, d: Config)
    requires Moves(rules, genesis, c, d)
    ensures Grows(rules, c, d) || exists target: Height :: BacksTo(c, d, target)
  {
    hide Append, UndoTo, IsNext;
    if target: Height :|
       c.store.safe <= target <= c.store.height && |c.diffs| == c.store.height && d == Config(c.diffs[..target], UndoTo(c.store, target)) {
      assert BacksTo(c, d, target);
    }
  }

  /** What a move does to height and horizon. */
  lemma MoveHorizon(rules: Rules, genesis: State, c: Config, d: Config)
    requires Moves(rules, genesis, c, d)
    ensures || (d.store.height <= c.store.height && d.store.safe == c.store.safe)
            || (d.store.height == c.store.height + 1 && d.store.safe ==
                (if d.store.height - rules.maxRollbackDepth > c.store.safe then d.store.height - rules.maxRollbackDepth else c.store.safe))
  {
    hide Moves, Append, UndoTo;
    MoveIs(rules, genesis, c, d);
    if target: Height :| BacksTo(c, d, target) {
      UndoToKeeps(c.store, target);
    } else {
      var diff :| d == Config(c.diffs + [diff], Append(rules, c.store, diff));
      AppendHorizon(rules, c.store, diff);
    }
  }

  lemma MoveAt(rules: Rules, genesis: State, run: seq<Config>, i: nat)
    requires IsRun(rules, genesis, run) && 0 < i < |run|
    ensures Moves(rules, genesis, run[i - 1], run[i])
  {
    hide Moves;
    assert MovesAt(rules, genesis, run, i);
  }

  lemma StartsLow(rules: Rules, genesis: State, run: seq<Config>)
    requires IsRun(rules, genesis, run)
    ensures run[0].store.height == 0 && run[0].store.safe == 0 && run[0].diffs == []
  {
    hide MovesAt;
  }

  /** In every state of every run the horizon is the greatest height so far less the rollback depth, or zero. */
  lemma {:induction false} HorizonExactly(rules: Rules, genesis: State, run: seq<Config>, i: nat)
    requires IsRun(rules, genesis, run) && i < |run|
    ensures var lowest := Highest(run, i) - rules.maxRollbackDepth;
            run[i].store.safe == if lowest > 0 then lowest else 0
    decreases i
  {
    hide IsRun, Moves;
    if i == 0 {
      StartsLow(rules, genesis, run);
    } else {
      HorizonExactly(rules, genesis, run, i - 1);
      MoveAt(rules, genesis, run, i);
      MoveHorizon(rules, genesis, run[i - 1], run[i]);
    }
  }

  // ----- Going back

  /** A move leaves every part of the chain that is shorter than what it leads to. */
  lemma MoveKeepsPart(rules: Rules, genesis: State, c: Config, d: Config, target: Height)
    requires Moves(rules, genesis, c, d) && target < |d.diffs|
    ensures target <= |c.diffs| && d.diffs[..target] == c.diffs[..target]
  {
    hide Moves, Append, UndoTo;
    MoveIs(rules, genesis, c, d);
    if cut: Height :| BacksTo(c, d, cut) {
    } else {
      var diff :| d == Config(c.diffs + [diff], Append(rules, c.store, diff));
    }
  }

  /** Storage has stood for every part of the chain it stands for now. */
  lemma {:induction false} PassedThrough(rules: Rules, genesis: State, run: seq<Config>, i: nat, target: Height) returns (j: nat)
    requires IsRun(rules, genesis, run) && i < |run| && target <= |run[i].diffs|
    ensures j <= i && run[j].diffs == run[i].diffs[..target]
    decreases i
  {
    hide IsRun, Moves;
    if target == |run[i].diffs| {
      j := i;
      assert run[i].diffs[..target] == run[i].diffs;
    } else if i > 0 {
      MoveAt(rules, genesis, run, i);
      MoveKeepsPart(rules, genesis, run[i - 1], run[i], target);
      j := PassedThrough(rules, genesis, run, i - 1, target);
    } else {
      StartsLow(rules, genesis, run);
      assert false;
    }
  }

  /** Everything the ledgers and the index say. */
  ghost predicate ReadsAs(one: Store, two: Store) {
    && one.height == two.height && one.due == two.due
    && forall t: Triple ::
         && Read(one.reserved, t) == Read(two.reserved, t) && Read(one.settled, t) == Read(two.settled, t)
         && Read(one.withdrawn, t) == Read(two.withdrawn, t) && Read(one.pending, t) == Read(two.pending, t)
  }

  /** Storage that stands for a chain reads as any other that does. */
  lemma SameChainReads(rules: Rules, genesis: State, diffs: seq<State>, one: Store, two: Store)
    requires Holds(rules, genesis, diffs, one) && Holds(rules, genesis, diffs, two)
    ensures ReadsAs(one, two)
  {
    hide IsChain, Valid, Read, Latest, Owed;
    forall t ensures Read(one.reserved, t) == Read(two.reserved, t) && Read(one.settled, t) == Read(two.settled, t)
                  && Read(one.withdrawn, t) == Read(two.withdrawn, t) && Read(one.pending, t) == Read(two.pending, t)
    {
      ReadIsLatest(one.reserved, ReservedLog(diffs), one.safe, t);
      ReadIsLatest(one.settled, SettledLog(diffs), one.safe, t);
      ReadIsLatest(one.withdrawn, WithdrawnLog(diffs), one.safe, t);
      ReadIsLatest(one.pending, PendingLog(diffs), one.safe, t);
      ReadIsLatest(two.reserved, ReservedLog(diffs), two.safe, t);
      ReadIsLatest(two.settled, SettledLog(diffs), two.safe, t);
      ReadIsLatest(two.withdrawn, WithdrawnLog(diffs), two.safe, t);
      ReadIsLatest(two.pending, PendingLog(diffs), two.safe, t);
    }
    forall d ensures d in one.due <==> d in two.due {
      assert Due(d.payoutAt, d.triple) in one.due <==> Owed(PendingLog(diffs), d.payoutAt, d.triple);
      assert Due(d.payoutAt, d.triple) in two.due <==> Owed(PendingLog(diffs), d.payoutAt, d.triple);
    }
  }

  /** From every state of every run the node may go back to any height between its tip and the greatest height so far less the
    * rollback depth. It gets to what storage stood for at that height earlier in the run, and storage reads as it did then.
    */
  lemma RollbackReaches(rules: Rules, genesis: State, run: seq<Config>, i: nat, target: Height) returns (back: Config, j: nat)
    requires IsRun(rules, genesis, run) && i < |run|
    requires Highest(run, i) - rules.maxRollbackDepth <= target <= run[i].store.height
    ensures Moves(rules, genesis, run[i], back) && back.store.height == target
    ensures j <= i && back.diffs == run[j].diffs && ReadsAs(back.store, run[j].store)
  {
    hide UndoTo, IsRun, IsChain, FamiliesHold, IndexHolds, Inv, IsGenesis;
    var c := run[i];
    HorizonExactly(rules, genesis, run, i);
    RunHolds(rules, genesis, run, i);
    assert c.store.safe <= target <= c.store.height == |c.diffs|;
    UndoToHolds(rules, genesis, c.diffs, c.store, target);
    j := PassedThrough(rules, genesis, run, i, target);
    RunHolds(rules, genesis, run, j);
    back := Config(c.diffs[..target], UndoTo(c.store, target));
    hide Holds;
    SameChainReads(rules, genesis, back.diffs, back.store, run[j].store);
    UndoToKeeps(c.store, target);
  }

  /** And to no other height below its tip. */
  lemma RollbackOnlyTo(rules: Rules, genesis: State, run: seq<Config>, i: nat, back: Config)
    requires IsRun(rules, genesis, run) && i < |run| && Moves(rules, genesis, run[i], back) && back.store.height < run[i].store.height
    ensures Highest(run, i) - rules.maxRollbackDepth <= back.store.height
  {
    hide IsRun, Moves, Append, UndoTo;
    var c := run[i];
    HorizonExactly(rules, genesis, run, i);
    MoveIs(rules, genesis, c, back);
    if target: Height :| BacksTo(c, back, target) {
      UndoToKeeps(c.store, target);
    } else {
      var diff :| back == Config(c.diffs + [diff], Append(rules, c.store, diff));
      AppendHorizon(rules, c.store, diff);
    }
  }

  // ----- How much is kept

  /** No ledger keeps more heights of a triple than a number. */
  ghost predicate Short(st: Store, n: nat) {
    forall t: Triple ::
      && |HistoryOf(st.reserved, t)| <= n && |HistoryOf(st.settled, t)| <= n
      && |HistoryOf(st.withdrawn, t)| <= n && |HistoryOf(st.pending, t)| <= n
  }

  lemma WriteStaysShort<V>(f: Family<Triple, V>, log: Log<Triple, V>, safe: int, depth: nat, entries: map<Triple, V>, t: Triple)
    requires Valid(f, log, safe) && |HistoryOf(f, t)| <= depth + 2
    ensures |HistoryOf(Write(f, |log| + 1, |log| + 1 - depth, entries), t)| <= depth + 2
  {
    if t in entries {
      hide Valid, Write, HistoryOf;
      WriteShortens(f, log, safe, |log| + 1 - depth, entries, t);
    }
  }

  lemma AppendStaysShort(rules: Rules, diffs: seq<State>, st: Store, diff: State)
    requires FamiliesHold(diffs, st) && st.height == |diffs| && Short(st, rules.maxRollbackDepth + 2)
    ensures Short(Append(rules, st, diff), rules.maxRollbackDepth + 2)
  {
    hide Valid, Write, HistoryOf, IndexAppend;
    var depth := rules.maxRollbackDepth;
    forall t: Triple
      ensures var after := Append(rules, st, diff);
              && |HistoryOf(after.reserved, t)| <= depth + 2 && |HistoryOf(after.settled, t)| <= depth + 2
              && |HistoryOf(after.withdrawn, t)| <= depth + 2 && |HistoryOf(after.pending, t)| <= depth + 2
    {
      WriteStaysShort(st.reserved, ReservedLog(diffs), st.safe, depth, diff.reserved, t);
      WriteStaysShort(st.settled, SettledLog(diffs), st.safe, depth, diff.settled, t);
      WriteStaysShort(st.withdrawn, WithdrawnLog(diffs), st.safe, depth, diff.withdrawn, t);
      WriteStaysShort(st.pending, PendingLog(diffs), st.safe, depth, diff.pending, t);
    }
  }

  lemma {:induction false} UndoToStaysShort(st: Store, target: Height, n: nat)
    requires target <= st.height && Short(st, n)
    ensures Short(UndoTo(st, target), n)
    decreases st.height
  {
    if st.height > target {
      UndoStaysShort(st, n);
      hide Short, Undo;
      UndoHeight(st);
      UndoToStaysShort(Undo(st), target, n);
    }
  }

  lemma UndoStaysShort(st: Store, n: nat)
    requires st.height > 0 && Short(st, n)
    ensures Short(Undo(st), n)
  {
    hide Rollback, HistoryOf, IndexRollback, WrittenAtTip;
    forall t: Triple
      ensures var after := Undo(st);
              && |HistoryOf(after.reserved, t)| <= n && |HistoryOf(after.settled, t)| <= n
              && |HistoryOf(after.withdrawn, t)| <= n && |HistoryOf(after.pending, t)| <= n
    {
      RollbackShortens(st.reserved, st.height, t);
      RollbackShortens(st.settled, st.height, t);
      RollbackShortens(st.withdrawn, st.height, t);
      RollbackShortens(st.pending, st.height, t);
    }
  }

  /** In every state of every run no ledger keeps more heights of a triple than the rollback depth and two. */
  lemma {:induction false} HistoriesBounded(rules: Rules, genesis: State, run: seq<Config>, i: nat)
    requires IsRun(rules, genesis, run) && i < |run|
    ensures Short(run[i].store, rules.maxRollbackDepth + 2)
    decreases i
  {
    hide IsRun, Moves, Holds, Short;
    if i > 0 {
      HistoriesBounded(rules, genesis, run, i - 1);
      RunHolds(rules, genesis, run, i - 1);
      MoveAt(rules, genesis, run, i);
      MoveStaysShort(rules, genesis, run[i - 1], run[i]);
    } else {
      StartsShort(rules, genesis, run);
    }
  }

  lemma StartsShort(rules: Rules, genesis: State, run: seq<Config>)
    requires IsRun(rules, genesis, run)
    ensures Short(run[0].store, rules.maxRollbackDepth + 2)
  {
    hide MovesAt;
  }

  lemma MoveStaysShort(rules: Rules, genesis: State, c: Config, d: Config)
    requires Holds(rules, genesis, c.diffs, c.store) && Moves(rules, genesis, c, d) && Short(c.store, rules.maxRollbackDepth + 2)
    ensures Short(d.store, rules.maxRollbackDepth + 2)
  {
    hide Moves, Append, UndoTo, Short, FamiliesHold, IndexHolds, IsChain, Inv, IsGenesis;
    MoveIs(rules, genesis, c, d);
    if target: Height :| BacksTo(c, d, target) {
      UndoToStaysShort(c.store, target, rules.maxRollbackDepth + 2);
    } else {
      var diff :| d == Config(c.diffs + [diff], Append(rules, c.store, diff));
      AppendStaysShort(rules, c.diffs, c.store, diff);
    }
  }
}
