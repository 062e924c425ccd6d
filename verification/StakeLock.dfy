/** HRTH stakes: a prevHeight-linked list of writes per address, the lock read at the tip, and the same lock rebuilt
  * from stored history. One address at a time; nothing here is shared between addresses.
  */
module StakeLock {
  import opened Periods

  // ----- Storage

  datatype StakeNode = StakeNode(amount: nat, prevHeight: Height)
  datatype CurrentStake = CurrentStake(amount: nat, height: Height, prevHeight: Height)

  const UNAVAILABLE := CurrentStake(0, 0, 0)

  /** What is stored for one address: the current entry and a node per write. */
  datatype Stored = Stored(current: CurrentStake, nodes: map<Height, StakeNode>)

  function NodeAt(nodes: map<Height, StakeNode>, h: Height): StakeNode {
    if h in nodes then nodes[h] else StakeNode(0, 0)
  }

  function SetStake(s: Stored, h: Height, amount: nat): Stored {
    Stored(CurrentStake(amount, h, s.current.height), s.nodes[h := StakeNode(amount, s.current.height)])
  }

  /** Rolling back a block touches the stake only if the block wrote it. */
  function RollbackStake(s: Stored, h: Height): Stored {
    if s.current.height == h then
      var prev := NodeAt(s.nodes, s.current.prevHeight);
      Stored(CurrentStake(prev.amount, s.current.prevHeight, prev.prevHeight), s.nodes - {h})
    else s
  }

  // ----- The writes it stands for, newest first

  datatype Write = Write(height: Height, amount: nat)

  ghost predicate Linked(nodes: map<Height, StakeNode>, start: Height, writes: seq<Write>) {
    if writes == [] then start == 0
    else
      && start == writes[0].height && 0 < start && start in nodes
      && nodes[start].amount == writes[0].amount && nodes[start].prevHeight < start
      && Linked(nodes, nodes[start].prevHeight, writes[1..])
  }

  ghost predicate Represents(s: Stored, writes: seq<Write>) {
    && Linked(s.nodes, s.current.height, writes)
    && (forall h :: h in s.nodes ==> Wrote(writes, h))
    && s.current == (if writes == [] then UNAVAILABLE
                     else CurrentStake(writes[0].amount, writes[0].height, s.nodes[writes[0].height].prevHeight))
  }

  lemma {:induction false} LinkedFrame(nodes: map<Height, StakeNode>, more: map<Height, StakeNode>, start: Height,
                                       writes: seq<Write>)
    requires Linked(nodes, start, writes)
    requires forall h :: 0 < h <= start && h in nodes ==> h in more && more[h] == nodes[h]
    ensures Linked(more, start, writes)
  {
    if writes != [] {
      LinkedFrame(nodes, more, nodes[start].prevHeight, writes[1..]);
    }
  }

  /** A stake write becomes the newest write. */
  lemma SetStakeRepresents(s: Stored, writes: seq<Write>, h: Height, amount: nat)
    requires Represents(s, writes) && h > s.current.height
    ensures Represents(SetStake(s, h, amount), [Write(h, amount)] + writes)
  {
    var after, longer := SetStake(s, h, amount), [Write(h, amount)] + writes;
    LinkedFrame(s.nodes, after.nodes, s.current.height, writes);
    assert longer[1..] == writes;
    forall x | x in after.nodes ensures Wrote(longer, x) {
      if x == h {
        assert longer[0].height == h;
      } else {
        var i :| 0 <= i < |writes| && writes[i].height == x;
        assert longer[i + 1].height == x;
      }
    }
  }

  /** Rolling back the block of the newest write restores what was stored before it. */
  lemma RollbackStakeRepresents(s: Stored, writes: seq<Write>, h: Height)
    requires Represents(s, writes) && h > 0
    ensures Represents(RollbackStake(s, h), if writes != [] && writes[0].height == h then writes[1..] else writes)
  {
    if writes != [] && writes[0].height == h {
      var rest := writes[1..];
      var prev := s.nodes[h].prevHeight;
      LinkedFrame(s.nodes, s.nodes - {h}, prev, rest);
      forall x | x in s.nodes && x != h ensures Wrote(rest, x) {
        var i :| 0 <= i < |writes| && writes[i].height == x;
        assert rest[i - 1].height == x;
      }
      WritesDescend(s.nodes, prev, rest);
    }
  }

  lemma RollbackUndoesSet(s: Stored, writes: seq<Write>, h: Height, amount: nat)
    requires Represents(s, writes) && h > s.current.height
    ensures RollbackStake(SetStake(s, h, amount), h) == s
  {
    WritesDescend(s.nodes, s.current.height, writes);
    assert SetStake(s, h, amount).nodes - {h} == s.nodes;
  }

  // ----- Reading

  /** The amount in force after the writes up to `h`. */
  function SetBy(writes: seq<Write>, h: int): nat {
    if writes == [] then 0 else if writes[0].height <= h then writes[0].amount else SetBy(writes[1..], h)
  }

  /** The chain of nodes from `start` down, stopping if a link fails to go down. */
  function Walk(nodes: map<Height, StakeNode>, start: Height): seq<Write>
    decreases start
  {
    if start == 0 then []
    else
      var node := NodeAt(nodes, start);
      [Write(start, node.amount)] + if node.prevHeight < start then Walk(nodes, node.prevHeight) else []
  }

  lemma {:induction false} WalkIsWrites(nodes: map<Height, StakeNode>, start: Height, writes: seq<Write>)
    requires Linked(nodes, start, writes)
    ensures Walk(nodes, start) == writes
  {
    if writes != [] {
      WalkIsWrites(nodes, nodes[start].prevHeight, writes[1..]);
      assert writes == [writes[0]] + writes[1..];
    }
  }

  lemma {:induction false} WritesDescend(nodes: map<Height, StakeNode>, start: Height, writes: seq<Write>)
    requires Linked(nodes, start, writes)
    ensures forall i :: 0 <= i < |writes| ==> 0 < writes[i].height <= start
    ensures Descending(writes)
  {
    if writes != [] {
      WritesDescend(nodes, nodes[start].prevHeight, writes[1..]);
    }
  }

  ghost predicate Descending(writes: seq<Write>) {
    forall i, j :: 0 <= i < j < |writes| ==> writes[i].height > writes[j].height
  }

  /** The first write below `limit` on the way down from `start`. */
  method StakeBefore(nodes: map<Height, StakeNode>, start: Height, limit: Height, ghost writes: seq<Write>)
    returns (amount: nat)
    requires Linked(nodes, start, writes)
    ensures amount == SetBy(writes, limit - 1)
  {
    var h: nat := start;
    ghost var rest := writes;
    while h > 0
      invariant Linked(nodes, h, rest) && SetBy(rest, limit - 1) == SetBy(writes, limit - 1)
    {
      var node := nodes[h];
      if h < limit {
        return node.amount;
      }
      h := node.prevHeight;
      rest := rest[1..];
    }
    amount := 0;
  }

  /** `stakeAt`: the current amount when it was set before the period, the walk otherwise. */
  method StakeAt(s: Stored, periodStart: Height, ghost writes: seq<Write>) returns (amount: nat)
    requires Represents(s, writes)
    ensures amount == SetBy(writes, periodStart - 1)
  {
    if s.current.height < periodStart {
      amount := s.current.amount;
    } else if s.current.height == 0 {
      amount := 0;
    } else {
      amount := StakeBefore(s.nodes, s.current.prevHeight, periodStart, writes[1..]);
    }
  }

  // ----- The lock

  function Max(a: nat, b: nat): nat { if a >= b then a else b }

  /** The lock at a height: the stake in force for its period, or the latest one set if that is larger. */
  function LockAt(writes: seq<Write>, length: nat, h: Height): nat
    requires length > 0 && h > 0
  {
    Max(SetBy(writes, PeriodStart(h, length) - 1), SetBy(writes, h))
  }

  lemma {:induction false} SetByAfterAll(writes: seq<Write>, h: int, later: int)
    requires (forall i :: 0 <= i < |writes| ==> writes[i].height <= h) && h <= later
    ensures SetBy(writes, later) == SetBy(writes, h)
  {
  }

  /** The amount set by a height is that of the newest write up to it, or zero if there is none. */
  lemma {:induction false} SetByNewest(writes: seq<Write>, h: int, i: nat)
    requires Descending(writes)
    ensures (forall j :: 0 <= j < |writes| ==> writes[j].height > h) ==> SetBy(writes, h) == 0
    ensures i < |writes| && writes[i].height <= h && (forall j :: 0 <= j < i ==> writes[j].height > h) ==> SetBy(writes, h) == writes[i].amount
    decreases |writes|
  {
    if writes != [] && writes[0].height > h {
      var rest := writes[1..];
      assert forall j :: 0 <= j < |rest| ==> rest[j] == writes[j + 1];
      SetByNewest(rest, h, if i > 0 then i - 1 else 0);
    }
  }

  lemma {:induction false} SetByUnchanged(writes: seq<Write>, from: int, h: int)
    requires from <= h && forall i :: 0 <= i < |writes| ==> !(from < writes[i].height <= h)
    ensures SetBy(writes, h) == SetBy(writes, from)
    decreases |writes|
  {
    if writes != [] {
      var rest := writes[1..];
      assert forall j :: 0 <= j < |rest| ==> rest[j] == writes[j + 1];
      SetByUnchanged(rest, from, h);
    }
  }

  /** What a lock has to be at a height: at least the stake set before the period and at least the latest one, and one of the
    * two; and a stake that was not written in the period so far is locked at its amount.
    */
  ghost predicate Locks(lock: nat, writes: seq<Write>, length: nat, h: Height)
    requires length > 0 && h > 0
  {
    var inForce, latest := SetBy(writes, PeriodStart(h, length) - 1), SetBy(writes, h);
    && lock >= inForce && lock >= latest && (lock == inForce || lock == latest)
    && ((forall i :: 0 <= i < |writes| ==> !(PeriodStart(h, length) <= writes[i].height <= h)) ==> lock == latest)
  }

  lemma LockAtLocks(writes: seq<Write>, length: nat, h: Height)
    requires length > 0 && h > 0
    ensures Locks(LockAt(writes, length, h), writes, length, h)
  {
    InPeriod(h, length);
    if forall i :: 0 <= i < |writes| ==> !(PeriodStart(h, length) <= writes[i].height <= h) {
      SetByUnchanged(writes, PeriodStart(h, length) - 1, h);
    }
  }

  /** `lockedStake` at the tip reads the lock at the tip's height. */
  method LockedStake(s: Stored, tip: Height, length: nat, ghost writes: seq<Write>) returns (lock: nat)
    requires length > 0 && tip > 0 && Represents(s, writes) && s.current.height <= tip
    ensures lock == LockAt(writes, length, tip) && Locks(lock, writes, length, tip)
  {
    LockAtLocks(writes, length, tip);
    var start := PeriodStart(tip, length);
    var inForce := StakeAt(s, start, writes);
    var latestSet := StakeAt(s, start + length, writes);
    InPeriod(tip, length);
    WritesDescend(s.nodes, s.current.height, writes);
    SetByAfterAll(writes, tip, start + length - 1);
    lock := Max(inForce, latestSet);
  }

  // ----- The same lock rebuilt from stored history

  datatype Change = Change(height: Height, lock: nat)

  /** What the change points say at a height: the last one at or below it. */
  function InForce(changes: seq<Change>, h: Height): nat {
    if changes == [] then 0
    else if changes[|changes| - 1].height <= h then changes[|changes| - 1].lock
    else InForce(changes[..|changes| - 1], h)
  }

  function DropAbove(writes: seq<Write>, last: Height): seq<Write> {
    if writes != [] && writes[0].height > last then DropAbove(writes[1..], last) else writes
  }

  /** The writes from `firstStart` on, and the last one before it. */
  function KeepFrom(writes: seq<Write>, firstStart: Height): seq<Write> {
    if writes == [] then []
    else if writes[0].height < firstStart then [writes[0]]
    else [writes[0]] + KeepFrom(writes[1..], firstStart)
  }

  lemma {:induction false} KeptSetBy(writes: seq<Write>, firstStart: Height, last: Height, h: int)
    requires Descending(writes) && firstStart - 1 <= h <= last
    ensures SetBy(KeepFrom(DropAbove(writes, last), firstStart), h) == SetBy(writes, h)
  {
    if writes != [] {
      assert Descending(writes[1..]);
      KeptSetBy(writes[1..], firstStart, last, h);
      if writes[0].height <= last {
        NothingAbove(writes[1..], last);
        if writes[0].height >= firstStart {
          assert KeepFrom(writes, firstStart)[1..] == KeepFrom(writes[1..], firstStart);
        }
      }
    }
  }

  lemma NothingAbove(writes: seq<Write>, last: Height)
    requires writes != [] ==> writes[0].height <= last
    ensures DropAbove(writes, last) == writes
  {
  }

  predicate Wrote(writes: seq<Write>, h: Height) {
    exists i :: 0 <= i < |writes| && writes[i].height == h
  }

  /** A height where the lock may change. */
  predicate MayChange(writes: seq<Write>, length: nat, h: Height)
    requires length > 0 && h > 0
  {
    PeriodStart(h, length) == h || Wrote(writes, h)
  }

  function Candidates(writes: seq<Write>, length: nat, from: Height, last: Height): (heights: seq<Height>)
    requires length > 0 && from > 0
    ensures forall i :: 0 <= i < |heights| ==> from <= heights[i] <= last
    ensures forall i, j :: 0 <= i < j < |heights| ==> heights[i] < heights[j]
    ensures forall h :: from <= h <= last && MayChange(writes, length, h) ==> h in heights
    decreases last + 1 - from
  {
    if from > last then []
    else (if MayChange(writes, length, from) then [from] else []) + Candidates(writes, length, from + 1, last)
  }

  lemma {:induction false} SetByStep(writes: seq<Write>, h: Height)
    requires h > 0 && !Wrote(writes, h)
    ensures SetBy(writes, h) == SetBy(writes, h - 1)
  {
    if writes != [] {
      assert writes[0].height != h;
      forall i | 0 <= i < |writes[1..]| ensures writes[1..][i].height != h {
        assert writes[1..][i] == writes[i + 1];
      }
      SetByStep(writes[1..], h);
    }
  }

  /** Between the candidates the lock stands still. */
  lemma {:induction false} LockStands(writes: seq<Write>, length: nat, c: Height, h: Height)
    requires length > 0 && 0 < c <= h
    requires forall x :: c < x <= h ==> !MayChange(writes, length, x)
    ensures LockAt(writes, length, h) == LockAt(writes, length, c)
    decreases h
  {
    if c < h {
      LockStands(writes, length, c, h - 1);
      assert !MayChange(writes, length, h);
      SamePeriod(h, length);
      SetByStep(writes, h);
    }
  }

  /** The kept writes give the lock at every height of the range. */
  lemma LockKept(writes: seq<Write>, length: nat, from: Height, last: Height, h: Height)
    requires length > 0 && from > 0 && Descending(writes) && PeriodStart(from, length) <= h <= last
    ensures LockAt(KeepFrom(DropAbove(writes, last), PeriodStart(from, length)), length, h) == LockAt(writes, length, h)
  {
    var firstStart := PeriodStart(from, length);
    StartIsStart(from, length);
    PeriodsInOrder(firstStart, h, length);
    InPeriod(h, length);
    KeptSetBy(writes, firstStart, last, h);
    KeptSetBy(writes, firstStart, last, PeriodStart(h, length) - 1);
  }

  /** The change points so far say the lock at every height before the next candidate. */
  ghost predicate Tracks(changes: seq<Change>, writes: seq<Write>, length: nat, from: Height, next: Height)
    requires length > 0 && from > 0
  {
    && (changes != [] ==> changes[|changes| - 1].height < next)
    && forall x :: from <= x < next ==> InForce(changes, x) == LockAt(writes, length, x)
  }

  /** Change points in ascending order, each with another lock than the one before. */
  ghost predicate RealChanges(changes: seq<Change>, first: Height, last: int) {
    && (forall i :: 0 <= i < |changes| ==> first <= changes[i].height <= last)
    && (forall i, j :: 0 <= i < j < |changes| ==> changes[i].height < changes[j].height)
    && (forall i :: 0 < i < |changes| ==> changes[i].lock != changes[i - 1].lock)
  }

  lemma NoteChangeReal(changes: seq<Change>, h: Height, lock: nat, first: Height)
    requires RealChanges(changes, first, h - 1) && first <= h
    ensures RealChanges(NoteChange(changes, h, lock), first, h)
  {
  }

  function NoteChange(changes: seq<Change>, h: Height, lock: nat): seq<Change> {
    if changes != [] && changes[|changes| - 1].lock == lock then changes else changes + [Change(h, lock)]
  }

  lemma NoteChangeTracks(changes: seq<Change>, writes: seq<Write>, length: nat, from: Height, c: Height, next: Height)
    requires length > 0 && 0 < from <= c < next && Tracks(changes, writes, length, from, c)
    requires forall x :: c < x < next ==> !MayChange(writes, length, x)
    ensures Tracks(NoteChange(changes, c, LockAt(writes, length, c)), writes, length, from, next)
  {
    var lock := LockAt(writes, length, c);
    var noted := NoteChange(changes, c, lock);
    assert noted != changes ==> noted[..|noted| - 1] == changes;
    hide LockAt, MayChange;
    forall x | from <= x < next ensures InForce(noted, x) == LockAt(writes, length, x) {
      if x >= c {
        LockStands(writes, length, c, x);
      }
    }
  }

  lemma {:induction false} AllZero(changes: seq<Change>, h: Height)
    requires forall i :: 0 <= i < |changes| ==> changes[i].lock == 0
    ensures InForce(changes, h) == 0
  {
    if changes != [] {
      AllZero(changes[..|changes| - 1], h);
    }
  }

  /** `collectStakeLocks`: the lock evaluated at each write and each period start, keeping only real changes. What it
    * returns gives the lock at every height of the range, never below the stake in force for that height's period.
    */
  method CollectStakeLocks(s: Stored, length: nat, from: Height, last: Height, ghost writes: seq<Write>)
    returns (changes: seq<Change>)
    requires length > 0 && from > 0 && Represents(s, writes)
    ensures forall h :: from <= h <= last ==> InForce(changes, h) == LockAt(writes, length, h)
    ensures forall h :: from <= h <= last ==> Locks(InForce(changes, h), writes, length, h)
    ensures changes == [] || exists i :: 0 <= i < |changes| && changes[i].lock > 0
    ensures RealChanges(changes, PeriodStart(from, length), last)
  {
    var firstStart := PeriodStart(from, length);
    StartIsStart(from, length);
    WalkIsWrites(s.nodes, s.current.height, writes);
    var kept := KeepFrom(DropAbove(Walk(s.nodes, s.current.height), last), firstStart);
    var candidates := Candidates(kept, length, firstStart, last);
    changes := FoldChanges(kept, length, firstStart, last, candidates);
    LocksOfRange(s, length, from, last, writes, changes);
    if forall i :: 0 <= i < |changes| ==> changes[i].lock == 0 {
      hide LockAt, PeriodStart, SetBy, Represents, Locks;
      forall h | from <= h <= last ensures InForce([], h) == InForce(changes, h) {
        AllZero(changes, h);
      }
      changes := [];
    }
  }

  /** What the folded change points say, in terms of all writes rather than the kept ones. */
  lemma LocksOfRange(s: Stored, length: nat, from: Height, last: Height, writes: seq<Write>, changes: seq<Change>)
    requires length > 0 && from > 0 && Represents(s, writes)
    requires var firstStart := PeriodStart(from, length);
             var kept := KeepFrom(DropAbove(writes, last), firstStart);
             forall x :: firstStart <= x <= last ==> InForce(changes, x) == LockAt(kept, length, x)
    ensures forall h :: from <= h <= last ==> InForce(changes, h) == LockAt(writes, length, h)
    ensures forall h :: from <= h <= last ==> Locks(InForce(changes, h), writes, length, h)
  {
    WritesDescend(s.nodes, s.current.height, writes);
    InPeriod(from, length);
    hide Represents, PeriodStart, Descending, KeepFrom, DropAbove, LockAt, Locks;
    forall h | from <= h <= last
      ensures InForce(changes, h) == LockAt(writes, length, h) && Locks(InForce(changes, h), writes, length, h)
    {
      LockKept(writes, length, from, last, h);
      LockAtLocks(writes, length, h);
    }
  }

  lemma NoneBetween(writes: seq<Write>, length: nat, from: Height, last: Height, candidates: seq<Height>, i: nat,
                    x: Height)
    requires length > 0 && from > 0 && candidates == Candidates(writes, length, from, last) && i < |candidates|
    requires candidates[i] < x < if i + 1 < |candidates| then candidates[i + 1] else last + 1
    ensures !MayChange(writes, length, x)
  {
    hide MayChange;
    assert MayChange(writes, length, x) ==> x in candidates;
  }

  /** The fold over the candidates in ascending order. */
  method FoldChanges(writes: seq<Write>, length: nat, from: Height, last: Height, candidates: seq<Height>)
    returns (changes: seq<Change>)
    requires length > 0 && from > 0 && PeriodStart(from, length) == from
    requires candidates == Candidates(writes, length, from, last)
    ensures forall x :: from <= x <= last ==> InForce(changes, x) == LockAt(writes, length, x)
    ensures RealChanges(changes, from, last)
  {
    changes := [];
    if from > last {
      return;
    }
    hide Tracks, RealChanges, LockAt, MayChange, NoteChange, InForce, PeriodStart, Candidates;
    FoldStarts(writes, length, from, last, candidates);
    var i := 0;
    while i < |candidates|
      invariant i <= |candidates|
      invariant Tracks(changes, writes, length, from, NextOf(candidates, i, last))
      invariant RealChanges(changes, from, NextOf(candidates, i, last) - 1)
    {
      FoldStep(changes, writes, length, from, last, candidates, i);
      changes := NoteChange(changes, candidates[i], LockAt(writes, length, candidates[i]));
      i := i + 1;
    }
    TracksAll(changes, writes, length, from, last);
  }

  /** The candidate at an index, or one past the range after the last. */
  function NextOf(candidates: seq<Height>, i: nat, last: Height): Height { if i < |candidates| then candidates[i] else last + 1 }

  lemma FoldStep(changes: seq<Change>, writes: seq<Write>, length: nat, from: Height, last: Height, candidates: seq<Height>, i: nat)
    requires length > 0 && from > 0 && candidates == Candidates(writes, length, from, last) && i < |candidates|
    requires Tracks(changes, writes, length, from, candidates[i]) && RealChanges(changes, from, candidates[i] - 1)
    ensures var noted, next := NoteChange(changes, candidates[i], LockAt(writes, length, candidates[i])), NextOf(candidates, i + 1, last);
            Tracks(noted, writes, length, from, next) && RealChanges(noted, from, next - 1)
  {
    hide Tracks, RealChanges, LockAt, MayChange, NoteChange, InForce;
    var c, next := candidates[i], NextOf(candidates, i + 1, last);
    assert from <= c < next;
    forall x | c < x < next ensures !MayChange(writes, length, x) {
      NoneBetween(writes, length, from, last, candidates, i, x);
    }
    hide Candidates;
    NoteChangeTracks(changes, writes, length, from, c, next);
    NoteChangeReal(changes, c, LockAt(writes, length, c), from);
    RealLonger(NoteChange(changes, c, LockAt(writes, length, c)), from, c, next - 1);
  }

  lemma FoldStarts(writes: seq<Write>, length: nat, from: Height, last: Height, candidates: seq<Height>)
    requires length > 0 && 0 < from <= last && PeriodStart(from, length) == from
    requires candidates == Candidates(writes, length, from, last)
    ensures candidates != [] && candidates[0] == from
    ensures Tracks([], writes, length, from, from) && RealChanges([], from, from - 1)
  {
    assert MayChange(writes, length, from);
  }

  lemma RealLonger(changes: seq<Change>, first: Height, last: int, later: int)
    requires RealChanges(changes, first, last) && last <= later
    ensures RealChanges(changes, first, later)
  {
  }

  lemma TracksAll(changes: seq<Change>, writes: seq<Write>, length: nat, from: Height, last: Height)
    requires length > 0 && from > 0 && Tracks(changes, writes, length, from, last + 1)
    ensures forall x :: from <= x <= last ==> InForce(changes, x) == LockAt(writes, length, x)
  {
  }

  /** The lock a node saw while a height was its tip is the lock stored history gives for that height ever after: later
    * writes do not reach back.
    */
  lemma {:induction false} LockOfThen(writes: seq<Write>, length: nat, h: Height)
    requires length > 0 && h > 0
    ensures LockAt(DropAbove(writes, h), length, h) == LockAt(writes, length, h)
  {
    InPeriod(h, length);
    SetByUpto(writes, h, h);
    SetByUpto(writes, h, PeriodStart(h, length) - 1);
  }

  lemma {:induction false} SetByUpto(writes: seq<Write>, h: Height, at: int)
    requires at <= h
    ensures SetBy(DropAbove(writes, h), at) == SetBy(writes, at)
  {
    if writes != [] && writes[0].height > h {
      SetByUpto(writes[1..], h, at);
    }
  }
}
