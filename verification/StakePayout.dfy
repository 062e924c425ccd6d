/** The period payout: finding the stakers through the candidate index, and splitting the issuance between them. */
module StakePayout {
  import opened Wrappers
  import opened Periods
  import opened StakeLock

  // ----- The candidate index, one address at a time

  /** An address in storage: its stake, and its entry in the candidate index, if any. */
  datatype Staker = Staker(tip: Height, stored: Stored, active: Option<Height>)

  const NEW_STAKER := Staker(0, Stored(UNAVAILABLE, map[]), None)

  /** What the scan at a period's first block removes: an entry without a stake and from before the period. A block is
    * written as one batch, and the scan reads the database, so it sees neither the stake nor the entry the block sets.
    */
  predicate Pruned(x: Staker, periodStart: Height) {
    x.active.Some? && x.active.value < periodStart && x.stored.current.amount == 0
  }

  /** The next block, which may set the address's stake. In the batch the removal comes after the block's own entry. */
  function AppendBlock(x: Staker, length: nat, stake: Option<nat>): Staker
    requires length > 0
  {
    var h := x.tip + 1;
    Staker(h,
           if stake.Some? then SetStake(x.stored, h, stake.value) else x.stored,
           if PeriodStart(h, length) == h && Pruned(x, h) then None else if stake.Some? then Some(h) else x.active)
  }

  function RollbackBlock(x: Staker): Staker
    requires x.tip > 0
  {
    var active :=
      if x.stored.current.height != x.tip then x.active
      else if x.stored.current.prevHeight == 0 then None
      else Some(x.stored.current.prevHeight);
    Staker(x.tip - 1, RollbackStake(x.stored, x.tip), active)
  }

  ghost predicate Follows(x: Staker, writes: seq<Write>) {
    && Represents(x.stored, writes) && x.stored.current.height <= x.tip
    && (x.active.Some? ==> x.active.value == x.stored.current.height > 0)
  }

  /** What the enumeration of the period starting at `start` gives this address: its stake in force, if it is listed. */
  ghost function Enumerated(x: Staker, writes: seq<Write>, start: Height): nat {
    if x.active.Some? then SetBy(writes, start - 1) else 0
  }

  /** `loadStakes` on one address: candidates are resolved through their history. */
  method Enumerate(x: Staker, start: Height, ghost writes: seq<Write>) returns (amount: nat)
    requires Follows(x, writes)
    ensures amount == Enumerated(x, writes, start)
  {
    if x.active.None? {
      return 0;
    }
    amount := StakeAt(x.stored, start, writes);
  }

  // ----- Without rollbacks

  /** The address is listed while it holds a stake or changed one in the tip's period. */
  predicate Listed(x: Staker, length: nat)
    requires length > 0
  {
    (x.tip > 0 && x.stored.current.height > 0 &&
     (x.stored.current.amount > 0 || x.stored.current.height >= PeriodStart(x.tip, length))) ==> x.active.Some?
  }

  lemma AppendFollows(x: Staker, writes: seq<Write>, length: nat, stake: Option<nat>)
    requires length > 0 && Follows(x, writes)
    ensures Follows(AppendBlock(x, length, stake),
                    if stake.Some? then [Write(x.tip + 1, stake.value)] + writes else writes)
  {
    if stake.Some? {
      SetStakeRepresents(x.stored, writes, x.tip + 1, stake.value);
    }
  }

  /** Appending keeps the address listed, except when a period's first block restates a stake that was zero and still
    * had its entry: the scan takes the new entry for the old one.
    */
  lemma AppendListed(x: Staker, writes: seq<Write>, length: nat, stake: Option<nat>)
    requires length > 0 && Follows(x, writes) && Listed(x, length)
    ensures Listed(AppendBlock(x, length, stake), length) <==>
            !(PeriodStart(x.tip + 1, length) == x.tip + 1 && stake.Some? && x.active.Some? && x.stored.current.amount == 0)
  {
    if x.tip > 0 && PeriodStart(x.tip + 1, length) != x.tip + 1 {
      SamePeriod(x.tip + 1, length);
    }
    WritesDescend(x.stored.nodes, x.stored.current.height, writes);
  }

  /** A listed address is enumerated for the tip's period with exactly its stake in force. */
  lemma ListedIsEnumerated(x: Staker, writes: seq<Write>, length: nat)
    requires length > 0 && x.tip > 0 && Follows(x, writes) && Listed(x, length)
    ensures Enumerated(x, writes, PeriodStart(x.tip, length)) == SetBy(writes, PeriodStart(x.tip, length) - 1)
  {
  }

  // ----- Whole runs of blocks appended and undone

  /** What the node does: append a block, which may set the address's stake, or undo the last one. */
  datatype Step = Block(stake: Option<nat>) | Undo

  function NextBlocks(blocks: seq<Option<nat>>, step: Step): seq<Option<nat>> {
    if step.Block? then blocks + [step.stake] else if blocks != [] then blocks[..|blocks| - 1] else []
  }

  function NextStaker(length: nat, x: Staker, step: Step): Staker
    requires length > 0
  {
    if step.Block? then AppendBlock(x, length, step.stake) else if x.tip > 0 then RollbackBlock(x) else x
  }

  /** The blocks the steps leave on the chain, genesis first. */
  function Blocks(steps: seq<Step>): seq<Option<nat>> {
    if steps == [] then [] else NextBlocks(Blocks(steps[..|steps| - 1]), steps[|steps| - 1])
  }

  /** Storage after the steps. */
  function After(length: nat, steps: seq<Step>): Staker
    requires length > 0
  {
    if steps == [] then NEW_STAKER else NextStaker(length, After(length, steps[..|steps| - 1]), steps[|steps| - 1])
  }

  /** The stakes blocks set, newest first. */
  function WritesIn(blocks: seq<Option<nat>>): seq<Write> {
    if blocks == [] then []
    else
      var n := |blocks| - 1;
      (if blocks[n].Some? then [Write(n + 1, blocks[n].value)] else []) + WritesIn(blocks[..n])
  }

  function WritesAfter(steps: seq<Step>): seq<Write> { WritesIn(Blocks(steps)) }

  lemma UndoFollows(x: Staker, blocks: seq<Option<nat>>)
    requires blocks != [] && x.tip == |blocks| && Follows(x, WritesIn(blocks))
    ensures Follows(RollbackBlock(x), WritesIn(blocks[..|blocks| - 1]))
    ensures x.stored.current.height == x.tip <==> blocks[|blocks| - 1].Some?
  {
    var n := |blocks| - 1;
    var writes, rest := WritesIn(blocks), WritesIn(blocks[..n]);
    WritesBelow(blocks[..n]);
    RollbackStakeRepresents(x.stored, writes, x.tip);
    if blocks[n].Some? {
      assert writes[1..] == rest;
    } else {
      assert writes == rest;
    }
  }

  lemma {:induction false} WritesBelow(blocks: seq<Option<nat>>)
    ensures WritesIn(blocks) != [] ==> 0 < WritesIn(blocks)[0].height <= |blocks|
    decreases |blocks|
  {
    if blocks != [] {
      var n := |blocks| - 1;
      assert blocks == blocks[..n] + [blocks[n]];
      hide WritesIn;
      WritesBelow(blocks[..n]);
      WritesSnoc(blocks[..n], blocks[n]);
    } else {
      assert WritesIn(blocks) == [];
    }
  }

  /** Storage follows the chain through every step. */
  lemma StepFollows(length: nat, x: Staker, blocks: seq<Option<nat>>, step: Step)
    requires length > 0 && x.tip == |blocks| && Follows(x, WritesIn(blocks))
    ensures NextStaker(length, x, step).tip == |NextBlocks(blocks, step)|
    ensures Follows(NextStaker(length, x, step), WritesIn(NextBlocks(blocks, step)))
  {
    if step.Block? {
      hide WritesIn;
      AppendFollows(x, WritesIn(blocks), length, step.stake);
      WritesSnoc(blocks, step.stake);
      hide Follows;
    } else if blocks != [] {
      UndoFollows(x, blocks);
      hide Follows;
    }
  }

  /** And through every run. */
  lemma {:induction false} RunFollows(length: nat, steps: seq<Step>)
    requires length > 0
    ensures After(length, steps).tip == |Blocks(steps)| && Follows(After(length, steps), WritesAfter(steps))
    decreases |steps|
  {
    if steps != [] {
      var before := steps[..|steps| - 1];
      hide Follows, WritesIn, NextStaker, NextBlocks;
      RunFollows(length, before);
      StepFollows(length, After(length, before), Blocks(before), steps[|steps| - 1]);
    }
  }

  lemma WritesSnoc(blocks: seq<Option<nat>>, stake: Option<nat>)
    ensures WritesIn(blocks + [stake]) ==
            if stake.Some? then [Write(|blocks| + 1, stake.value)] + WritesIn(blocks) else WritesIn(blocks)
  {
    assert (blocks + [stake])[..|blocks|] == blocks;
    assert [] + WritesIn(blocks) == WritesIn(blocks);
  }

  /** What a step means for the address's entry. */
  datatype Kind = Idle | Wrote | Swept | Both

  /** The step writes the stake, or undoes a write of it. */
  predicate Writing(blocks: seq<Option<nat>>, step: Step) {
    if step.Block? then step.stake.Some? else blocks != [] && blocks[|blocks| - 1].Some?
  }

  /** The step is a period's first block, and the stake last set was zero. */
  predicate Sweeping(length: nat, blocks: seq<Option<nat>>, step: Step)
    requires length > 0
  {
    && step.Block? && PeriodStart(|blocks| + 1, length) == |blocks| + 1
    && WritesIn(blocks) != [] && WritesIn(blocks)[0].amount == 0
  }

  function KindOf(length: nat, blocks: seq<Option<nat>>, step: Step): Kind
    requires length > 0
  {
    if Writing(blocks, step) then if Sweeping(length, blocks, step) then Both else Wrote
    else if Sweeping(length, blocks, step) then Swept else Idle
  }

  function Kinds(length: nat, steps: seq<Step>): (kinds: seq<Kind>)
    requires length > 0
    ensures |kinds| == |steps|
  {
    if steps == [] then []
    else
      var before := steps[..|steps| - 1];
      Kinds(length, before) + [KindOf(length, Blocks(before), steps[|steps| - 1])]
  }

  function CountBoth(kinds: seq<Kind>): nat {
    if kinds == [] then 0 else CountBoth(kinds[..|kinds| - 1]) + if kinds[|kinds| - 1].Both? then 1 else 0
  }

  /** Of the steps that wrote the stake or swept a zero one, but not both, `j` is the last. */
  predicate LastPlain(kinds: seq<Kind>, j: int) {
    && 0 <= j < |kinds| && (kinds[j].Wrote? || kinds[j].Swept?)
    && forall i :: j < i < |kinds| ==> kinds[i].Idle? || kinds[i].Both?
  }

  /** The entry stands: the last step that did only one of the two wrote the stake, or undid a write, and an even number of
    * blocks have done both since; or it swept, and an odd number have.
    */
  ghost predicate Stands(kinds: seq<Kind>) {
    exists j :: LastPlain(kinds, j) && (kinds[j].Wrote? <==> CountBoth(kinds[j + 1..]) % 2 == 0)
  }

  lemma CountSnoc(kinds: seq<Kind>, kind: Kind)
    ensures CountBoth(kinds + [kind]) == CountBoth(kinds) + if kind.Both? then 1 else 0
  {
    assert (kinds + [kind])[..|kinds|] == kinds;
  }

  /** A step that changes nothing plain keeps the last plain step and what followed it. */
  lemma PlainKept(kinds: seq<Kind>, kind: Kind, j: nat)
    requires kind.Idle? || kind.Both?
    ensures LastPlain(kinds + [kind], j) <==> LastPlain(kinds, j)
    ensures j < |kinds| ==> CountBoth((kinds + [kind])[j + 1..]) == CountBoth(kinds[j + 1..]) + if kind.Both? then 1 else 0
  {
    var all := kinds + [kind];
    assert forall i :: 0 <= i < |kinds| ==> all[i] == kinds[i];
    if j < |kinds| {
      assert all[j + 1..] == kinds[j + 1..] + [kind];
      CountSnoc(kinds[j + 1..], kind);
    }
  }

  lemma PlainUnique(kinds: seq<Kind>, k: nat)
    requires LastPlain(kinds, k)
    ensures Stands(kinds) <==> (kinds[k].Wrote? <==> CountBoth(kinds[k + 1..]) % 2 == 0)
  {
    if Stands(kinds) {
      var j :| LastPlain(kinds, j) && (kinds[j].Wrote? <==> CountBoth(kinds[j + 1..]) % 2 == 0);
      assert j == k by { assert j < k ==> !LastPlain(kinds, j); assert k < j ==> !LastPlain(kinds, k); }
    }
  }

  /** Each step's effect on whether the entry stands: a plain write sets it up, a plain sweep takes it down, a block that
    * does both turns it around.
    */
  lemma StandsStep(kinds: seq<Kind>, kind: Kind, k: nat)
    requires LastPlain(kinds, k) || kind.Wrote?
    ensures exists j: nat :: LastPlain(kinds + [kind], j)
    ensures Stands(kinds + [kind]) <==>
            match kind case Idle => Stands(kinds) case Wrote => true case Swept => false case Both => !Stands(kinds)
  {
    var all, n := kinds + [kind], |kinds|;
    if kind.Wrote? || kind.Swept? {
      assert LastPlain(all, n) && all[n + 1..] == [];
      PlainUnique(all, n);
    } else {
      PlainKept(kinds, kind, k);
      PlainUnique(kinds, k);
      PlainUnique(all, k);
      assert all[k] == kinds[k];
    }
  }

  lemma AfterSnoc(length: nat, before: seq<Step>, step: Step)
    requires length > 0
    ensures Blocks(before + [step]) == NextBlocks(Blocks(before), step)
    ensures After(length, before + [step]) == NextStaker(length, After(length, before), step)
    ensures Kinds(length, before + [step]) == Kinds(length, before) + [KindOf(length, Blocks(before), step)]
  {
    assert (before + [step])[..|before|] == before;
  }

  /** What one step does to the entry. */
  lemma EntryStep(length: nat, x: Staker, blocks: seq<Option<nat>>, step: Step)
    requires length > 0 && x.tip == |blocks| && Follows(x, WritesIn(blocks))
    ensures var kind := KindOf(length, blocks, step);
            var y := NextStaker(length, x, step);
            && (kind.Idle? ==> y.active == x.active)
            && (kind.Wrote? && y.stored.current.height > 0 ==> y.active.Some?)
            && (kind.Swept? ==> y.active.None?)
            && (kind.Both? ==> (y.active.Some? <==> x.active.None?))
  {
    var writes := WritesIn(blocks);
    WritesBelow(blocks);
    if step.Undo? && blocks != [] {
      UndoFollows(x, blocks);
    }
  }

  /** In every state of every run of blocks appended and undone, an address that has set a stake is in the candidate index
    * exactly if its entry stands.
    */
  lemma {:induction false} EntryStands(length: nat, steps: seq<Step>) returns (k: nat)
    requires length > 0 && WritesAfter(steps) != []
    ensures LastPlain(Kinds(length, steps), k)
    ensures After(length, steps).active.Some? <==> Stands(Kinds(length, steps))
    decreases |steps|
  {
    var before, step := steps[..|steps| - 1], steps[|steps| - 1];
    var x, blocks, kinds := After(length, before), Blocks(before), Kinds(length, before);
    var kind := KindOf(length, blocks, step);
    assert steps == before + [step];
    RunFollows(length, before);
    RunFollows(length, steps);
    AfterSnoc(length, before, step);
    EntryStep(length, x, blocks, step);
    k := 0;
    if WritesIn(blocks) != [] {
      k := EntryStands(length, before);
    } else {
      FirstWrite(length, blocks, step);
    }
    hide NextStaker, KindOf, Kinds, LastPlain, Stands, After, Blocks, WritesIn;
    StandsStep(kinds, kind, k);
    k :| LastPlain(kinds + [kind], k);
  }

  /** The first write of a chain sweeps nothing. */
  lemma FirstWrite(length: nat, blocks: seq<Option<nat>>, step: Step)
    requires length > 0 && WritesIn(blocks) == [] && step.Block? && step.stake.Some?
    ensures KindOf(length, blocks, step).Wrote?
  {
  }

  /** In every state of every run of blocks appended and undone, and for every period, the enumeration gives the address its
    * stake in force if and only if that is zero or the entry stands.
    */
  lemma RunEnumeration(length: nat, steps: seq<Step>, start: Height)
    requires length > 0
    ensures Enumerated(After(length, steps), WritesAfter(steps), start) == SetBy(WritesAfter(steps), start - 1) <==>
            SetBy(WritesAfter(steps), start - 1) == 0 || Stands(Kinds(length, steps))
  {
    if WritesAfter(steps) != [] {
      var k := EntryStands(length, steps);
    }
  }

  ghost predicate BlocksOnly(steps: seq<Step>) {
    forall i :: 0 <= i < |steps| ==> steps[i].Block?
  }

  ghost predicate NoneBoth(kinds: seq<Kind>) {
    forall i :: 0 <= i < |kinds| ==> !kinds[i].Both?
  }

  /** Where nothing is undone and no period's first block restates a zero stake, every address is enumerated right. */
  lemma {:induction false} PlainRunEnumeration(length: nat, steps: seq<Step>)
    requires length > 0 && BlocksOnly(steps) && NoneBoth(Kinds(length, steps))
    ensures Listed(After(length, steps), length)
    ensures steps != [] ==>
              var start := PeriodStart(|Blocks(steps)|, length);
              Enumerated(After(length, steps), WritesAfter(steps), start) == SetBy(WritesAfter(steps), start - 1)
    decreases |steps|
  {
    if steps != [] {
      var before, step := steps[..|steps| - 1], steps[|steps| - 1];
      var x, blocks, kinds := After(length, before), Blocks(before), Kinds(length, steps);
      assert steps == before + [step];
      AfterSnoc(length, before, step);
      assert kinds[..|before|] == Kinds(length, before) && !kinds[|before|].Both?;
      hide Kinds, KindOf, AppendBlock, Follows, Blocks, After, WritesIn;
      PlainRunEnumeration(length, before);
      RunFollows(length, before);
      RunFollows(length, steps);
      NotBoth(length, x, blocks, step);
      AppendListed(x, WritesIn(blocks), length, step.stake);
      hide Listed;
      ListedIsEnumerated(After(length, steps), WritesAfter(steps), length);
    }
  }

  lemma NotBoth(length: nat, x: Staker, blocks: seq<Option<nat>>, step: Step)
    requires length > 0 && x.tip == |blocks| && Follows(x, WritesIn(blocks)) && step.Block?
    requires !KindOf(length, blocks, step).Both?
    ensures !(PeriodStart(x.tip + 1, length) == x.tip + 1 && step.stake.Some? && x.active.Some? && x.stored.current.amount == 0)
  {
  }

  // ----- Three addresses

  /** So many blocks that leave the stake alone. */
  function Rest(n: nat): seq<Step> { if n == 0 then [] else Rest(n - 1) + [Block(None)] }

  /** The next `n` blocks sweep nothing. */
  ghost predicate Undisturbed(length: nat, x: Staker, n: nat)
    requires length > 0
  {
    x.active.None? || x.stored.current.amount > 0 || forall h :: x.tip < h <= x.tip + n ==> PeriodStart(h, length) != h
  }

  lemma IdleBlock(length: nat, x: Staker, blocks: seq<Option<nat>>)
    requires length > 0 && Undisturbed(length, x, 1)
    ensures AppendBlock(x, length, None) == x.(tip := x.tip + 1) && WritesIn(blocks + [None]) == WritesIn(blocks)
  {
    assert (blocks + [None])[..|blocks|] == blocks;
    assert x.tip + 1 <= x.tip + 1;
  }

  lemma {:induction false} RestKeeps(length: nat, steps: seq<Step>, n: nat)
    requires length > 0 && Undisturbed(length, After(length, steps), n)
    ensures After(length, steps + Rest(n)) == After(length, steps).(tip := After(length, steps).tip + n)
    ensures WritesAfter(steps + Rest(n)) == WritesAfter(steps)
    decreases n
  {
    hide After, Blocks, WritesIn;
    if n == 0 {
      assert steps + [] == steps;
    } else {
      RestKeeps(length, steps, n - 1);
      var before := steps + Rest(n - 1);
      assert steps + Rest(n) == before + [Block(None)];
      AfterSnoc(length, before, Block(None));
      hide Rest, AppendBlock;
      IdleBlock(length, After(length, before), Blocks(before));
    }
  }

  lemma SetReaches(length: nat, steps: seq<Step>, amount: nat)
    requires length > 0
    ensures WritesAfter(steps + [Block(Some(amount))]) == [Write(After(length, steps).tip + 1, amount)] + WritesAfter(steps)
    ensures After(length, steps + [Block(Some(amount))]) == AppendBlock(After(length, steps), length, Some(amount))
  {
    RunFollows(length, steps);
    AfterSnoc(length, steps, Block(Some(amount)));
    assert (Blocks(steps) + [Some(amount)])[..|Blocks(steps)|] == Blocks(steps);
    hide Follows;
  }

  const STAKED := SetStake(Stored(UNAVAILABLE, map[]), 5, 100)
  const RELEASED := SetStake(STAKED, 15, 0)

  function Staking(): seq<Step> { [] + Rest(4) + [Block(Some(100))] }

  /** 100 staked at height 5 and released at 15, with periods of ten blocks; the tip is at 20. */
  function Releasing(): seq<Step> { Staking() + Rest(9) + [Block(Some(0))] + Rest(5) }

  lemma StakingReaches()
    ensures After(10, Staking()) == Staker(5, STAKED, Some(5)) && WritesAfter(Staking()) == [Write(5, 100)]
  {
    assert After(10, []) == NEW_STAKER && WritesAfter([]) == [];
    hide After, Blocks, WritesIn;
    RestKeeps(10, [], 4);
    SetReaches(10, [] + Rest(4), 100);
    hide Rest;
    assert [Write(5, 100)] + [] == [Write(5, 100)];
  }

  lemma ReleasingReaches()
    ensures After(10, Releasing()) == Staker(20, RELEASED, Some(15))
    ensures WritesAfter(Releasing()) == [Write(15, 0), Write(5, 100)]
  {
    hide After, Blocks, WritesIn, Rest;
    StakingReaches();
    hide Staking;
    RestKeeps(10, Staking(), 9);
    SetReaches(10, Staking() + Rest(9), 0);
    assert [Write(15, 0)] + [Write(5, 100)] == [Write(15, 0), Write(5, 100)];
    assert forall h :: 15 < h <= 20 ==> PeriodStart(h, 10) == 11;
    RestKeeps(10, Staking() + Rest(9) + [Block(Some(0))], 5);
  }

  /** The last period was staked throughout. Block 21 is appended and undone, and due again: the stake is not found. */
  lemma MissedStaker()
    ensures var steps := Releasing() + [Block(None)] + [Undo];
            && WritesAfter(steps) == [Write(15, 0), Write(5, 100)] && After(10, steps).tip == 20
            && SetBy(WritesAfter(steps), 10) == 100 && Enumerated(After(10, steps), WritesAfter(steps), 11) == 0
  {
    hide After, Blocks, WritesIn, Rest, Releasing;
    ReleasingReaches();
    var steps := Releasing();
    AfterSnoc(10, steps, Block(None));
    AfterSnoc(10, steps + [Block(None)], Undo);
    var blocks := Blocks(steps);
    assert (blocks + [None])[..|blocks|] == blocks;
    ReleasedBySet();
  }

  lemma ReleasedBySet()
    ensures SetBy([Write(15, 0), Write(5, 100)], 10) == 100
    ensures SetBy([Write(21, 200), Write(15, 0), Write(5, 100)], 30) == 200
  {
    assert [Write(15, 0), Write(5, 100)][1..] == [Write(5, 100)];
  }

  /** If block 22 sets the stake once more and both blocks are undone, it is found: undoing a write puts the entry back. */
  lemma FoundStaker()
    ensures var steps := Releasing() + [Block(None)] + [Block(Some(7))] + [Undo] + [Undo];
            && WritesAfter(steps) == [Write(15, 0), Write(5, 100)] && After(10, steps).tip == 20
            && SetBy(WritesAfter(steps), 10) == Enumerated(After(10, steps), WritesAfter(steps), 11) == 100
  {
    hide After, Blocks, WritesIn, Rest, Releasing;
    ReleasingReaches();
    var steps := Releasing();
    AfterSnoc(10, steps, Block(None));
    AfterSnoc(10, steps + [Block(None)], Block(Some(7)));
    AfterSnoc(10, steps + [Block(None)] + [Block(Some(7))], Undo);
    AfterSnoc(10, steps + [Block(None)] + [Block(Some(7))] + [Undo], Undo);
    var blocks := Blocks(steps);
    assert (blocks + [None])[..|blocks|] == blocks;
    assert (blocks + [None] + [Some(7)])[..|blocks| + 1] == blocks + [None];
    ReleasedBySet();
  }

  /** Nothing undone: the stake is set to 200 in block 21, and the period from 31 to 40, staked throughout, misses it. */
  lemma RestakeLost()
    ensures var steps := Releasing() + [Block(Some(200))] + Rest(19);
            && BlocksOnly(steps) && After(10, steps).tip == 40
            && SetBy(WritesAfter(steps), 30) == 200 && Enumerated(After(10, steps), WritesAfter(steps), 31) == 0
  {
    hide After, Blocks, WritesIn;
    RestBlocks(4);
    RestBlocks(9);
    RestBlocks(5);
    RestBlocks(19);
    hide Rest;
    ReleasingReaches();
    SetReaches(10, Releasing(), 200);
    RestKeeps(10, Releasing() + [Block(Some(200))], 19);
    assert [Write(21, 200)] + [Write(15, 0), Write(5, 100)] == [Write(21, 200), Write(15, 0), Write(5, 100)];
    ReleasedBySet();
  }

  lemma {:induction false} RestBlocks(n: nat)
    ensures BlocksOnly(Rest(n))
  {
    if n > 0 {
      RestBlocks(n - 1);
    }
  }

  // ----- Splitting the issuance

  function Total(stakes: seq<nat>): nat {
    if stakes == [] then 0 else Total(stakes[..|stakes| - 1]) + stakes[|stakes| - 1]
  }

  /** What is credited for `issued`, each share floored on its own. */
  function Credited(issued: nat, total: nat, stakes: seq<nat>): nat
    requires total > 0
  {
    if stakes == [] then 0
    else Credited(issued, total, stakes[..|stakes| - 1]) + Portion(issued, stakes[|stakes| - 1], total)
  }

  /** A stake's share, rounded down. */
  function Portion(issued: nat, stake: nat, total: nat): nat
    requires total > 0
  {
    issued * stake / total
  }

  lemma FloorBounds(product: nat, total: nat)
    requires total > 0
    ensures product - total < total * (product / total) <= product
  {
    assert product == total * (product / total) + product % total;
  }

  lemma Distribute(a: int, b: int, c: int)
    ensures a * (b + c) == a * b + a * c
  {
  }

  lemma {:induction false} CreditedBounds(issued: nat, total: nat, stakes: seq<nat>)
    requires total > 0
    ensures issued * Total(stakes) - total * |stakes| <= total * Credited(issued, total, stakes) <= issued * Total(stakes)
  {
    if stakes != [] {
      var n := |stakes| - 1;
      CreditedBounds(issued, total, stakes[..n]);
      Distribute(issued, Total(stakes[..n]), stakes[n]);
      Distribute(total, Credited(issued, total, stakes[..n]), Portion(issued, stakes[n], total));
      Distribute(total, n, 1);
      FloorBounds(issued * stakes[n], total);
    }
  }

  /** The payout never mints more than the period's work, and leaves less than one unit of dust per staker behind. */
  lemma PayoutWithinIssuance(issued: nat, stakes: seq<nat>)
    requires Total(stakes) > 0
    ensures issued - |stakes| <= Credited(issued, Total(stakes), stakes) <= issued
  {
    var total, credited := Total(stakes), Credited(issued, Total(stakes), stakes);
    CreditedBounds(issued, total, stakes);
    hide Total, Credited;
    Distribute(total, issued, -|stakes|);
    Cancel(total, credited, issued);
    Cancel(total, issued - |stakes|, credited);
  }

  lemma Cancel(total: nat, a: int, b: int)
    requires total > 0 && total * a <= total * b
    ensures a <= b
  {
    Distribute(total, a, -b);
    assert a - b >= 1 ==> total * (a - b) >= 1;
  }

  // ----- Who gets it

  datatype Stake = Stake(address: nat, amount: nat)
  datatype Payout = Payout(address: nat, staked: nat, credited: nat)

  function Amounts(stakes: seq<Stake>): seq<nat> { seq(|stakes|, i requires 0 <= i < |stakes| => stakes[i].amount) }

  function CreditedIn(payouts: seq<Payout>): nat {
    if payouts == [] then 0 else CreditedIn(payouts[..|payouts| - 1]) + payouts[|payouts| - 1].credited
  }

  /** A staker's share of the issuance: rounded down from the exact one. */
  ghost predicate FairShare(issued: nat, total: nat, stake: Stake, payout: Payout) {
    && payout.address == stake.address && payout.staked == stake.amount
    && payout.credited * total <= issued * stake.amount < (payout.credited + 1) * total
  }

  lemma FairFloor(issued: nat, total: nat, stake: Stake)
    requires total > 0
    ensures FairShare(issued, total, stake, Payout(stake.address, stake.amount, Portion(issued, stake.amount, total)))
  {
    FloorBounds(issued * stake.amount, total);
    Distribute(total, Portion(issued, stake.amount, total), 1);
  }

  lemma OneMoreStake(issued: nat, total: nat, stakes: seq<Stake>, i: nat)
    requires i < |stakes|
    ensures Total(Amounts(stakes[..i + 1])) == Total(Amounts(stakes[..i])) + stakes[i].amount
    ensures total > 0 ==>
              (Credited(issued, total, Amounts(stakes[..i + 1]))
               == Credited(issued, total, Amounts(stakes[..i])) + Portion(issued, stakes[i].amount, total))
  {
    hide Portion;
    assert Amounts(stakes[..i + 1])[..i] == Amounts(stakes[..i]);
  }

  lemma OneMorePayout(payouts: seq<Payout>, payout: Payout)
    ensures CreditedIn(payouts + [payout]) == CreditedIn(payouts) + payout.credited
  {
    assert (payouts + [payout])[..|payouts|] == payouts;
  }

  method TotalStaked(stakes: seq<Stake>) returns (total: nat)
    ensures total == Total(Amounts(stakes))
  {
    total := 0;
    for i := 0 to |stakes|
      invariant total == Total(Amounts(stakes[..i]))
    {
      OneMoreStake(0, 0, stakes, i);
      total := total + stakes[i].amount;
    }
    assert stakes[..|stakes|] == stakes;
  }

  method PayEach(issued: nat, total: nat, stakes: seq<Stake>) returns (payouts: seq<Payout>)
    requires total > 0
    ensures |payouts| == |stakes| && CreditedIn(payouts) == Credited(issued, total, Amounts(stakes))
    ensures forall i :: 0 <= i < |stakes| ==> FairShare(issued, total, stakes[i], payouts[i])
  {
    hide FairShare, Portion;
    payouts := [];
    for i := 0 to |stakes|
      invariant |payouts| == i && forall j :: 0 <= j < i ==> FairShare(issued, total, stakes[j], payouts[j])
      invariant CreditedIn(payouts) == Credited(issued, total, Amounts(stakes[..i]))
    {
      FairFloor(issued, total, stakes[i]);
      OneMoreStake(issued, total, stakes, i);
      var payout := Payout(stakes[i].address, stakes[i].amount, Portion(issued, stakes[i].amount, total));
      OneMorePayout(payouts, payout);
      payouts := payouts + [payout];
    }
    assert stakes[..|stakes|] == stakes;
  }

  /** `distribute`: too large an issuance is an error; with nothing issued or nobody staked there is no payout; otherwise every
    * staker gets its share, and together no more than was issued, and less than one unit per staker short of it.
    */
  method SplitIssuance(issued: nat, stakes: seq<Stake>) returns (r: Option<Option<seq<Payout>>>)
    ensures r.None? <==> issued > 0x7fff_ffff_ffff_ffff
    ensures r.Some? ==> (r.value.None? <==> issued == 0 || Total(Amounts(stakes)) == 0)
    ensures r.Some? && r.value.Some? ==>
              var payouts := r.value.value;
              && |payouts| == |stakes|
              && (forall i :: 0 <= i < |stakes| ==> FairShare(issued, Total(Amounts(stakes)), stakes[i], payouts[i]))
              && issued - |stakes| <= CreditedIn(payouts) <= issued
  {
    hide FairShare, Total, Credited, CreditedIn;
    var total := TotalStaked(stakes);
    if issued > 0x7fff_ffff_ffff_ffff {
      return None;
    }
    if !(issued > 0 && total > 0) {
      return Some(None);
    }
    var payouts := PayEach(issued, total, stakes);
    PayoutWithinIssuance(issued, Amounts(stakes));
    r := Some(Some(payouts));
  }
}
