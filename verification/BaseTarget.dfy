/** The genesis tool's simulation: a minimum taken in parallel chunks, inside a recursion over newest-first lists. */
module BaseTarget {
  import opened Wrappers

  // ----- The chunked minimum

  /** `s[i]` is the first of the smallest. */
  ghost predicate FirstMin<B(!new)>(s: seq<B>, key: B -> int, i: nat) {
    && i < |s|
    && (forall j :: 0 <= j < |s| ==> key(s[i]) <= key(s[j]))
    && (forall j :: 0 <= j < i ==> key(s[i]) < key(s[j]))
  }

  /** `minBy`: the first of the smallest. */
  function MinBy<B>(s: seq<B>, key: B -> int): B
    requires s != []
    decreases |s|
  {
    if |s| == 1 then s[0]
    else
      var m, last := MinBy(s[..|s| - 1], key), s[|s| - 1];
      if key(last) < key(m) then last else m
  }

  lemma {:induction false} MinByIsFirst<B(!new)>(s: seq<B>, key: B -> int) returns (i: nat)
    requires s != []
    ensures FirstMin(s, key, i) && MinBy(s, key) == s[i]
    decreases |s|
  {
    if |s| == 1 {
      i := 0;
    } else {
      var front := s[..|s| - 1];
      i := MinByIsFirst(front, key);
      assert forall j :: 0 <= j < |front| ==> front[j] == s[j];
      if key(s[|s| - 1]) < key(front[i]) {
        i := |s| - 1;
      }
    }
  }

  function Map<A, B>(s: seq<A>, f: A -> B): (r: seq<B>)
    ensures |r| == |s|
  {
    seq(|s|, i requires 0 <= i < |s| => f(s[i]))
  }

  /** `grouped`: consecutive parts of the given size, the last one perhaps shorter. */
  function Grouped<A>(s: seq<A>, size: nat): (parts: seq<seq<A>>)
    requires size > 0
    ensures forall i :: 0 <= i < |parts| ==> parts[i] != []
    decreases |s|
  {
    if s == [] then [] else if |s| <= size then [s] else [s[..size]] + Grouped(s[size..], size)
  }

  function PartMin<A, B>(part: seq<A>, f: A -> B, key: B -> int): B
    requires part != []
  {
    MinBy(Map(part, f), key)
  }

  function PartMins<A, B>(parts: seq<seq<A>>, f: A -> B, key: B -> int): (mins: seq<B>)
    requires forall i :: 0 <= i < |parts| ==> parts[i] != []
    ensures |mins| == |parts|
  {
    if parts == [] then [] else [PartMin(parts[0], f, key)] + PartMins(parts[1..], f, key)
  }

  /** `parallelMapMin` on a machine with so many processors. */
  function ParallelMapMin<A, B>(s: seq<A>, f: A -> B, key: B -> int, processors: nat): B
    requires s != [] && processors > 0
  {
    var share := |s| / processors;
    MinBy(PartMins(Grouped(s, if share >= 1 then share else 1), f, key), key)
  }

  /** The first minimum of two lists one after the other. */
  function Better<B>(a: B, b: B, key: B -> int): B { if key(b) < key(a) then b else a }

  lemma {:induction false} MinByJoins<B>(s: seq<B>, t: seq<B>, key: B -> int)
    requires s != [] && t != []
    ensures MinBy(s + t, key) == Better(MinBy(s, key), MinBy(t, key), key)
    decreases |t|
  {
    var n := |t| - 1;
    assert (s + t)[..|s + t| - 1] == s + t[..n];
    if n > 0 {
      MinByJoins(s, t[..n], key);
    } else {
      assert s + t[..n] == s;
    }
  }

  lemma MapJoins<A, B>(s: seq<A>, t: seq<A>, f: A -> B)
    ensures Map(s + t, f) == Map(s, f) + Map(t, f)
  {
  }

  lemma {:induction false} GroupedMin<A, B>(s: seq<A>, f: A -> B, key: B -> int, size: nat)
    requires s != [] && size > 0
    ensures MinBy(PartMins(Grouped(s, size), f, key), key) == MinBy(Map(s, f), key)
    decreases |s|
  {
    if |s| <= size {
      assert Grouped(s, size)[1..] == [];
    } else {
      var part, rest := s[..size], s[size..];
      GroupedMin(rest, f, key, size);
      var mins := PartMins(Grouped(rest, size), f, key);
      assert Grouped(s, size)[1..] == Grouped(rest, size);
      assert PartMins(Grouped(s, size), f, key) == [PartMin(part, f, key)] + mins;
      MinByJoins([PartMin(part, f, key)], mins, key);
      assert s == part + rest;
      MapJoins(part, rest, f);
      MinByJoins(Map(part, f), Map(rest, f), key);
    }
  }

  /** However many processors share the work, the result is the first minimum of the whole, ties included. */
  lemma ParallelIsSequential<A, B(!new)>(s: seq<A>, f: A -> B, key: B -> int, processors: nat) returns (i: nat)
    requires s != [] && processors > 0
    ensures FirstMin(Map(s, f), key, i) && ParallelMapMin(s, f, key, processors) == Map(s, f)[i]
  {
    var share := |s| / processors;
    GroupedMin(s, f, key, if share >= 1 then share else 1);
    i := MinByIsFirst(Map(s, f), key);
  }

  // ----- The simulation

  type Source = nat
  type Miner = nat

  datatype Draw = Draw(delay: int, source: Source)

  /** What the simulation asks of cryptography and of the delay formulas. */
  datatype Rules = Rules(
    miners: seq<Miner>,
    draw: (Miner, Source, int) -> Draw,                        // miner, hit source, base target
    nextTarget: (int, nat, Option<int>, int, int) -> int)  // target, height, great-grandparent's, parent's and own time

  const DEPTH := 100

  function DrawOf(rules: Rules, source: Source, target: int): Miner -> Draw { (m: Miner) => rules.draw(m, source, target) }

  function DelayOf(): Draw -> int { (d: Draw) => d.delay }

  function Best(rules: Rules, source: Source, target: int, processors: nat): Draw
    requires rules.miners != [] && processors > 0
  {
    ParallelMapMin(rules.miners, DrawOf(rules, source, target), DelayOf(), processors)
  }

  /** A block of the simulated chain. */
  datatype Block = Block(source: Source, time: int, target: int)

  /** The block at `height + 1`, once its miner is drawn. */
  function After(rules: Rules, best: Draw, parent: Block, older: Option<int>, height: nat): Block {
    var time := parent.time + best.delay;
    Block(best.source, time, rules.nextTarget(parent.target, height, older, parent.time, time))
  }

  function Lift(times: seq<int>, i: nat): Option<int> { if i < |times| then Some(times[i]) else None }

  /** The hit source the next block is drawn from. */
  function Current(sources: seq<Source>, height: nat): Source
    requires |sources| == height > 0
  {
    if height > DEPTH then sources[DEPTH] else sources[0]
  }

  function NextOf(rules: Rules, processors: nat, sources: seq<Source>, times: seq<int>, targets: seq<int>, height: nat): Block
    requires rules.miners != [] && processors > 0 && |sources| == |times| == |targets| == height > 0
  {
    After(rules, Best(rules, Current(sources, height), targets[0], processors),
          Block(sources[0], times[0], targets[0]), Lift(times, 2), height)
  }

  /** `calc`: all three lists grow at their head. */
  function Calc(rules: Rules, processors: nat, sources: seq<Source>, times: seq<int>, targets: seq<int>,
                height: nat, n: nat): (all: seq<int>)
    requires rules.miners != [] && processors > 0
    requires |sources| == |times| == |targets| == height > 0
    ensures |all| == height + n
    decreases n
  {
    if n == 0 then targets
    else
      var next := NextOf(rules, processors, sources, times, targets, height);
      Calc(rules, processors, [next.source] + sources, [next.time] + times, [next.target] + targets, height + 1, n - 1)
  }

  /** The same chain by height, from the recurrence alone: a block's source is drawn from the one 100 blocks below its
    * parent, or from its parent's while there is none.
    */
  ghost function Chain(rules: Rules, start: Block, height: nat): Block
    requires rules.miners != [] && height > 0
    decreases height
  {
    if height == 1 then start
    else
      var parent := Chain(rules, start, height - 1);
      var source := if height > 101 then Chain(rules, start, height - 101).source else parent.source;
      var older := if height > 3 then Some(Chain(rules, start, height - 3).time) else None;
      var best := MinBy(Map(rules.miners, (m: Miner) => rules.draw(m, source, parent.target)), (d: Draw) => d.delay);
      Block(best.source, parent.time + best.delay,
            rules.nextTarget(parent.target, height - 1, older, parent.time, parent.time + best.delay))
  }

  /** The lists hold the chain, newest first. */
  ghost predicate Holds(rules: Rules, start: Block, sources: seq<Source>, times: seq<int>, targets: seq<int>, height: nat)
    requires rules.miners != []
  {
    && |sources| == |times| == |targets| == height > 0
    && forall i :: 0 <= i < height ==> Block(sources[i], times[i], targets[i]) == Chain(rules, start, height - i)
  }

  lemma BestIsFirst(rules: Rules, source: Source, target: int, processors: nat)
    requires rules.miners != [] && processors > 0
    ensures Best(rules, source, target, processors) == MinBy(Map(rules.miners, DrawOf(rules, source, target)), DelayOf())
  {
    var share := |rules.miners| / processors;
    GroupedMin(rules.miners, DrawOf(rules, source, target), DelayOf(), if share >= 1 then share else 1);
    hide MinBy, PartMins, Grouped, Map;
  }

  lemma ChainNext(rules: Rules, start: Block, height: nat, parent: Block, source: Source, older: Option<int>)
    requires rules.miners != [] && height > 0 && parent == Chain(rules, start, height)
    requires source == if height > DEPTH then Chain(rules, start, height - DEPTH).source else parent.source
    requires older == if height > 2 then Some(Chain(rules, start, height - 2).time) else None
    ensures Chain(rules, start, height + 1) ==
            After(rules, MinBy(Map(rules.miners, DrawOf(rules, source, parent.target)), DelayOf()), parent, older, height)
  {
    hide MinBy, Map;
  }

  /** What the next block is made from, by height. */
  lemma Inputs(rules: Rules, start: Block, sources: seq<Source>, times: seq<int>, targets: seq<int>, height: nat)
    requires rules.miners != [] && Holds(rules, start, sources, times, targets, height)
    ensures Block(sources[0], times[0], targets[0]) == Chain(rules, start, height)
    ensures Current(sources, height) == if height > DEPTH then Chain(rules, start, height - DEPTH).source else sources[0]
    ensures Lift(times, 2) == if height > 2 then Some(Chain(rules, start, height - 2).time) else None
  {
    hide Chain;
    assert Block(sources[0], times[0], targets[0]) == Chain(rules, start, height - 0);
    assert height > DEPTH ==> Block(sources[DEPTH], times[DEPTH], targets[DEPTH]) == Chain(rules, start, height - DEPTH);
    assert height > 2 ==> Block(sources[2], times[2], targets[2]) == Chain(rules, start, height - 2);
  }

  lemma NextBlock(rules: Rules, processors: nat, start: Block, sources: seq<Source>, times: seq<int>, targets: seq<int>, height: nat)
    requires rules.miners != [] && processors > 0 && Holds(rules, start, sources, times, targets, height)
    ensures Chain(rules, start, height + 1) == NextOf(rules, processors, sources, times, targets, height)
  {
    Inputs(rules, start, sources, times, targets, height);
    assert |sources| == |times| == |targets| == height > 0;
    hide Best, MinBy, Map, After, DrawOf, DelayOf, Chain, Holds, Current, Lift;
    BestIsFirst(rules, Current(sources, height), targets[0], processors);
    ChainNext(rules, start, height, Block(sources[0], times[0], targets[0]), Current(sources, height), Lift(times, 2));
  }

  lemma HoldsMore(rules: Rules, start: Block, sources: seq<Source>, times: seq<int>, targets: seq<int>, height: nat, block: Block)
    requires rules.miners != [] && Holds(rules, start, sources, times, targets, height)
    requires block == Chain(rules, start, height + 1)
    ensures Holds(rules, start, [block.source] + sources, [block.time] + times, [block.target] + targets, height + 1)
  {
    hide Chain;
    var sources', times', targets' := [block.source] + sources, [block.time] + times, [block.target] + targets;
    forall i | 0 <= i < height + 1
      ensures Block(sources'[i], times'[i], targets'[i]) == Chain(rules, start, height + 1 - i)
    {
      if i > 0 {
        assert Block(sources[i - 1], times[i - 1], targets[i - 1]) == Chain(rules, start, height - (i - 1));
      }
    }
  }

  /** Whatever the number of processors, the lists always have the length of the height, and the result is the chain's
    * base targets, newest first.
    */
  lemma {:induction false} CalcIsChain(rules: Rules, processors: nat, start: Block, sources: seq<Source>,
                                       times: seq<int>, targets: seq<int>, height: nat, n: nat, i: nat)
    requires rules.miners != [] && processors > 0 && Holds(rules, start, sources, times, targets, height) && i < height + n
    ensures Calc(rules, processors, sources, times, targets, height, n)[i] == Chain(rules, start, height + n - i).target
    decreases n
  {
    hide Chain, NextOf;
    if n > 0 {
      var next := NextOf(rules, processors, sources, times, targets, height);
      NextBlock(rules, processors, start, sources, times, targets, height);
      HoldsMore(rules, start, sources, times, targets, height, next);
      hide Holds;
      CalcIsChain(rules, processors, start, [next.source] + sources, [next.time] + times, [next.target] + targets,
                  height + 1, n - 1, i);
    } else {
      assert Block(sources[i], times[i], targets[i]) == Chain(rules, start, height - i);
    }
  }

  /** From the start block on, `calc` lists the chain's base targets, newest first. */
  lemma SimulationIsChain(rules: Rules, processors: nat, start: Block, n: nat, i: nat)
    requires rules.miners != [] && processors > 0 && i <= n
    ensures Calc(rules, processors, [start.source], [start.time], [start.target], 1, n)[i] == Chain(rules, start, n + 1 - i).target
  {
    ChainStarts(rules, start);
    hide Chain, Calc;
    CalcIsChain(rules, processors, start, [start.source], [start.time], [start.target], 1, n, i);
  }

  lemma ChainStarts(rules: Rules, start: Block)
    requires rules.miners != []
    ensures Chain(rules, start, 1) == start
  {
  }
}
