/** The import loop: a queue refilled in chunks from the export files, and the blocks taken from it one by one. */
module Importer {
  import opened Wrappers
  import opened Periods
  import opened ChainFile

  /** Ids from genesis to the tip. */
  type Chain = seq<nat>

  /** The node's answer to a block that extends its tip. */
  datatype Verdict = Applied | Ignored | Rejected
  type Appender = (Chain, Pair) -> Verdict

  // ----- What an import does, whatever the queue

  datatype Outcome = Outcome(chain: Chain, taken: seq<Pair>, rejected: bool)

  predicate Extends(chain: Chain, pair: Pair) { chain != [] && Last(chain) == pair.block.reference }

  function Grown(append: Appender, chain: Chain, pair: Pair): Chain {
    if append(chain, pair) == Applied then chain + [pair.block.id] else chain
  }

  /** Offering pairs in order: those that do not extend the tip are passed over, a rejected one ends it all, and at most
    * `budget` are taken.
    */
  function Import(append: Appender, chain: Chain, pairs: seq<Pair>, budget: int): (out: Outcome)
    decreases |pairs|
  {
    if pairs == [] || budget <= 0 then Outcome(chain, [], false)
    else if !Extends(chain, pairs[0]) then Import(append, chain, pairs[1..], budget)
    else if append(chain, pairs[0]) == Rejected then Outcome(chain, [], true)
    else
      var more := Import(append, Grown(append, chain, pairs[0]), pairs[1..], budget - 1);
      more.(taken := [pairs[0]] + more.taken)
  }

  function Then(out: Outcome, more: Outcome): Outcome {
    if out.rejected then out else Outcome(more.chain, out.taken + more.taken, more.rejected)
  }

  /** Offering one list and then another is offering both. */
  lemma {:induction false} ImportSplits(append: Appender, chain: Chain, pairs: seq<Pair>, others: seq<Pair>, budget: int)
    ensures var out := Import(append, chain, pairs, budget);
            Import(append, chain, pairs + others, budget) == Then(out, Import(append, out.chain, others, budget - |out.taken|))
    decreases |pairs|
  {
    if pairs == [] {
      assert pairs + others == others;
    } else if budget > 0 {
      assert (pairs + others)[1..] == pairs[1..] + others;
      if !Extends(chain, pairs[0]) {
        ImportSplits(append, chain, pairs[1..], others, budget);
      } else if append(chain, pairs[0]) != Rejected {
        ImportSplits(append, Grown(append, chain, pairs[0]), pairs[1..], others, budget - 1);
      }
    }
  }

  lemma ImportOne(append: Appender, chain: Chain, pair: Pair, budget: int)
    requires budget > 0
    ensures Import(append, chain, [pair], budget) ==
            if !Extends(chain, pair) then Outcome(chain, [], false)
            else if append(chain, pair) == Rejected then Outcome(chain, [], true)
            else Outcome(Grown(append, chain, pair), [pair], false)
  {
    assert [pair][1..] == [];
  }

  // ----- The importer

  class ImportRun {
    const codec: Codec
    const append: Appender
    const maxSize: nat
    var source: Source
    var queue: seq<Pair>
    var quit: bool
    var chain: Chain
    var counter: nat

    constructor (codec: Codec, append: Appender, maxSize: nat, source: Source, chain: Chain)
      ensures this.codec == codec && this.append == append && this.maxSize == maxSize
      ensures this.source == source && this.chain == chain && queue == [] && !quit && counter == 0
    {
      this.codec, this.append, this.maxSize := codec, append, maxSize;
      this.source, this.chain := source, chain;
      queue, quit, counter := [], false, 0;
    }

    /** What the streams still hold for this run. */
    ghost function Unread(): Reading
      reads this`source, this`quit
    {
      if quit then Reading([], false) else ReadAll(codec, source)
    }

    ghost function Fuel(): nat
      reads this`source, this`quit
    {
      if quit then 0 else 1 + |source.blocks|
    }

    /** One frame of each stream: skipped, queued, or the end of the input. */
    method ReadFrame() returns (thrown: bool)
      requires !quit
      modifies this`source, this`queue, this`quit
      ensures thrown ==> old(Unread()) == Reading([], true) && !quit && queue == old(queue)
      ensures !thrown ==> old(queue + Unread().pairs) == queue + Unread().pairs && old(Unread()).failed == Unread().failed
      ensures !thrown ==> Fuel() < old(Fuel())
      ensures !thrown && !quit ==>
                && source.toSkip == Max(old(source.toSkip) - 1, 0)
                && |queue| == old(|queue|) + if old(source.toSkip) > 0 then 0 else 1
    {
      hide ReadOne;
      match ReadOne(codec, source)
      case End =>
        quit := true;
        return false;
      case Fail =>
        return true;
      case Entry(pair, rest) =>
        ReadShrinks(codec, source);
        ReadSkips(codec, source);
        if pair.Some? {
          assert ReadAll(codec, source).pairs == [pair.value] + ReadAll(codec, rest).pairs;
          queue := queue + [pair.value];
        }
        source := rest;
        thrown := false;
    }

    /** `readBlocks`: at most `maxSize` frames, skipped ones included, are moved to the queue. */
    method ReadBlocks() returns (thrown: bool)
      requires !quit
      modifies this`source, this`queue, this`quit
      ensures thrown ==> old(Unread()).failed
      ensures !thrown ==> old(queue + Unread().pairs) == queue + Unread().pairs && old(Unread()).failed == Unread().failed
      ensures !thrown && maxSize > 0 ==> Fuel() < old(Fuel())
      ensures !thrown && !quit ==>
                && source.toSkip == Max(old(source.toSkip) - maxSize, 0)
                && |queue| == old(|queue|) + Max(maxSize - old(source.toSkip), 0)
      ensures thrown && old(Unread()).pairs != [] ==> old(source.toSkip + |Unread().pairs|) < maxSize
    {
      hide ReadAll;
      ghost var skip, before := source.toSkip, |queue|;
      var done := 0;
      while done < maxSize
        invariant done <= maxSize && !quit && Fuel() + (if done > 0 then 1 else 0) <= old(Fuel())
        invariant source.toSkip == Max(skip - done, 0) && |queue| == before + Max(done - skip, 0)
        invariant queue + Unread().pairs == old(queue + Unread().pairs) && Unread().failed == old(Unread()).failed
      {
        thrown := ReadFrame();
        if thrown {
          assert |queue| == |old(queue + Unread().pairs)|;
          return;
        }
        if quit {
          return;
        }
        done := done + 1;
      }
      thrown := false;
    }

    /** The node is where offering the first `offered` of `pairs` to `start` leads. */
    ghost predicate ReachedBy(start: Chain, pairs: seq<Pair>, budget: int, offered: nat)
      reads this
    {
      && offered <= |pairs|
      && Import(append, start, pairs[..offered], budget).chain == chain
      && |Import(append, start, pairs[..offered], budget).taken| == counter
    }

    /** Offers the queue's first block to the node. */
    method TakeNext(ghost budget: int)
      requires queue != [] && budget > 0
      modifies this`queue, this`quit, this`chain, this`counter
      ensures Import(append, old(chain), [old(queue[0])], budget).chain == chain
      ensures old(counter) + |Import(append, old(chain), [old(queue[0])], budget).taken| == counter
      ensures if Import(append, old(chain), [old(queue[0])], budget).rejected then quit && queue == []
              else quit == old(quit) && queue == old(queue[1..])
    {
      var pair := queue[0];
      queue := queue[1..];
      ImportOne(append, chain, pair, budget);
      hide Import;
      if Extends(chain, pair) {
        match append(chain, pair)
        case Rejected =>
          queue := [];
          quit := true;
        case Applied =>
          chain := chain + [pair.block.id];
          counter := counter + 1;
        case Ignored =>
          counter := counter + 1;
      }
    }

    /** What the loop keeps: the first `offered` pairs are dealt with, and the rest is in the queue or still unread. */
    ghost predicate Underway(start: Chain, input: Reading, budget: int, offered: nat)
      reads this
    {
      && offered <= |input.pairs|
      && var out := Import(append, start, input.pairs[..offered], budget);
      && chain == out.chain && counter == |out.taken|
      && if out.rejected then quit && queue == []
         else input.pairs[offered..] == queue + Unread().pairs && Unread().failed == input.failed
    }

    /** One turn on a queue that holds something. */
    method Turn(ghost start: Chain, ghost input: Reading, ghost budget: int, ghost offered: nat)
      requires Underway(start, input, budget, offered) && queue != [] && counter < budget
      modifies this`queue, this`quit, this`chain, this`counter
      ensures Underway(start, input, budget, offered + 1)
      ensures Fuel() <= old(Fuel()) && |queue| < old(|queue|)
      ensures !quit ==> !old(quit) && |queue| == old(|queue|) - 1
    {
      hide Import, ReadAll;
      assert queue[0] == input.pairs[offered..][0];
      assert (queue + Unread().pairs)[1..] == queue[1..] + Unread().pairs;
      OfferOne(append, start, input.pairs, offered, budget);
      TakeNext(budget - counter);
    }

    /** How far the refills have come: `refills` of them, each of `maxSize` frames, have been read without an end. */
    ghost predicate Refilled(toSkip: nat, offered: nat, refills: nat)
      reads this
    {
      !quit ==>
        && source.toSkip == Max(toSkip - Mul(refills, maxSize), 0)
        && offered + |queue| == Max(Mul(refills, maxSize) - toSkip, 0)
    }

    /** One turn on an empty queue. */
    method Refill(ghost start: Chain, ghost input: Reading, ghost budget: int, ghost offered: nat, ghost toSkip: nat, ghost refills: nat)
      returns (thrown: bool)
      requires Underway(start, input, budget, offered) && Refilled(toSkip, offered, refills) && !quit && queue == [] && maxSize > 0
      modifies this`source, this`queue, this`quit
      ensures thrown ==> input.failed && offered == WholeRefills(toSkip, |input.pairs|, maxSize)
      ensures thrown ==> ReachedBy(start, input.pairs, budget, offered)
      ensures !thrown ==> Underway(start, input, budget, offered) && Refilled(toSkip, offered, refills + 1) && Fuel() < old(Fuel())
    {
      hide Import, ReadAll, Mul, WholeRefills;
      ghost var skip := source.toSkip;
      LeftOf(input.pairs, offered, Unread().pairs);
      thrown := ReadBlocks();
      if thrown {
        CountRefills(toSkip, |input.pairs|, maxSize, refills, offered, skip);
      }
      MulFacts(refills, maxSize);
    }

    /** `startImport`. Unless the input is malformed, the run ends where offering all its pairs at once leads, whatever the
      * queue's size; malformed input still leaves the node where offering the pairs of the whole refills before it leads.
      */
    method StartImport(importHeight: nat) returns (thrown: bool, ghost offered: nat)
      requires chain != [] && maxSize > 0 && queue == [] && !quit && counter == 0
      modifies this`source, this`queue, this`quit, this`chain, this`counter
      ensures ReachedBy(old(chain), old(Unread()).pairs, importHeight - |old(chain)| + 1, offered)
      ensures thrown ==> old(Unread()).failed && offered == WholeRefills(old(source.toSkip), |old(Unread()).pairs|, maxSize)
      ensures !thrown ==> ReachedBy(old(chain), old(Unread()).pairs, importHeight - |old(chain)| + 1, |old(Unread()).pairs|)
    {
      ghost var start, input, toSkip, refills := chain, Unread(), source.toSkip, 0;
      var blocksToApply := importHeight - |chain| + 1;
      offered := 0;
      assert input.pairs[..0] == [];
      MulFacts(0, maxSize);
      while (!quit || queue != []) && counter < blocksToApply
        invariant Underway(start, input, blocksToApply, offered)
        invariant Refilled(toSkip, offered, refills)
        decreases Fuel(), |queue|
      {
        hide Import, ReadAll, WholeRefills, Refilled;
        if !quit && queue == [] {
          thrown := Refill(start, input, blocksToApply, offered, toSkip, refills);
          if thrown {
            return;
          }
          refills := refills + 1;
        } else {
          Turn(start, input, blocksToApply, offered);
          offered := offered + 1;
        }
      }
      thrown := false;
      OfferedAll(append, start, input.pairs, offered, blocksToApply);
    }
  }

  function Mul(a: nat, b: nat): nat { a * b }

  lemma MulFacts(refills: nat, maxSize: nat)
    ensures Mul(0, maxSize) == 0 && Mul(refills + 1, maxSize) == Mul(refills, maxSize) + maxSize
  {
  }

  /** The pairs of the refills that end before a malformed frame, which comes after `toSkip` skipped frames and `pairs` pairs. */
  function WholeRefills(toSkip: nat, pairs: nat, maxSize: nat): int
    requires maxSize > 0
  {
    Max((toSkip + pairs) / maxSize * maxSize - toSkip, 0)
  }

  lemma LeftOf(pairs: seq<Pair>, offered: nat, left: seq<Pair>)
    requires offered <= |pairs|
    ensures pairs[offered..] == [] + left ==> |left| == |pairs| - offered
  {
    assert [] + left == left;
  }

  lemma CountRefills(toSkip: nat, pairs: nat, maxSize: nat, refills: nat, offered: nat, skip: nat)
    requires maxSize > 0 && offered <= pairs
    requires skip == Max(toSkip - Mul(refills, maxSize), 0) && offered == Max(Mul(refills, maxSize) - toSkip, 0)
    requires pairs - offered > 0 ==> skip + (pairs - offered) < maxSize
    ensures offered == WholeRefills(toSkip, pairs, maxSize)
  {
    var used, all := refills * maxSize, toSkip + pairs;
    if pairs > offered {
      DivUnique(all, maxSize, refills, all - used);
    } else if offered > 0 {
      DivUnique(all, maxSize, refills, 0);
    } else {
      assert all == all / maxSize * maxSize + all % maxSize;
    }
  }

  lemma ReadSkips(codec: Codec, src: Source)
    requires ReadOne(codec, src).Entry?
    ensures ReadOne(codec, src).pair.None? <==> src.toSkip > 0
    ensures ReadOne(codec, src).rest.toSkip == Max(src.toSkip - 1, 0)
  {
  }

  lemma OfferOne(append: Appender, start: Chain, pairs: seq<Pair>, offered: nat, budget: int)
    requires offered < |pairs|
    ensures pairs[offered..][1..] == pairs[offered + 1..]
    ensures var out := Import(append, start, pairs[..offered], budget);
            Import(append, start, pairs[..offered + 1], budget)
            == Then(out, Import(append, out.chain, [pairs[offered]], budget - |out.taken|))
  {
    assert pairs[..offered + 1] == pairs[..offered] + [pairs[offered]];
    ImportSplits(append, start, pairs[..offered], [pairs[offered]], budget);
  }

  lemma OfferedAll(append: Appender, start: Chain, pairs: seq<Pair>, offered: nat, budget: int)
    requires offered <= |pairs|
    requires var out := Import(append, start, pairs[..offered], budget);
             out.rejected || |out.taken| >= budget || pairs[offered..] == []
    ensures Import(append, start, pairs[..|pairs|], budget) == Import(append, start, pairs[..offered], budget)
  {
    assert pairs[..|pairs|] == pairs[..offered] + pairs[offered..];
    ImportSplits(append, start, pairs[..offered], pairs[offered..], budget);
  }

  lemma ReadShrinks(codec: Codec, src: Source)
    requires ReadOne(codec, src).Entry?
    ensures |ReadOne(codec, src).rest.blocks| < |src.blocks|
  {
  }

  // ----- What it takes

  /** Each pair extends the tip left by those before it and is not rejected there. */
  ghost predicate Legal(append: Appender, start: Chain, taken: seq<Pair>, end: Chain)
    decreases |taken|
  {
    if taken == [] then end == start
    else
      && Extends(start, taken[0]) && append(start, taken[0]) != Rejected
      && Legal(append, Grown(append, start, taken[0]), taken[1..], end)
  }

  ghost predicate InOrder(taken: seq<Pair>, pairs: seq<Pair>) {
    taken == [] || (pairs != [] && (InOrder(taken, pairs[1..]) || (taken[0] == pairs[0] && InOrder(taken[1..], pairs[1..]))))
  }

  /** Only blocks that extend the tip are taken, in file order and within the budget, and they account for the whole
    * growth of the chain.
    */
  lemma {:induction false} TakenLegal(append: Appender, start: Chain, pairs: seq<Pair>, budget: int)
    ensures var out := Import(append, start, pairs, budget);
            Legal(append, start, out.taken, out.chain) && InOrder(out.taken, pairs) && |out.taken| <= Max(budget, 0)
    decreases |pairs|
  {
    if pairs != [] && budget > 0 {
      if !Extends(start, pairs[0]) {
        TakenLegal(append, start, pairs[1..], budget);
      } else if append(start, pairs[0]) != Rejected {
        TakenLegal(append, Grown(append, start, pairs[0]), pairs[1..], budget - 1);
        var out := Import(append, start, pairs, budget);
        assert out.taken[1..] == Import(append, Grown(append, start, pairs[0]), pairs[1..], budget - 1).taken;
      }
    }
  }

  /** A rejection is the last thing that happens: it is the answer to the block right after those dealt with. */
  lemma {:induction false} RejectionIsLast(append: Appender, start: Chain, pairs: seq<Pair>, budget: int) returns (k: nat)
    requires Import(append, start, pairs, budget).rejected
    ensures k < |pairs|
    ensures var out := Import(append, start, pairs, budget);
            && Import(append, start, pairs[..k], budget) == out.(rejected := false)
            && Extends(out.chain, pairs[k]) && append(out.chain, pairs[k]) == Rejected
    decreases |pairs|
  {
    if !Extends(start, pairs[0]) {
      k := RejectionIsLast(append, start, pairs[1..], budget);
      k := k + 1;
      assert pairs[..k][1..] == pairs[1..][..k - 1];
    } else if append(start, pairs[0]) == Rejected {
      k := 0;
    } else {
      k := RejectionIsLast(append, Grown(append, start, pairs[0]), pairs[1..], budget - 1);
      k := k + 1;
      assert pairs[..k][1..] == pairs[1..][..k - 1];
    }
  }

  // ----- Importing an export

  /** Genesis and the first `k` blocks of the file. */
  function ChainOf(genesis: nat, pairs: seq<Pair>, k: nat): (chain: Chain)
    requires k <= |pairs|
    ensures |chain| == k + 1 && chain[0] == genesis
    ensures forall i :: 0 <= i < k ==> chain[i + 1] == pairs[i].block.id
  {
    [genesis] + seq(k, i requires 0 <= i < k => pairs[i].block.id)
  }

  /** The file holds one chain from genesis on, and the node accepts it. */
  ghost predicate Accepted(append: Appender, genesis: nat, pairs: seq<Pair>) {
    forall i :: 0 <= i < |pairs| ==> AcceptedAt(append, genesis, pairs, i)
  }

  ghost predicate AcceptedAt(append: Appender, genesis: nat, pairs: seq<Pair>, i: nat)
    requires i < |pairs|
  {
    Extends(ChainOf(genesis, pairs, i), pairs[i]) && append(ChainOf(genesis, pairs, i), pairs[i]) == Applied
  }

  function Min(a: int, b: int): int { if a <= b then a else b }

  /** Offered what follows its tip, the node takes it all up to the budget. */
  lemma {:induction false} TailImports(append: Appender, genesis: nat, pairs: seq<Pair>, k: nat, budget: nat)
    requires Accepted(append, genesis, pairs) && k <= |pairs|
    ensures Import(append, ChainOf(genesis, pairs, k), pairs[k..], budget).chain
         == ChainOf(genesis, pairs, Min(|pairs|, k + budget))
    decreases budget
  {
    if k < |pairs| && budget > 0 {
      var chain := ChainOf(genesis, pairs, k);
      assert AcceptedAt(append, genesis, pairs, k);
      assert pairs[k..][0] == pairs[k] && pairs[k..][1..] == pairs[k + 1..];
      assert Grown(append, chain, pairs[k]) == ChainOf(genesis, pairs, k + 1);
      TailImports(append, genesis, pairs, k + 1, budget - 1);
      hide Accepted;
    }
  }

  /** Blocks the node already has are passed over, when no two ids are the same. */
  lemma {:induction false} KnownIgnored(append: Appender, genesis: nat, pairs: seq<Pair>, j: nat, k: nat, budget: nat)
    requires Accepted(append, genesis, pairs) && j <= k <= |pairs|
    requires forall a, b :: 0 <= a < b <= k ==> ChainOf(genesis, pairs, k)[a] != ChainOf(genesis, pairs, k)[b]
    ensures Import(append, ChainOf(genesis, pairs, k), pairs[j..], budget)
         == Import(append, ChainOf(genesis, pairs, k), pairs[k..], budget)
    decreases k - j
  {
    if j < k && budget > 0 {
      var chain := ChainOf(genesis, pairs, k);
      assert AcceptedAt(append, genesis, pairs, j);
      assert ChainOf(genesis, pairs, j)[j] == chain[j] && chain[j] != chain[k];
      assert pairs[j..][0] == pairs[j] && pairs[j..][1..] == pairs[j + 1..];
      assert !Extends(chain, pairs[j]);
      KnownIgnored(append, genesis, pairs, j + 1, k, budget);
      hide Accepted;
    }
  }

  /** A shorter file of the same chain. */
  lemma AcceptedPrefix(append: Appender, genesis: nat, pairs: seq<Pair>, n: nat)
    requires Accepted(append, genesis, pairs) && n <= |pairs|
    ensures Accepted(append, genesis, pairs[..n])
    ensures forall k :: 0 <= k <= n ==> ChainOf(genesis, pairs[..n], k) == ChainOf(genesis, pairs, k)
  {
    forall k | 0 <= k <= n ensures ChainOf(genesis, pairs[..n], k) == ChainOf(genesis, pairs, k) {
    }
    forall i | 0 <= i < n ensures AcceptedAt(append, genesis, pairs[..n], i) {
      assert AcceptedAt(append, genesis, pairs, i);
    }
  }

  /** Import of what follows the first `k` of `n` pairs. */
  lemma PartImports(append: Appender, genesis: nat, pairs: seq<Pair>, k: nat, n: nat, budget: int)
    requires Accepted(append, genesis, pairs) && k <= n <= |pairs|
    ensures Import(append, ChainOf(genesis, pairs, k), pairs[k..n], budget).chain
         == ChainOf(genesis, pairs, if budget < 0 then k else Min(n, k + budget))
  {
    AcceptedPrefix(append, genesis, pairs, n);
    assert pairs[..n][k..] == pairs[k..n];
    if budget >= 0 {
      hide Accepted, Import, ChainOf;
      TailImports(append, genesis, pairs[..n], k, budget);
    }
  }

  /** Export, stop anywhere, resume in the binary format: a node that holds the first blocks of an export, which may be cut at
    * any byte of either file, reads on, without an error, to the very chain the export came from, as far as it is whole and
    * up to one block past the import height.
    */
  lemma ResumeReaches(codec: Codec, append: Appender, genesis: nat, rows: seq<Stored>, items: seq<Written>,
                      cut: nat, cutSnapshots: nat, withSnapshots: bool, importHeight: nat)
    requires AllExportable(codec, items, withSnapshots) && Holds(rows, items)
    requires cut <= |BlockFile(items)| && cutSnapshots <= |SnapshotFile(items)|
    requires |rows| - 1 <= Whole(items, cut, cutSnapshots, withSnapshots)
    requires Accepted(append, genesis, AllReadBack(codec, items, withSnapshots))
    ensures var pairs, n := AllReadBack(codec, items, withSnapshots), Whole(items, cut, cutSnapshots, withSnapshots);
            var files := CutFiles(items, cut, cutSnapshots, withSnapshots);
            var source := Resumed(true, rows, files.blocks, files.snapshots);
            && source.Some? && !ReadAll(codec, source.value).failed
            && Import(append, ChainOf(genesis, pairs, |rows| - 1), ReadAll(codec, source.value).pairs, importHeight - |rows| + 1).chain
            == ChainOf(genesis, pairs, Max(|rows| - 1, Min(n, importHeight)))
  {
    hide ReadAll, BlockFile, SnapshotFile, Whole, Resumed, AllReadBack, AllExportable, Accepted, Import, ChainOf, CutFiles;
    CutResumes(codec, rows, items, cut, cutSnapshots, withSnapshots);
    hide Holds;
    PartImports(append, genesis, AllReadBack(codec, items, withSnapshots), |rows| - 1,
                Whole(items, cut, cutSnapshots, withSnapshots), importHeight - |rows| + 1);
  }
}
