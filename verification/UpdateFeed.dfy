/** The updates repository: it follows the node's chain and hands every change of it to the handlers.
  *
  * The chain is spelled out with the ids of all microblocks, also where these are stored as one solid block by now.
  */
module UpdateFeed {
  import opened Wrappers
  import opened Periods
  import opened ChainEvents
  import opened Compaction
  import opened EventHandler

  /** A stored block: its id before any microblock, the id it references, and the total ids of its microblocks. */
  datatype Solid = Solid(id: Id, reference: Id, micros: seq<Id>) {
    function Ids(): seq<Id> { [id] + micros }

    function Total(): Id { Ids()[|micros|] }
  }

  /** The key block on top and the total ids of its microblocks. */
  datatype Liquid = Liquid(height: Height, id: Id, reference: Id, micros: seq<Id>)

  function TotalId(l: Liquid): Id { if l.micros == [] then l.id else l.micros[|l.micros| - 1] }

  function Solidified(l: Liquid): Solid { Solid(l.id, l.reference, l.micros) }

  /** A block microblock by microblock. */
  function BlockEvents(b: Solid): seq<Event> { [BlockAppended(b.id, b.reference)] + MicroEvents(b.id, b.micros) }

  /** What a new handler starts with. */
  function LiquidEvents(l: Liquid): seq<Event> { BlockEvents(Solidified(l)) }

  function MicroEvents(tip: Id, micros: seq<Id>): seq<Event>
    decreases |micros|
  {
    if micros == [] then [] else [MicroBlockAppended(micros[0], tip)] + MicroEvents(micros[0], micros[1..])
  }

  // ----- Chains and their prefixes

  /** A chain is cut at the tip of any of its prefixes. */
  lemma {:induction false} CutAt(parent: Id -> Id, chain: Chain, k: nat)
    requires Linked(parent, chain) && 0 < k <= |chain|
    ensures chain[k - 1] in chain && Upto(chain, chain[k - 1]) == chain[..k] && Linked(parent, chain[..k])
    decreases |chain|
  {
    if k < |chain| {
      var shorter := chain[..|chain| - 1];
      CutAt(parent, shorter, k);
      assert shorter[..k] == chain[..k] && shorter[k - 1] == chain[k - 1];
      assert Tip(chain) != chain[k - 1];
    } else {
      assert chain[..k] == chain;
    }
  }

  /** A cut chain is a prefix of the chain. */
  lemma {:induction false} UptoPrefix(parent: Id -> Id, chain: Chain, id: Id) returns (k: nat)
    requires Linked(parent, chain) && id in chain
    ensures 0 < k <= |chain| && Upto(chain, id) == chain[..k] && Linked(parent, chain[..k])
  {
    var i :| 0 <= i < |chain| && chain[i] == id;
    CutAt(parent, chain, i + 1);
    k := i + 1;
  }

  lemma RunOne(chain: Chain, e: Event)
    ensures Run(chain, [e]) == Apply(chain, e)
  {
    assert [e][..0] == [];
  }

  // ----- Rolling back

  /** A block is on top of a chain. */
  ghost predicate Tops(chain: Chain, b: Solid) {
    var k := |chain| - |b.Ids()|;
    k > 0 && chain[k..] == b.Ids() && chain[k - 1] == b.reference
  }

  /** Stored blocks go down from the tip, each one to the id it references. */
  ghost predicate SolidOn(chain: Chain, stored: seq<Solid>)
    decreases |stored|
  {
    stored == [] ||
    (var last := stored[|stored| - 1];
     Tops(chain, last) && SolidOn(chain[..|chain| - |last.Ids()|], stored[..|stored| - 1]))
  }

  /** Microblocks are reverted from the last to the first, each event carrying the reverted microblock's own id. */
  function MicroReverts(micros: seq<Id>): seq<Event> {
    if micros == [] then []
    else [MicroBlockRollbackCompleted(micros[|micros| - 1])] + MicroReverts(micros[..|micros| - 1])
  }

  /** Blocks are reverted from the last to the first, each event carrying what the block referenced. */
  function SolidReverts(stored: seq<Solid>): seq<Event> {
    if stored == [] then []
    else [RollbackCompleted(stored[|stored| - 1].reference)] + SolidReverts(stored[..|stored| - 1])
  }

  lemma MicroRevert(parent: Id -> Id, below: Chain, micros: seq<Id>, above: seq<Id>)
    requires below != [] && micros != [] && Linked(parent, below + micros + above)
    ensures Run(below + micros + above, [MicroBlockRollbackCompleted(micros[|micros| - 1])]) == Some(below + micros)
    ensures Linked(parent, below + micros)
  {
    var chain, cut := below + micros + above, below + micros;
    assert chain[|cut| - 1] == micros[|micros| - 1] && chain[..|cut|] == cut;
    CutAt(parent, chain, |cut|);
    hide Linked;
    RunOne(chain, MicroBlockRollbackCompleted(micros[|micros| - 1]));
  }

  lemma {:induction false} MicroRevertsRun(parent: Id -> Id, below: Chain, micros: seq<Id>, above: seq<Id>)
    requires below != [] && Linked(parent, below + micros + above)
    ensures Run(below + micros + above, MicroReverts(micros))
         == Some(if micros == [] then below + micros + above else below + micros[..1])
    decreases |micros|
  {
    if micros != [] {
      var n := |micros| - 1;
      MicroRevert(parent, below, micros, above);
      hide Linked;
      RunConcat(below + micros + above, [MicroBlockRollbackCompleted(micros[n])], MicroReverts(micros[..n]));
      assert below + micros == below + micros[..n] + [micros[n]];
      MicroRevertsRun(parent, below, micros[..n], [micros[n]]);
      assert if n == 0 then micros[..1] == micros else micros[..n][..1] == micros[..1];
      hide Run;
    }
  }

  lemma TopReverts(parent: Id -> Id, chain: Chain, b: Solid)
    requires Linked(parent, chain) && Tops(chain, b)
    ensures var below := chain[..|chain| - |b.Ids()|];
            Linked(parent, below) && Run(chain, [RollbackCompleted(b.reference)]) == Some(below)
  {
    CutAt(parent, chain, |chain| - |b.Ids()|);
    RunOne(chain, RollbackCompleted(b.reference));
    hide Linked, Run;
  }

  /** Reverting the stored blocks from the `k`th on leaves the chain under the remaining ones. */
  lemma {:induction false} SolidRevertsRun(parent: Id -> Id, chain: Chain, stored: seq<Solid>, k: nat) returns (j: nat)
    requires Linked(parent, chain) && SolidOn(chain, stored) && k <= |stored|
    ensures 0 < j <= |chain| && SolidOn(chain[..j], stored[..k]) && Run(chain, SolidReverts(stored[k..])) == Some(chain[..j])
    ensures if k == |stored| then j == |chain| else chain[j - 1] == stored[k].reference
    decreases |stored|
  {
    if k == |stored| {
      j := |chain|;
      assert stored[..k] == stored && stored[k..] == [] && chain[..j] == chain;
    } else {
      var front, last := stored[..|stored| - 1], stored[|stored| - 1];
      var cut := |chain| - |last.Ids()|;
      TopReverts(parent, chain, last);
      RevertsSplit(stored, k);
      hide Linked, SolidReverts, Run;
      j := SolidRevertsRun(parent, chain[..cut], front, k);
      hide SolidOn;
      assert chain[..cut][..j] == chain[..j];
      RunConcat(chain, [RollbackCompleted(last.reference)], SolidReverts(front[k..]));
    }
  }

  lemma RevertsSplit(stored: seq<Solid>, k: nat)
    requires k < |stored|
    ensures var n := |stored| - 1;
            && SolidReverts(stored[k..]) == [RollbackCompleted(stored[n].reference)] + SolidReverts(stored[..n][k..])
            && stored[..n][..k] == stored[..k]
  {
    var n, last := |stored| - 1, |stored[k..]| - 1;
    assert stored[k..][last] == stored[n] && stored[k..][..last] == stored[..n][k..];
  }

  ghost predicate RollbacksOnly(events: seq<Event>) {
    forall e :: e in events ==> !e.IsAppend()
  }

  lemma {:induction false} NoAppends(micros: seq<Id>, stored: seq<Solid>)
    ensures RollbacksOnly(MicroReverts(micros)) && RollbacksOnly(SolidReverts(stored))
    decreases |micros| + |stored|
  {
    if micros != [] {
      NoAppends(micros[..|micros| - 1], []);
    }
    if stored != [] {
      NoAppends([], stored[..|stored| - 1]);
    }
  }

  lemma RollbacksConsistent(parent: Id -> Id, events: seq<Event>)
    requires RollbacksOnly(events)
    ensures Consistent(parent, events)
  {
  }

  lemma RevertsOnly(liquid: Option<Liquid>, stored: seq<Solid>)
    ensures RollbacksOnly(MicroReverts(LiquidMicros(liquid)) + BlockReverts(liquid, stored))
  {
    NoAppends(LiquidMicros(liquid), stored);
    hide MicroReverts, SolidReverts;
  }

  /** A new handler's first events lead from what is stored to the node's chain. */
  lemma {:induction false} MicroEventsRun(parent: Id -> Id, below: Chain, tip: Id, micros: seq<Id>)
    requires Linked(parent, below + micros) && below != [] && Tip(below) == tip
    ensures Run(below, MicroEvents(tip, micros)) == Some(below + micros) && Consistent(parent, MicroEvents(tip, micros))
    decreases |micros|
  {
    if micros == [] {
      assert below + micros == below;
    } else {
      var e, longer := MicroBlockAppended(micros[0], tip), below + [micros[0]];
      assert below + micros == longer + micros[1..];
      MicroEventsRun(parent, longer, micros[0], micros[1..]);
      NextLinked(parent, below, micros);
      RunOne(below, e);
      hide Linked;
      RunConcat(below, [e], MicroEvents(micros[0], micros[1..]));
    }
  }

  lemma NextLinked(parent: Id -> Id, below: Chain, more: seq<Id>)
    requires below != [] && more != [] && Linked(parent, below + more)
    ensures more[0] !in below && parent(more[0]) == Tip(below)
  {
    var chain := below + more;
    assert chain[|below|] == more[0];
    assert forall i :: 0 <= i < |below| ==> chain[i] == below[i];
  }

  lemma LinkedGrows(parent: Id -> Id, chain: Chain, id: Id)
    requires Linked(parent, chain) && id !in chain && parent(id) == Tip(chain)
    ensures Linked(parent, chain + [id])
  {
  }

  /** Events that take one chain to another, over the same genesis. */
  ghost predicate Moves(parent: Id -> Id, before: Chain, events: seq<Event>, after: Chain) {
    && Consistent(parent, events) && Run(before, events) == Some(after)
    && before != [] && after != [] && before[0] == after[0]
  }

  function RevertsOf(blocks: seq<Solid>): seq<Event> {
    if blocks == [] then [] else [RollbackCompleted(blocks[0].reference)] + RevertsOf(blocks[1..])
  }

  /** How many stored blocks are not above a height. */
  function Kept(first: Height, stored: seq<Solid>, toHeight: Height): (k: nat)
    ensures k <= |stored|
  {
    if toHeight + 1 <= first then 0 else if toHeight + 1 - first <= |stored| then toHeight + 1 - first else |stored|
  }

  /** The node's chain: what is settled, then the liquid block. */
  ghost function ChainOf(settled: Chain, liquid: Option<Liquid>): Chain {
    if liquid.Some? then settled + [liquid.value.id] + liquid.value.micros else settled
  }

  function IdAt(l: Liquid, k: nat): Id
    requires k <= |l.micros|
  {
    if k == 0 then l.id else l.micros[k - 1]
  }

  function LastAt(ids: seq<Id>, id: Id): (k: Option<nat>)
    ensures k.Some? ==> 0 < k.value <= |ids| && ids[k.value - 1] == id
    ensures k.None? ==> id !in ids
  {
    if ids == [] then None
    else if ids[|ids| - 1] == id then Some(|ids|)
    else LastAt(ids[..|ids| - 1], id)
  }

  /** How many microblocks to keep so that the given id is the total one. */
  function KeepFor(l: Liquid, id: Id): (k: Option<nat>)
    ensures k.Some? ==> k.value <= |l.micros| && IdAt(l, k.value) == id
    ensures k.None? ==> id !in [l.id] + l.micros
  {
    if l.id == id then Some(0) else LastAt(l.micros, id)
  }

  lemma LastOnly(parent: Id -> Id, settled: Chain, l: Liquid, k: nat)
    requires Linked(parent, settled + [l.id] + l.micros) && k <= |l.micros|
    ensures IdAt(l, k) in [l.id] + l.micros
    ensures k == |l.micros| <==> IdAt(l, k) == TotalId(l)
    ensures IdAt(l, k) == Tip(settled + [l.id] + l.micros[..k])
  {
    var chain, n := settled + [l.id] + l.micros, |settled|;
    assert chain[n + k] == IdAt(l, k) && chain[n + |l.micros|] == TotalId(l);
    assert ([l.id] + l.micros)[k] == IdAt(l, k);
  }

  // ----- What the node calls, and what a call does

  /** The repository, and the node's chain below the liquid block. */
  datatype Repository = Repository(liquid: Option<Liquid>, stored: seq<Solid>, settled: Chain)

  datatype Call =
    | ProcessBlock(id: Id, reference: Id)
    | ProcessMicroBlock(id: Id, reference: Id)
    | Rollback(toBlockId: Id, toHeight: Height)
    | RollbackMicro(toBlockId: Id)

  ghost predicate Sound(parent: Id -> Id, first: Height, r: Repository) {
    && r.settled != [] && Linked(parent, ChainOf(r.settled, r.liquid)) && SolidOn(r.settled, r.stored)
    && (r.liquid.Some? ==> Tip(r.settled) == r.liquid.value.reference && r.liquid.value.height == first + |r.stored|)
  }

  /** What the node guarantees: new ids are new, a block goes on top of its chain, and a rollback names the block that is at
    * the given height, which is not below what is stored.
    */
  ghost predicate Allowed(parent: Id -> Id, first: Height, r: Repository, call: Call) {
    var chain := ChainOf(r.settled, r.liquid);
    match call
    case ProcessBlock(id, reference) =>
      id !in chain && parent(id) == reference && (r.liquid.None? ==> chain != [] && reference == Tip(chain))
    case ProcessMicroBlock(id, reference) => id !in chain && parent(id) == reference
    case Rollback(toBlockId, toHeight) =>
      var k := Kept(first, r.stored, toHeight);
      first <= toHeight + 1 && (k < |r.stored| ==> r.stored[k].reference == toBlockId)
    case RollbackMicro(_) => true
  }

  /** What a call hands to the handlers; none if it fails. */
  function Report(first: Height, r: Repository, call: Call): Option<Step> {
    match call
    case ProcessBlock(id, reference) =>
      if r.liquid.Some? && TotalId(r.liquid.value) != reference then None else Some(Update(BlockAppended(id, reference)))
    case ProcessMicroBlock(id, reference) =>
      if r.liquid.None? || TotalId(r.liquid.value) != reference then None else Some(Update(MicroBlockAppended(id, reference)))
    case Rollback(toBlockId, toHeight) =>
      if r.liquid.Some? && r.liquid.value.height <= toHeight then None
      else if r.liquid.Some? && r.liquid.value.height == toHeight + 1 && r.liquid.value.reference != toBlockId then None
      else
        var removed := r.stored[Kept(first, r.stored, toHeight)..];
        Some(Step.RollbackBlock(MicroReverts(LiquidMicros(r.liquid)), BlockReverts(r.liquid, removed)))
    case RollbackMicro(toBlockId) =>
      if r.liquid.None? || KeepFor(r.liquid.value, toBlockId).None? || TotalId(r.liquid.value) == toBlockId then None
      else Some(Step.RollbackMicroBlock(MicroBlockRollbackCompleted(toBlockId)))
  }

  function EventsOf(report: Option<Step>): seq<Event> { if report.Some? then Reported(report.value) else [] }

  ghost function After(first: Height, r: Repository, call: Call): Repository {
    if Report(first, r, call).None? then r
    else
      var chain := ChainOf(r.settled, r.liquid);
      match call
      case ProcessBlock(id, reference) =>
        var stored := if r.liquid.Some? then r.stored + [Solidified(r.liquid.value)] else r.stored;
        Repository(Some(Liquid(first + |stored|, id, reference, [])), stored, chain)
      case ProcessMicroBlock(id, reference) => r.(liquid := Some(r.liquid.value.(micros := r.liquid.value.micros + [id])))
      case Rollback(toBlockId, toHeight) =>
        var k := Kept(first, r.stored, toHeight);
        var reverts := r.liquid.Some? || k < |r.stored|;
        Repository(None, r.stored[..k], if reverts && toBlockId in chain then Upto(chain, toBlockId) else chain)
      case RollbackMicro(toBlockId) =>
        var l := r.liquid.value;
        r.(liquid := Some(l.(micros := l.micros[..KeepFor(l, toBlockId).value])))
  }

  /** What every call keeps: the repository stays sound, and what is reported takes the node's chain from before the call to
    * after it; a rollback call reports rollbacks only.
    */
  ghost predicate Follows(parent: Id -> Id, first: Height, r: Repository, call: Call) {
    var events, after := EventsOf(Report(first, r, call)), After(first, r, call);
    && Sound(parent, first, after)
    && Moves(parent, ChainOf(r.settled, r.liquid), events, ChainOf(after.settled, after.liquid))
    && (call.Rollback? || call.RollbackMicro? ==> RollbacksOnly(events))
  }

  lemma StillMoves(parent: Id -> Id, chain: Chain)
    requires chain != []
    ensures Moves(parent, chain, [], chain)
  {
  }

  lemma BlockFollows(parent: Id -> Id, first: Height, r: Repository, call: Call)
    requires Sound(parent, first, r) && Allowed(parent, first, r, call) && call.ProcessBlock? && Report(first, r, call).Some?
    ensures Follows(parent, first, r, call)
  {
    var chain, id := ChainOf(r.settled, r.liquid), call.id;
    if r.liquid.Some? {
      SolidGrows(parent, r.settled, r.stored, r.liquid.value);
    }
    LinkedGrows(parent, chain, id);
    RunOne(chain, BlockAppended(id, call.reference));
    hide Linked, SolidOn, Run;
    assert ChainOf(chain, After(first, r, call).liquid) == chain + [id];
  }

  lemma MicroBlockFollows(parent: Id -> Id, first: Height, r: Repository, call: Call)
    requires Sound(parent, first, r) && Allowed(parent, first, r, call) && call.ProcessMicroBlock? && Report(first, r, call).Some?
    ensures Follows(parent, first, r, call)
  {
    var chain, id := ChainOf(r.settled, r.liquid), call.id;
    LinkedGrows(parent, chain, id);
    RunOne(chain, MicroBlockAppended(id, call.reference));
    hide Linked, SolidOn, Run;
    assert ChainOf(r.settled, After(first, r, call).liquid) == chain + [id];
  }

  lemma MicroRollbackFollows(parent: Id -> Id, first: Height, r: Repository, call: Call)
    requires Sound(parent, first, r) && call.RollbackMicro? && Report(first, r, call).Some?
    ensures Follows(parent, first, r, call)
  {
    var l := r.liquid.value;
    var k := KeepFor(l, call.toBlockId).value;
    LastOnly(parent, r.settled, l, k);
    MicroCut(parent, r.settled, l, k);
    hide Linked, SolidOn, Run;
    RunOne(ChainOf(r.settled, r.liquid), MicroBlockRollbackCompleted(call.toBlockId));
  }

  /** The block that is asked for is what the oldest reverted block references. */
  lemma AskedFor(parent: Id -> Id, first: Height, r: Repository, call: Call)
    requires Sound(parent, first, r) && Allowed(parent, first, r, call) && call.Rollback? && Report(first, r, call).Some?
    ensures var k := Kept(first, r.stored, call.toHeight);
            if k < |r.stored| then r.stored[k].reference == call.toBlockId
            else r.liquid.Some? ==> r.liquid.value.reference == call.toBlockId == Tip(r.settled)
  {
    hide Linked, SolidOn, MicroReverts, BlockReverts;
  }

  /** What a rollback reports. */
  lemma RollbackReports(first: Height, r: Repository, call: Call)
    requires call.Rollback? && Report(first, r, call).Some?
    ensures EventsOf(Report(first, r, call))
         == MicroReverts(LiquidMicros(r.liquid)) + BlockReverts(r.liquid, r.stored[Kept(first, r.stored, call.toHeight)..])
  {
    hide MicroReverts, BlockReverts, Kept;
  }

  /** What a rollback that succeeds leaves. */
  lemma RollbackLeaves(first: Height, r: Repository, call: Call)
    requires call.Rollback? && Report(first, r, call).Some?
    ensures var k, chain := Kept(first, r.stored, call.toHeight), ChainOf(r.settled, r.liquid);
            After(first, r, call) ==
              Repository(None, r.stored[..k],
                         if (r.liquid.Some? || k < |r.stored|) && call.toBlockId in chain then Upto(chain, call.toBlockId) else chain)
  {
    hide Report, Kept, Upto;
  }

  /** What a rollback reports leads to the chain up to the block it was asked for. */
  lemma RollbackSettles(parent: Id -> Id, first: Height, r: Repository, call: Call) returns (below: Chain)
    requires Sound(parent, first, r) && Allowed(parent, first, r, call) && call.Rollback? && Report(first, r, call).Some?
    ensures var k := Kept(first, r.stored, call.toHeight);
            && After(first, r, call) == Repository(None, r.stored[..k], below)
            && below != [] && Linked(parent, below) && SolidOn(below, r.stored[..k]) && below[0] == r.settled[0]
            && Run(ChainOf(r.settled, r.liquid), EventsOf(Report(first, r, call))) == Some(below)
            && (r.liquid.Some? || k < |r.stored| ==> Tip(below) == call.toBlockId)
  {
    hide Linked, SolidOn, MicroReverts, BlockReverts, Run, Upto, Kept, Report, After, EventsOf, Allowed;
    AskedFor(parent, first, r, call);
    RollbackReports(first, r, call);
    RollbackLeaves(first, r, call);
    below := RollbackRuns(parent, r.settled, r.liquid, r.stored, Kept(first, r.stored, call.toHeight));
  }

  lemma RollbackFollows(parent: Id -> Id, first: Height, r: Repository, call: Call)
    requires Sound(parent, first, r) && Allowed(parent, first, r, call) && call.Rollback? && Report(first, r, call).Some?
    ensures Follows(parent, first, r, call)
  {
    hide Linked, SolidOn, MicroReverts, BlockReverts, Run, RollbacksOnly, Consistent, After, Kept, Allowed, Report, EventsOf;
    var k := Kept(first, r.stored, call.toHeight);
    var below := RollbackSettles(parent, first, r, call);
    RollbackReports(first, r, call);
    RevertsOnly(r.liquid, r.stored[k..]);
    RollbacksConsistent(parent, EventsOf(Report(first, r, call)));
    assert ChainOf(r.settled, r.liquid)[0] == r.settled[0];
  }

  /** Every call the node may make. */
  lemma CallFollows(parent: Id -> Id, first: Height, r: Repository, call: Call)
    requires Sound(parent, first, r) && Allowed(parent, first, r, call)
    ensures Follows(parent, first, r, call)
  {
    if Report(first, r, call).None? {
      StillMoves(parent, ChainOf(r.settled, r.liquid));
      hide Moves;
    } else {
      match call
      case ProcessBlock(_, _) => BlockFollows(parent, first, r, call);
      case ProcessMicroBlock(_, _) => MicroBlockFollows(parent, first, r, call);
      case Rollback(_, _) => RollbackFollows(parent, first, r, call);
      case RollbackMicro(_) => MicroRollbackFollows(parent, first, r, call);
    }
  }

  /** A rollback that reverts a block ends at the block it was asked for. */
  lemma RollbackArrives(parent: Id -> Id, first: Height, r: Repository, call: Call)
    requires Sound(parent, first, r) && Allowed(parent, first, r, call) && call.Rollback? && Report(first, r, call).Some?
    requires r.liquid.Some? || Kept(first, r.stored, call.toHeight) < |r.stored|
    ensures After(first, r, call).settled != [] && Tip(After(first, r, call).settled) == call.toBlockId
  {
    var below := RollbackSettles(parent, first, r, call);
    hide After;
  }

  // ----- The repository

  /** Stored blocks at consecutive heights. */
  datatype Storage = Storage(first: Height, blocks: seq<Solid>) {
    predicate Has(h: Height) { first <= h < first + |blocks| }

    function Block(h: Height): Solid
      requires Has(h)
    {
      blocks[h - first]
    }

    /** How many are above a height. */
    function Above(toHeight: Height): nat { |blocks| - Kept(first, blocks, toHeight) }
  }

  /** As many keys as there are blocks above a height are deleted, from the next height on. */
  function Deleted(rows: Storage, toHeight: Height): Storage {
    if rows.first <= toHeight + 1 then rows.(blocks := rows.blocks[..Kept(rows.first, rows.blocks, toHeight)])
    else
      var gone := if toHeight + |rows.blocks| < rows.first then 0 else toHeight + |rows.blocks| + 1 - rows.first;
      Storage(rows.first + gone, rows.blocks[gone..])
  }

  /** All blocks but those at the deleted heights are left. They are the ones up to the height exactly if storage starts no
    * higher than right above it, or is empty; otherwise blocks that were reported as reverted stay.
    */
  lemma DeletedExactly(rows: Storage, toHeight: Height)
    ensures var left := Deleted(rows, toHeight);
            && (forall h: Height :: left.Has(h) <==> rows.Has(h) && !(toHeight < h <= toHeight + rows.Above(toHeight)))
            && (forall h: Height :: left.Has(h) ==> left.Block(h) == rows.Block(h))
            && ((forall h: Height :: left.Has(h) <==> rows.Has(h) && h <= toHeight) <==> rows.first <= toHeight + 1 || rows.blocks == [])
  {
    var left := Deleted(rows, toHeight);
    if rows.first > toHeight + 1 && rows.blocks != [] {
      assert left.Has(left.first) && left.first > toHeight;
    }
  }

  class Repo {
    const parent: Id -> Id       // what hashing makes an id's parent
    var first: Height            // the height updates are stored from, without a gap
    var liquidState: Option<Liquid>
    var stored: seq<Solid>       // by height
    ghost var settled: Chain     // the node's chain below the liquid block

    ghost function View(): Repository
      reads this
    {
      Repository(liquidState, stored, settled)
    }

    ghost function Chain(): Chain
      reads this
    {
      ChainOf(settled, liquidState)
    }

    ghost predicate Valid()
      reads this
    {
      Sound(parent, first, View())
    }

    constructor (parent: Id -> Id, first: Height, base: Chain)
      requires Linked(parent, base)
      ensures Valid() && Chain() == base && liquidState == None && stored == []
      ensures this.parent == parent && this.first == first
    {
      this.parent, this.first := parent, first;
      liquidState, stored, settled := None, [], base;
    }

    /** A new block, which the node puts on top of its chain. */
    method OnProcessBlock(id: Id, reference: Id, height: Height) returns (event: Option<Event>)
      requires Valid() && Allowed(parent, first, View(), ProcessBlock(id, reference))
      requires height == first + |stored| + if liquidState.Some? then 1 else 0
      modifies this`liquidState, this`stored, this`settled
      ensures View() == After(first, old(View()), ProcessBlock(id, reference))
      ensures event.None? <==> old(liquidState.Some? && TotalId(liquidState.value) != reference)
      ensures event.Some? ==> event.value == BlockAppended(id, reference)
      ensures Valid() && Moves(parent, old(Chain()), if event.Some? then [event.value] else [], Chain())
    {
      ghost var call := ProcessBlock(id, reference);
      ghost var after, events := After(first, View(), call), EventsOf(Report(first, View(), call));
      assert Sound(parent, first, after) && Moves(parent, Chain(), events, ChainOf(after.settled, after.liquid)) by {
        CallFollows(parent, first, View(), call);
      }
      hide Sound, Moves;
      if liquidState.Some? && TotalId(liquidState.value) != reference {
        return None;
      }
      settled := Chain();
      if liquidState.Some? {
        stored := stored + [Solidified(liquidState.value)];
      }
      liquidState := Some(Liquid(height, id, reference, []));
      event := Some(BlockAppended(id, reference));
    }

    method OnProcessMicroBlock(id: Id, reference: Id) returns (event: Option<Event>)
      requires Valid() && Allowed(parent, first, View(), ProcessMicroBlock(id, reference))
      modifies this`liquidState
      ensures View() == After(first, old(View()), ProcessMicroBlock(id, reference))
      ensures event.None? <==> old(liquidState.None? || TotalId(liquidState.value) != reference)
      ensures event.Some? ==> event.value == MicroBlockAppended(id, reference)
      ensures Valid() && Moves(parent, old(Chain()), if event.Some? then [event.value] else [], Chain())
    {
      CallFollows(parent, first, View(), ProcessMicroBlock(id, reference));
      hide Sound, Moves;
      if liquidState.None? || TotalId(liquidState.value) != reference {
        return None;
      }
      var l := liquidState.value;
      liquidState := Some(l.(micros := l.micros + [id]));
      event := Some(MicroBlockAppended(id, reference));
    }

    /** Cutting the liquid block back to one of its own ids; to its last one is an error, as is any other id. */
    method OnMicroBlockRollback(toBlockId: Id) returns (event: Option<Event>)
      requires Valid()
      modifies this`liquidState
      ensures View() == After(first, old(View()), RollbackMicro(toBlockId))
      ensures event.None? <==> old(liquidState.None? || TotalId(liquidState.value) == toBlockId
                                   || toBlockId !in [liquidState.value.id] + liquidState.value.micros)
      ensures event.Some? ==> event.value == MicroBlockRollbackCompleted(toBlockId)
      ensures Valid() && Moves(parent, old(Chain()), if event.Some? then [event.value] else [], Chain())
    {
      CallFollows(parent, first, View(), RollbackMicro(toBlockId));
      if liquidState.None? {
        hide Sound, Moves;
        return None;
      }
      var l := liquidState.value;
      var keep := FindId(l, toBlockId);
      if keep.Some? {
        LastOnly(parent, settled, l, keep.value);
      }
      hide Sound, Moves;
      if keep.None? || keep.value == |l.micros| {
        return None;
      }
      liquidState := Some(l.(micros := l.micros[..keep.value]));
      event := Some(MicroBlockRollbackCompleted(toBlockId));
    }

    /** Takes the stored blocks above a height, the last first, and deletes as many keys from that height on. */
    method RollbackData(toHeight: Height) returns (removed: seq<Solid>)
      modifies this`stored, this`first
      ensures RevertsOf(removed) == SolidReverts(old(stored[Kept(first, stored, toHeight)..]))
      ensures Storage(first, stored) == old(Deleted(Storage(first, stored), toHeight))
      ensures old(first <= toHeight + 1) ==> first == old(first) && stored == old(stored[..Kept(first, stored, toHeight)])
    {
      removed := [];
      var k := Kept(first, stored, toHeight);
      for i := k to |stored|
        invariant RevertsOf(removed) == SolidReverts(stored[k..i]) && |removed| == i - k
      {
        assert stored[k..i + 1][..i - k] == stored[k..i] && stored[k..i + 1][i - k] == stored[i];
        assert ([stored[i]] + removed)[1..] == removed;
        removed := [stored[i]] + removed;
      }
      assert stored[k..|stored|] == stored[k..];
      hide RevertsOf, SolidReverts;
      if first <= toHeight + 1 {
        stored := stored[..k];
      } else {
        var gone := if toHeight + |removed| < first then 0 else toHeight + |removed| + 1 - first;
        stored, first := stored[gone..], first + gone;
      }
    }

    /** Back to the block `toBlockId` at `toHeight`. */
    method OnRollback(toBlockId: Id, toHeight: Height) returns (reverted: Option<Step>)
      requires Valid() && Allowed(parent, first, View(), Rollback(toBlockId, toHeight))
      modifies this`liquidState, this`stored, this`first, this`settled
      ensures View() == After(first, old(View()), Rollback(toBlockId, toHeight)) && first == old(first)
      ensures reverted == Report(first, old(View()), Rollback(toBlockId, toHeight))
      ensures reverted.None? <==> old(liquidState.Some? && (liquidState.value.height <= toHeight ||
                                      (liquidState.value.height == toHeight + 1 && liquidState.value.reference != toBlockId)))
      ensures Valid() && Moves(parent, old(Chain()), EventsOf(reverted), Chain()) && RollbacksOnly(EventsOf(reverted))
      ensures reverted.Some? && reverted.value.blocks != [] ==> Tip(Chain()) == toBlockId
    {
      ghost var call := Rollback(toBlockId, toHeight);
      CallFollows(parent, first, View(), call);
      ghost var k, after := Kept(first, stored, toHeight), After(first, View(), call);
      if Report(first, View(), call).Some? && (liquidState.Some? || k < |stored|) {
        RollbackArrives(parent, first, View(), call);
      }
      hide Sound, Moves, RollbacksOnly, Run, MicroReverts, SolidReverts;
      if liquidState.Some? && liquidState.value.height <= toHeight {
        return None;
      }
      if liquidState.Some? && liquidState.value.height == toHeight + 1 && liquidState.value.reference != toBlockId {
        return None;
      }
      var key := liquidState;
      var removed := RollbackData(toHeight);
      hide RevertsOf;
      var blocks := (if key.Some? then [RollbackCompleted(key.value.reference)] else []) + RevertsOf(removed);
      liquidState := None;
      settled := after.settled;
      reverted := Some(Step.RollbackBlock(MicroReverts(LiquidMicros(key)), blocks));
    }
  }

  method FindId(l: Liquid, id: Id) returns (keep: Option<nat>)
    ensures keep == KeepFor(l, id)
  {
    if l.id == id {
      return Some(0);
    }
    var k: nat := |l.micros|;
    assert l.micros[..k] == l.micros;
    while k > 0
      invariant k <= |l.micros| && LastAt(l.micros[..k], id) == LastAt(l.micros, id)
    {
      if l.micros[k - 1] == id {
        return Some(k);
      }
      assert l.micros[..k][..k - 1] == l.micros[..k - 1];
      k := k - 1;
    }
    keep := None;
  }

  /** Storing the liquid block when the next one arrives. */
  lemma SolidGrows(parent: Id -> Id, settled: Chain, stored: seq<Solid>, l: Liquid)
    requires settled != [] && SolidOn(settled, stored) && Tip(settled) == l.reference
    ensures SolidOn(settled + [l.id] + l.micros, stored + [Solidified(l)])
  {
    var chain, longer := settled + [l.id] + l.micros, stored + [Solidified(l)];
    assert chain[..|settled|] == settled && chain[|settled|..] == [l.id] + l.micros;
    assert longer[..|stored|] == stored && longer[|stored|] == Solidified(l);
  }

  lemma MicroCut(parent: Id -> Id, settled: Chain, l: Liquid, keep: nat)
    requires settled != [] && Linked(parent, settled + [l.id] + l.micros) && keep <= |l.micros|
    ensures var chain, cut := settled + [l.id] + l.micros, settled + [l.id] + l.micros[..keep];
            Tip(cut) in chain && Upto(chain, Tip(cut)) == cut && Linked(parent, cut)
    ensures Linked(parent, settled)
  {
    var chain, cut := settled + [l.id] + l.micros, settled + [l.id] + l.micros[..keep];
    assert chain[..|cut|] == cut && chain[|cut| - 1] == Tip(cut);
    CutAt(parent, chain, |cut|);
    assert chain[..|settled|] == settled;
    CutAt(parent, chain, |settled|);
  }

  lemma KeyRevert(parent: Id -> Id, settled: Chain, l: Liquid, keep: nat)
    requires settled != [] && Linked(parent, settled + [l.id] + l.micros) && Tip(settled) == l.reference && keep <= |l.micros|
    ensures Apply(settled + [l.id] + l.micros[..keep], RollbackCompleted(l.reference)) == Some(settled)
  {
    var cut := settled + [l.id] + l.micros[..keep];
    MicroCut(parent, settled, l, keep);
    assert cut[..|settled|] == settled && cut[|settled| - 1] == l.reference;
    CutAt(parent, cut, |settled|);
    hide Linked;
  }

  /** Reverting the liquid block takes the chain back to what it was put on. */
  lemma LiquidRevertsRun(parent: Id -> Id, settled: Chain, l: Liquid)
    requires settled != [] && Linked(parent, settled + [l.id] + l.micros) && Tip(settled) == l.reference
    ensures Run(settled + [l.id] + l.micros, MicroReverts(l.micros) + [RollbackCompleted(l.reference)]) == Some(settled)
  {
    var chain, keep := settled + [l.id] + l.micros, if l.micros == [] then 0 else 1;
    assert chain + [] == chain;
    MicroRevertsRun(parent, settled + [l.id], l.micros, []);
    KeyRevert(parent, settled, l, keep);
    hide Linked, Apply, MicroReverts;
    assert l.micros == [] ==> chain == settled + [l.id] + l.micros[..keep];
    RunSnoc(chain, MicroReverts(l.micros), RollbackCompleted(l.reference));
    hide Run;
  }

  /** The block part of a rollback, the liquid block first. */
  function BlockReverts(liquid: Option<Liquid>, stored: seq<Solid>): seq<Event> {
    (if liquid.Some? then [RollbackCompleted(liquid.value.reference)] else []) + SolidReverts(stored)
  }

  function LiquidMicros(liquid: Option<Liquid>): seq<Id> { if liquid.Some? then liquid.value.micros else [] }

  lemma RollbackRuns(parent: Id -> Id, settled: Chain, liquid: Option<Liquid>, stored: seq<Solid>, k: nat) returns (below: Chain)
    requires settled != [] && Linked(parent, ChainOf(settled, liquid)) && SolidOn(settled, stored) && k <= |stored|
    requires liquid.Some? ==> Tip(settled) == liquid.value.reference
    ensures below != [] && Linked(parent, below) && SolidOn(below, stored[..k]) && below[0] == settled[0]
    ensures Tip(below) in ChainOf(settled, liquid) && Upto(ChainOf(settled, liquid), Tip(below)) == below
    ensures Run(ChainOf(settled, liquid), MicroReverts(LiquidMicros(liquid)) + BlockReverts(liquid, stored[k..])) == Some(below)
    ensures if k == |stored| then below == settled else Tip(below) == stored[k].reference
  {
    if liquid.Some? {
      MicroCut(parent, settled, liquid.value, 0);
    }
    var j := SolidRevertsRun(parent, settled, stored, k);
    below := settled[..j];
    AllRevertsRun(parent, settled, liquid, SolidReverts(stored[k..]));
    hide SolidOn, Run, MicroReverts, SolidReverts;
    assert ChainOf(settled, liquid)[..j] == below;
    CutAt(parent, ChainOf(settled, liquid), j);
  }

  lemma AllRevertsRun(parent: Id -> Id, settled: Chain, liquid: Option<Liquid>, solids: seq<Event>)
    requires settled != [] && Linked(parent, ChainOf(settled, liquid))
    requires liquid.Some? ==> Tip(settled) == liquid.value.reference
    ensures Run(ChainOf(settled, liquid),
                MicroReverts(LiquidMicros(liquid)) + ((if liquid.Some? then [RollbackCompleted(liquid.value.reference)] else []) + solids))
         == Run(settled, solids)
  {
    if liquid.Some? {
      var l := liquid.value;
      var micros, e := MicroReverts(l.micros), RollbackCompleted(l.reference);
      LiquidRevertsRun(parent, settled, l);
      hide Linked, MicroReverts;
      RunConcat(ChainOf(settled, liquid), micros + [e], solids);
      hide Run;
      assert micros + ([e] + solids) == micros + [e] + solids;
    } else {
      assert MicroReverts([]) + ([] + solids) == solids;
    }
  }

  /** A call's events may follow a log that has led to the chain before it. */
  lemma FeedAdmissible(parent: Id -> Id, base: Chain, log: seq<Event>, events: seq<Event>, before: Chain, after: Chain)
    requires Consistent(parent, log) && Run(base, log) == Some(before) && Moves(parent, before, events, after)
    ensures MayFollow(parent, base, log, events) && Run(base, log + events) == Some(after)
  {
    RunConcat(base, log, events);
  }

  /** A handler created now, for a subscriber that has what is stored, starts with events that lead to the node's chain. */
  lemma LiquidAdmissible(parent: Id -> Id, settled: Chain, l: Liquid)
    requires settled != [] && Linked(parent, settled + [l.id] + l.micros) && Tip(settled) == l.reference
    ensures MayFollow(parent, settled, [], LiquidEvents(l)) && Run(settled, LiquidEvents(l)) == Some(settled + [l.id] + l.micros)
  {
    var e, key := BlockAppended(l.id, l.reference), settled + [l.id];
    assert settled + ([l.id] + l.micros) == key + l.micros;
    NextLinked(parent, settled, [l.id] + l.micros);
    MicroEventsRun(parent, key, l.id, l.micros);
    RunOne(settled, e);
    RunConcat(settled, [e], MicroEvents(l.id, l.micros));
    assert [] + LiquidEvents(l) == LiquidEvents(l);
    hide Linked, Run;
  }
}
