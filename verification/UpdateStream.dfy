/** The repository, a subscriber's handler and its loader together, and the stream the subscriber gets: stored rows, then live
  * events.
  */
module UpdateStream {
  import opened Wrappers
  import opened Periods
  import opened ChainEvents
  import opened Compaction
  import opened EventHandler
  import opened UpdateFeed
  import UpdateLoader

  // ----- Reading stored rows

  datatype Progress = Reading | Done | Failed

  /** A subscriber's loader: the next height to read, where to stop, and the rows read so far. */
  datatype Loading = Loading(from: Height, target: Option<UpdateLoader.Target>, rows: seq<Solid>, progress: Progress)

  function Rows(first: Height, stored: seq<Solid>): (rows: seq<UpdateLoader.Row>)
    ensures |rows| == |stored|
  {
    seq(|stored|, i requires 0 <= i < |stored| => UpdateLoader.Row(first + i, stored[i].Total()))
  }

  /** How many stored rows are below a height. */
  function Under(first: Height, stored: seq<Solid>, height: Height): (k: nat)
    ensures k <= |stored|
  {
    if height <= first then 0 else if height - first <= |stored| then height - first else |stored|
  }

  lemma SeekRows(first: Height, stored: seq<Solid>, from: Height)
    ensures UpdateLoader.Seek(Rows(first, stored), from) == Rows(first, stored)[Under(first, stored, from)..]
  {
    UpdateLoader.SeekPast(Rows(first, stored), from, Under(first, stored, from));
  }

  /** One batch: what is stored now, from the next height on. */
  function Loaded(first: Height, batch: nat, stored: seq<Solid>, l: Loading): Loading {
    match UpdateLoader.Batch(Rows(first, stored), l.from, l.target, batch)
    case None => l.(progress := Failed)
    case Some(updates) =>
      if updates == [] then l.(progress := Done)
      else
        SeekRows(first, stored, l.from);
        l.(from := l.from + |updates|, rows := l.rows + stored[Under(first, stored, l.from)..][..|updates|])
  }

  // ----- The node, its repository, a loader and a handler

  datatype Setup = Setup(parent: Id -> Id, first: Height, maxQueueSize: nat, batch: nat)

  datatype System = System(repo: Repository, handler: State, loading: Loading)

  /** A call of the node, a batch read by the loader, or a step of the handler's own threads or of the subscriber. */
  datatype Action = Node(call: Call) | Load | Own(step: Step)

  predicate FromNode(step: Step) { step.Update? || step.RollbackMicroBlock? || step.RollbackBlock? }

  ghost function NodeChain(r: Repository): Chain { ChainOf(r.settled, r.liquid) }

  /** What a new handler buffers. */
  function Liquids(r: Repository): seq<Event> { if r.liquid.Some? then LiquidEvents(r.liquid.value) else [] }

  /** What a new loader stops at. */
  function TargetOf(r: Repository): Option<UpdateLoader.Target> {
    if r.liquid.Some? then Some(UpdateLoader.Target(r.liquid.value.height - 1, r.liquid.value.reference)) else None
  }

  /** A subscription from any height the chain has. */
  ghost predicate Starts(x: Setup, s: System) {
    && Sound(x.parent, x.first, s.repo) && s.handler == Init(Liquids(s.repo))
    && s.loading.from <= x.first + |s.repo.stored| && s.loading == Loading(s.loading.from, TargetOf(s.repo), [], Reading)
  }

  /** A call that fails reports nothing; any other is handed to the handler in the same step, under the monitor. The subject is
    * subscribed to when the loader has come to its end.
    */
  ghost predicate Leads(x: Setup, s: System, action: Action, t: System) {
    match action
    case Node(call) =>
      && Allowed(x.parent, x.first, s.repo, call)
      && t == s.(repo := After(x.first, s.repo, call), handler := Handled(x.maxQueueSize, s.handler, Report(x.first, s.repo, call)))
    case Load =>
      s.loading.progress.Reading? && t == s.(loading := Loaded(x.first, x.batch, s.repo.stored, s.loading))
    case Own(step) =>
      && !FromNode(step) && Enabled(s.handler, step) && (step.Subscribe? ==> s.loading.progress.Done?)
      && t == s.(handler := Next(x.maxQueueSize, s.handler, step))
  }

  function Handled(maxQueueSize: nat, s: State, report: Option<Step>): State {
    if report.Some? && Enabled(s, report.value) then Next(maxQueueSize, s, report.value) else s
  }

  ghost predicate IsHistory(x: Setup, actions: seq<Action>, systems: seq<System>) {
    && |systems| == |actions| + 1 && Starts(x, systems[0])
    && forall i :: 0 <= i < |actions| ==> LeadsAt(x, actions, systems, i)
  }

  ghost predicate LeadsAt(x: Setup, actions: seq<Action>, systems: seq<System>, i: nat)
    requires i < |actions| < |systems|
  {
    Leads(x, systems[i], actions[i], systems[i + 1])
  }

  lemma RunGrows(parent: Id -> Id, base: Chain, maxQueueSize: nat, liquid: seq<Event>, steps: seq<Step>, states: seq<State>, step: Step)
    requires IsRun(parent, base, maxQueueSize, liquid, steps, states)
    requires Admissible(parent, base, states[|steps|], step)
    ensures IsRun(parent, base, maxQueueSize, liquid, steps + [step], states + [Next(maxQueueSize, states[|steps|], step)])
  {
    AdmissibleEnabled(parent, base, states[|steps|], step);
    hide Admissible, Next, Linked, MayFollow;
    var more, after := steps + [step], states + [Next(maxQueueSize, states[|steps|], step)];
    forall i | 0 <= i < |more| ensures StepAt(parent, base, maxQueueSize, more, after, i) {
      if i < |steps| {
        assert StepAt(parent, base, maxQueueSize, steps, states, i);
        assert more[i] == steps[i] && after[i] == states[i] && after[i + 1] == states[i + 1];
      }
    }
  }

  lemma AdmissibleEnabled(parent: Id -> Id, base: Chain, s: State, step: Step)
    requires Admissible(parent, base, s, step)
    ensures Enabled(s, step)
  {
  }

  /** What a successful call reports fits the handler's log. */
  lemma ReportAdmissible(parent: Id -> Id, first: Height, base: Chain, s: System, call: Call)
    requires Sound(parent, first, s.repo) && Allowed(parent, first, s.repo, call) && Report(first, s.repo, call).Some?
    requires Consistent(parent, s.handler.log) && Run(base, s.handler.log) == Some(NodeChain(s.repo))
    ensures var step := Report(first, s.repo, call).value;
            FromNode(step) && Enabled(s.handler, step) && Admissible(parent, base, s.handler, step)
    ensures Sound(parent, first, After(first, s.repo, call))
    ensures Run(base, s.handler.log + EventsOf(Report(first, s.repo, call))) == Some(NodeChain(After(first, s.repo, call)))
  {
    CallFollows(parent, first, s.repo, call);
    var step := Report(first, s.repo, call).value;
    FeedAdmissible(parent, base, s.handler.log, Reported(step), NodeChain(s.repo), NodeChain(After(first, s.repo, call)));
    hide Sound, Moves, MayFollow, Run, Consistent, After;
  }

  lemma NextLogs(maxQueueSize: nat, s: State, step: Step)
    requires Enabled(s, step)
    ensures Next(maxQueueSize, s, step).log == s.log + Reported(step)
  {
    if step.RollbackBlock? {
      assert s.log + (step.micros + step.blocks) == s.log + step.micros + step.blocks;
    }
  }

  lemma OwnAdmissible(parent: Id -> Id, base: Chain, s: State, step: Step)
    requires !FromNode(step) && Enabled(s, step) && Consistent(parent, s.log) && Run(base, s.log).Some?
    ensures Admissible(parent, base, s, step) && Reported(step) == []
  {
    assert s.log + [] == s.log;
  }

  lemma StartRuns(x: Setup, s: System)
    requires Starts(x, s)
    ensures IsRun(x.parent, s.repo.settled, x.maxQueueSize, Liquids(s.repo), [], [s.handler])
    ensures Run(s.repo.settled, s.handler.log) == Some(NodeChain(s.repo))
  {
    if s.repo.liquid.Some? {
      MicroCut(x.parent, s.repo.settled, s.repo.liquid.value, 0);
      LiquidAdmissible(x.parent, s.repo.settled, s.repo.liquid.value);
      hide Linked, Run, Consistent, SolidOn, LiquidEvents;
    } else {
      assert [] + Liquids(s.repo) == [];
    }
  }

  /** The handler's step in an action, if it takes one. */
  lemma StepOf(x: Setup, base: Chain, s: System, action: Action, t: System) returns (step: Option<Step>)
    requires Sound(x.parent, x.first, s.repo) && Leads(x, s, action, t)
    requires Consistent(x.parent, s.handler.log) && Run(base, s.handler.log) == Some(NodeChain(s.repo))
    ensures Sound(x.parent, x.first, t.repo) && Run(base, t.handler.log) == Some(NodeChain(t.repo))
    ensures step.None? ==> t.handler == s.handler
    ensures step.Some? ==>
              && Enabled(s.handler, step.value) && Admissible(x.parent, base, s.handler, step.value)
              && t.handler == Next(x.maxQueueSize, s.handler, step.value)
  {
    match action
    case Node(call) =>
      step := Report(x.first, s.repo, call);
      if step.Some? {
        hide After, Sound, Allowed, Run, Consistent, Admissible, Next;
        ReportAdmissible(x.parent, x.first, base, s, call);
        NextLogs(x.maxQueueSize, s.handler, step.value);
      }
    case Load =>
      step := None;
    case Own(own) =>
      step := Some(own);
      OwnAdmissible(x.parent, base, s.handler, own);
      NextLogs(x.maxQueueSize, s.handler, own);
      hide Sound, Run, Consistent, Admissible, Next;
      assert s.handler.log + [] == s.handler.log;
  }

  lemma IsRunLength(parent: Id -> Id, base: Chain, maxQueueSize: nat, liquid: seq<Event>, steps: seq<Step>, states: seq<State>)
    requires IsRun(parent, base, maxQueueSize, liquid, steps, states)
    ensures |states| == |steps| + 1
  {
  }

  /** However the node's calls, the loader's reads and the handler's own steps interleave, the handler goes through one of its
    * runs, and its log leads to the node's chain.
    */
  lemma {:induction false} HistoryIsRun(x: Setup, actions: seq<Action>, systems: seq<System>, i: nat)
    returns (steps: seq<Step>, states: seq<State>)
    requires IsHistory(x, actions, systems) && i < |systems|
    ensures var base := systems[0].repo.settled;
            && IsRun(x.parent, base, x.maxQueueSize, Liquids(systems[0].repo), steps, states)
            && states[|steps|] == systems[i].handler && Sound(x.parent, x.first, systems[i].repo)
            && Run(base, systems[i].handler.log) == Some(NodeChain(systems[i].repo))
    decreases i
  {
    var base, liquid := systems[0].repo.settled, Liquids(systems[0].repo);
    if i == 0 {
      StartRuns(x, systems[0]);
      steps, states := [], [systems[0].handler];
    } else {
      steps, states := HistoryIsRun(x, actions, systems, i - 1);
      assert LeadsAt(x, actions, systems, i - 1);
      hide IsHistory;
      var s, t := systems[i - 1], systems[i];
      RunInv(x.parent, base, x.maxQueueSize, liquid, steps, states, |steps|);
      assert Consistent(x.parent, s.handler.log);
      var step: Option<Step> := StepOf(x, base, s, actions[i - 1], t);
      hide Leads, LeadsAt, Sound, Run, IsRun, Admissible, Consistent, Next, Inv;
      if step.Some? {
        RunGrows(x.parent, base, x.maxQueueSize, liquid, steps, states, step.value);
        IsRunLength(x.parent, base, x.maxQueueSize, liquid, steps, states);
        steps, states := steps + [step.value], states + [Next(x.maxQueueSize, s.handler, step.value)];
      }
    }
  }

  /** In every state of every history, until the subject is completed, what the subscriber received from the handler followed
    * by the buffer leads from the chain stored when it joined to the node's chain.
    */
  lemma SubscriberFollowsNode(x: Setup, actions: seq<Action>, systems: seq<System>, i: nat)
    requires IsHistory(x, actions, systems) && i < |systems| && !systems[i].handler.completed
    ensures Run(systems[0].repo.settled, systems[i].handler.delivered + systems[i].handler.queue) == Some(NodeChain(systems[i].repo))
  {
    var base := systems[0].repo.settled;
    var steps, states := HistoryIsRun(x, actions, systems, i);
    IsRunLength(x.parent, base, x.maxQueueSize, Liquids(systems[0].repo), steps, states);
    hide IsHistory, IsRun, Run;
    CompactionInvisible(x.parent, base, x.maxQueueSize, Liquids(systems[0].repo), steps, states, |steps|);
  }

  // ----- Live events on another chain

  /** Live events that fit one chain fit another over the same genesis exactly if there are none, the chains are the same, or
    * the first event rolls back to an id on the other chain; and then both end up on the same chain.
    */
  lemma HandoverExactly(parent: Id -> Id, base: Chain, other: Chain, events: seq<Event>)
    requires Linked(parent, base) && Linked(parent, other) && base[0] == other[0] && Run(base, events).Some?
    ensures Run(other, events).Some? <==>
            Tip(other) == Tip(base) || events == [] || (!events[0].IsAppend() && events[0].id in other)
    ensures Run(other, events).Some? && (events != [] || Tip(other) == Tip(base)) ==> Run(other, events) == Run(base, events)
  {
    if Tip(other) == Tip(base) {
      TipFixesChain(parent, other, base);
    } else if events != [] {
      var e, rest := events[0], events[1..];
      assert events == [e] + rest;
      RunConcat(base, [e], rest);
      RunConcat(other, [e], rest);
      RunOne(base, e);
      RunOne(other, e);
      if !e.IsAppend() && e.id in other {
        SameCut(parent, base, other, e.id);
      }
      hide Linked, Run;
    }
  }

  lemma SameCut(parent: Id -> Id, one: Chain, two: Chain, id: Id)
    requires Linked(parent, one) && Linked(parent, two) && one[0] == two[0] && id in one && id in two
    ensures Upto(one, id) == Upto(two, id)
  {
    var j := UptoPrefix(parent, one, id);
    var k := UptoPrefix(parent, two, id);
    TipFixesChain(parent, one[..j], two[..k]);
  }

  /** Compaction never removes a buffered block that nothing buffered precedes. */
  ghost predicate Heads(key: Event, queue: seq<Event>) { queue != [] && queue[0] == key }

  lemma MicroKeepsHead(key: Event, queue: seq<Event>, r: Event)
    requires key.BlockAppended? && Heads(key, queue)
    ensures Heads(key, RevertMicro(queue, r))
  {
    var keep := FirstKeep(queue, r, 0);
    if keep.Some? {
      var i :| 0 <= i < |queue| && Keep(queue[i], i, r) == keep && keep.value <= |queue|;
    }
  }

  lemma {:induction false} MicrosKeepHead(key: Event, queue: seq<Event>, rs: seq<Event>)
    requires key.BlockAppended? && Heads(key, queue)
    ensures Heads(key, RevertMicros(queue, rs))
    decreases |rs|
  {
    if rs != [] {
      MicrosKeepHead(key, queue, rs[..|rs| - 1]);
      MicroKeepsHead(key, RevertMicros(queue, rs[..|rs| - 1]), rs[|rs| - 1]);
    }
  }

  lemma {:induction false} BlocksKeepHead(key: Event, queue: seq<Event>, rs: seq<Event>)
    requires Heads(key, queue)
    ensures Heads(key, RevertBlocks(queue, rs))
    decreases |rs|
  {
    if rs != [] {
      BlocksKeepHead(key, queue, rs[..|rs| - 1]);
    }
  }

  /** The liquid block a handler starts with is the first thing it delivers. */
  ghost predicate KeyFirst(key: Event, s: State) {
    if s.delivered != [] then s.delivered[0] == key else s.completed || Heads(key, s.queue)
  }

  lemma StepKeyFirst(key: Event, maxQueueSize: nat, s: State, step: Step)
    requires key.BlockAppended? && KeyFirst(key, s) && Enabled(s, step)
    ensures KeyFirst(key, Next(maxQueueSize, s, step))
  {
    hide RevertMicro, RevertMicros, RevertBlocks;
    if s.delivered == [] && !s.completed {
      match step
      case RollbackMicroBlock(r) => MicroKeepsHead(key, s.queue, r);
      case RollbackBlock(micros, blocks) =>
        MicrosKeepHead(key, s.queue, micros);
        BlocksKeepHead(key, RevertMicros(s.queue, micros), blocks);
      case _ =>
    }
  }

  lemma {:induction false} RunKeyFirst(parent: Id -> Id, base: Chain, maxQueueSize: nat, liquid: seq<Event>,
                                       steps: seq<Step>, states: seq<State>, i: nat)
    requires IsRun(parent, base, maxQueueSize, liquid, steps, states) && i < |states|
    requires liquid != [] && liquid[0].BlockAppended?
    ensures KeyFirst(liquid[0], states[i])
    decreases i
  {
    if i > 0 {
      RunKeyFirst(parent, base, maxQueueSize, liquid, steps, states, i - 1);
      assert StepAt(parent, base, maxQueueSize, steps, states, i - 1);
      hide IsRun, Admissible, KeyFirst, Next;
      StepKeyFirst(liquid[0], maxQueueSize, states[i - 1], steps[i - 1]);
    }
  }

  // ----- Rows, one after the other

  function IdsOf(rows: seq<Solid>): seq<Id> {
    if rows == [] then [] else IdsOf(rows[..|rows| - 1]) + rows[|rows| - 1].Ids()
  }

  function RowsEvents(rows: seq<Solid>): seq<Event> {
    if rows == [] then [] else RowsEvents(rows[..|rows| - 1]) + BlockEvents(rows[|rows| - 1])
  }

  /** Each row goes on the one before it, the first on `tip`. */
  ghost predicate Chained(tip: Id, rows: seq<Solid>) {
    forall i :: 0 <= i < |rows| ==> rows[i].reference == EndOf(tip, rows[..i])
  }

  function EndOf(tip: Id, rows: seq<Solid>): Id { if rows == [] then tip else rows[|rows| - 1].Total() }

  /** A block that is on top of some chain over the genesis. */
  ghost predicate Placed(parent: Id -> Id, genesis: Id, b: Solid) {
    exists chain :: Linked(parent, chain) && chain[0] == genesis && Tops(chain, b)
  }

  /** A row fits exactly the chain it references. */
  lemma RowRun(parent: Id -> Id, c: Chain, b: Solid)
    requires Linked(parent, c) && Placed(parent, c[0], b)
    ensures Run(c, BlockEvents(b)) == if Tip(c) == b.reference then Some(c + b.Ids()) else None
    ensures Tip(c) == b.reference ==> Linked(parent, c + b.Ids())
  {
    if Tip(c) == b.reference {
      var l := Liquid(0, b.id, b.reference, b.micros);
      RowLinked(parent, c, b);
      assert c + b.Ids() == c + [l.id] + l.micros;
      LiquidAdmissible(parent, c, l);
    } else {
      RunOne(c, BlockAppended(b.id, b.reference));
      RunConcat(c, [BlockAppended(b.id, b.reference)], MicroEvents(b.id, b.micros));
    }
    hide Run, Linked, Placed;
  }

  lemma RowLinked(parent: Id -> Id, c: Chain, b: Solid)
    requires Linked(parent, c) && Placed(parent, c[0], b) && Tip(c) == b.reference
    ensures Linked(parent, c + b.Ids())
  {
    var chain :| Linked(parent, chain) && chain[0] == c[0] && Tops(chain, b);
    var k := |chain| - |b.Ids()|;
    CutAt(parent, chain, k);
    TipFixesChain(parent, c, chain[..k]);
    assert chain == chain[..k] + chain[k..];
  }

  /** What rows come to: where they lead, or that they do not fit. */
  ghost predicate Leading(parent: Id -> Id, c: Chain, rows: seq<Solid>) {
    var longer := c + IdsOf(rows);
    && c != [] && Run(c, RowsEvents(rows)) == (if Chained(Tip(c), rows) then Some(longer) else None)
    && (Chained(Tip(c), rows) ==> Linked(parent, longer) && longer[0] == c[0] && Tip(longer) == EndOf(Tip(c), rows))
  }

  lemma LeadingSnoc(parent: Id -> Id, c: Chain, rows: seq<Solid>, last: Solid)
    requires Leading(parent, c, rows) && c != [] && Placed(parent, c[0], last)
    ensures Leading(parent, c, rows + [last])
  {
    var longer, more := c + IdsOf(rows), rows + [last];
    assert more[..|rows|] == rows && more[|rows|] == last;
    assert RowsEvents(more) == RowsEvents(rows) + BlockEvents(last);
    IdsSnoc(rows, last);
    AppendAssoc(c, IdsOf(rows), last.Ids());
    ChainedSnoc(Tip(c), rows, last);
    RunConcat(c, RowsEvents(rows), BlockEvents(last));
    if Chained(Tip(c), rows) {
      RowRun(parent, longer, last);
      assert (longer + last.Ids())[|longer| + |last.micros|] == last.Total();
    }
    hide Run, Linked, Chained, BlockEvents, RowsEvents, IdsOf, Placed;
  }

  /** Rows fit exactly if each goes on the one before. */
  lemma {:induction false} RowsRun(parent: Id -> Id, c: Chain, rows: seq<Solid>)
    requires Linked(parent, c) && forall b :: b in rows ==> Placed(parent, c[0], b)
    ensures Leading(parent, c, rows)
    decreases |rows|
  {
    if rows == [] {
      assert c + IdsOf(rows) == c;
    } else {
      var n := |rows| - 1;
      RowsRun(parent, c, rows[..n]);
      hide Leading, Linked, Placed;
      LeadingSnoc(parent, c, rows[..n], rows[n]);
      assert rows == rows[..n] + [rows[n]];
    }
  }

  lemma ChainedSnoc(tip: Id, rows: seq<Solid>, last: Solid)
    ensures Chained(tip, rows + [last]) <==> Chained(tip, rows) && last.reference == EndOf(tip, rows)
  {
    var more := rows + [last];
    assert forall i :: 0 <= i <= |rows| ==> more[..i] == rows[..i];
    assert rows[..|rows|] == rows && more[|rows|] == last;
    assert forall i :: 0 <= i < |rows| ==> more[i] == rows[i];
  }

  // ----- What a loader has read

  /** Every stored block is on top of a part of the node's chain. */
  lemma {:induction false} StoredPlaced(parent: Id -> Id, chain: Chain, stored: seq<Solid>, i: nat)
    requires Linked(parent, chain) && SolidOn(chain, stored) && i < |stored|
    ensures Placed(parent, chain[0], stored[i])
    decreases |stored|
  {
    var n := |stored| - 1;
    if i < n {
      var cut := |chain| - |stored[n].Ids()|;
      CutAt(parent, chain, cut);
      hide Linked;
      StoredPlaced(parent, chain[..cut], stored[..n], i);
    }
  }

  /** What reading keeps: every row was stored over the same genesis, and a row at the target height is the target. */
  ghost predicate Read(x: Setup, genesis: Id, from: Height, l: Loading) {
    && l.from == from + |l.rows| && (forall b :: b in l.rows ==> Placed(x.parent, genesis, b))
    && (l.target.Some? && l.rows != [] && l.target.value.height == l.from - 1 ==>
          l.rows[|l.rows| - 1].Total() == l.target.value.id)
  }

  /** What a batch is, row by row. */
  lemma LoadedIs(first: Height, batch: nat, stored: seq<Solid>, l: Loading)
    requires l.progress.Reading?
    ensures var k := Under(first, stored, l.from);
            var n := UpdateLoader.Size(|stored| - k, l.from, l.target, batch);
            var misses := n > 0 && l.target.Some? && l.target.value.height == l.from + n - 1
                          && stored[k + n - 1].Total() != l.target.value.id;
            Loaded(first, batch, stored, l) ==
              if misses then l.(progress := Failed)
              else if n == 0 then l.(progress := Done)
              else l.(from := l.from + n, rows := l.rows + stored[k..][..n])
  {
    SeekRows(first, stored, l.from);
    var k := Under(first, stored, l.from);
    var cursor := UpdateLoader.Seek(Rows(first, stored), l.from);
    assert |cursor| == |stored| - k;
    var n := UpdateLoader.Size(|cursor|, l.from, l.target, batch);
    assert n > 0 ==> UpdateLoader.Numbered(cursor[..n], l.from)[n - 1].row.id == stored[k + n - 1].Total();
    hide UpdateLoader.Seek, Under, UpdateLoader.Size;
  }

  /** One batch more: rows that are stored now, the last of them compared with the target. */
  lemma LoadedRows(first: Height, batch: nat, stored: seq<Solid>, l: Loading) returns (more: seq<Solid>)
    requires l.progress.Reading?
    ensures var t := Loaded(first, batch, stored, l);
            t.rows == l.rows + more && t.from == l.from + |more| && t.target == l.target
    ensures forall b :: b in more ==> b in stored
    ensures more != [] && l.target.Some? && l.target.value.height == l.from + |more| - 1 ==>
              more[|more| - 1].Total() == l.target.value.id
  {
    LoadedIs(first, batch, stored, l);
    var k := Under(first, stored, l.from);
    var n := UpdateLoader.Size(|stored| - k, l.from, l.target, batch);
    more := if Loaded(first, batch, stored, l).progress.Failed? then [] else stored[k..][..n];
    hide Loaded, Under, UpdateLoader.Size;
  }

  lemma LoadRead(x: Setup, genesis: Id, from: Height, stored: seq<Solid>, l: Loading)
    requires Read(x, genesis, from, l) && l.progress.Reading? && forall b :: b in stored ==> Placed(x.parent, genesis, b)
    ensures Read(x, genesis, from, Loaded(x.first, x.batch, stored, l))
  {
    var more := LoadedRows(x.first, x.batch, stored, l);
    hide Loaded, Placed;
  }

  lemma SoundPlaced(x: Setup, base: Chain, log: seq<Event>, r: Repository)
    requires Sound(x.parent, x.first, r) && Linked(x.parent, base) && Consistent(x.parent, log) && Run(base, log) == Some(NodeChain(r))
    ensures Linked(x.parent, r.settled) && r.settled[0] == base[0]
    ensures forall b :: b in r.stored ==> Placed(x.parent, base[0], b)
  {
    RunLinked(x.parent, base, log);
    if r.liquid.Some? {
      MicroCut(x.parent, r.settled, r.liquid.value, 0);
    }
    hide Placed;
    forall i | 0 <= i < |r.stored| ensures Placed(x.parent, base[0], r.stored[i]) {
      StoredPlaced(x.parent, r.settled, r.stored, i);
    }
  }

  /** Nothing is sent before the loader is done. */
  ghost predicate Quiet(s: System) {
    s.loading.progress.Done? || (s.handler.subscription.Waiting? && s.handler.tasks == 0 && s.handler.delivered == [])
  }

  lemma HandledQuiet(maxQueueSize: nat, s: State, step: Step)
    requires Enabled(s, step) && s.subscription.Waiting? && s.tasks == 0 && s.delivered == [] && !step.Subscribe?
    ensures var t := Next(maxQueueSize, s, step); t.subscription.Waiting? && t.tasks == 0 && t.delivered == []
  {
  }

  lemma StepQuiet(x: Setup, s: System, action: Action, t: System)
    requires Quiet(s) && Leads(x, s, action, t)
    ensures Quiet(t)
  {
    hide Next, After, Report, Allowed, Loaded;
    if !s.loading.progress.Done? {
      match action
      case Node(call) =>
        var report := Report(x.first, s.repo, call);
        if report.Some? && Enabled(s.handler, report.value) {
          ReportNoSubscribe(x.first, s.repo, call);
          HandledQuiet(x.maxQueueSize, s.handler, report.value);
        }
      case Load =>
      case Own(step) => HandledQuiet(x.maxQueueSize, s.handler, step);
    }
  }

  lemma ReportNoSubscribe(first: Height, r: Repository, call: Call)
    ensures Report(first, r, call).Some? ==> !Report(first, r, call).value.Subscribe?
  {
  }

  /** In every state of every history. */
  lemma {:induction false} HistoryRead(x: Setup, actions: seq<Action>, systems: seq<System>, i: nat)
    requires IsHistory(x, actions, systems) && i < |systems|
    ensures var s := systems[0];
            && Read(x, s.repo.settled[0], s.loading.from, systems[i].loading) && systems[i].loading.target == TargetOf(s.repo)
            && Quiet(systems[i])
    decreases i
  {
    if i > 0 {
      HistoryRead(x, actions, systems, i - 1);
      assert LeadsAt(x, actions, systems, i - 1);
      var base, s, t := systems[0].repo.settled, systems[i - 1], systems[i];
      StepQuiet(x, s, actions[i - 1], t);
      if actions[i - 1].Load? {
        var steps, states := HistoryIsRun(x, actions, systems, i - 1);
        RunInv(x.parent, base, x.maxQueueSize, Liquids(systems[0].repo), steps, states, |steps|);
        assert Linked(x.parent, base) && Consistent(x.parent, s.handler.log);
        hide IsHistory, IsRun, Inv, Read, Quiet, Placed, Run, Linked, Consistent, Sound;
        SoundPlaced(x, base, s.handler.log, s.repo);
        LoadRead(x, base[0], systems[0].loading.from, s.repo.stored, s.loading);
      }
      hide IsHistory, Read, Quiet;
    }
  }

  // ----- Replayed rows, then live events

  /** A subscriber that holds the chain under the first row it asks for. */
  ghost predicate Holds(x: Setup, s: System, held: Chain) {
    s.repo.settled == held + IdsOf(Wanted(x, s))
  }

  lemma TopEnds(chain: Chain, b: Solid)
    requires Tops(chain, b)
    ensures var cut := |chain| - |b.Ids()|;
            chain == chain[..cut] + b.Ids() && Tip(chain[..cut]) == b.reference && Tip(chain) == b.Total()
  {
    assert chain[|chain| - |b.Ids()|..][|b.micros|] == Tip(chain);
  }

  /** Rows that go on one another from one chain to another. */
  ghost predicate Spells(held: Chain, rows: seq<Solid>, chain: Chain) {
    && held != [] && chain == held + IdsOf(rows)
    && Chained(Tip(held), rows) && EndOf(Tip(held), rows) == Tip(chain)
  }

  lemma SpellsSnoc(held: Chain, rows: seq<Solid>, chain: Chain, last: Solid)
    requires Tops(chain, last) && Spells(held, rows, chain[..|chain| - |last.Ids()|])
    ensures Spells(held, rows + [last], chain)
  {
    TopEnds(chain, last);
    ChainedSnoc(Tip(held), rows, last);
    IdsSnoc(rows, last);
    hide Chained, Tops, IdsOf, EndOf;
    AppendAssoc(held, IdsOf(rows), last.Ids());
    LastEnds(Tip(held), rows, last);
  }

  lemma IdsSnoc(rows: seq<Solid>, last: Solid)
    ensures IdsOf(rows + [last]) == IdsOf(rows) + last.Ids()
  {
    var more := rows + [last];
    assert more[..|rows|] == rows && more[|rows|] == last;
  }

  lemma LastEnds(tip: Id, rows: seq<Solid>, last: Solid)
    ensures EndOf(tip, rows + [last]) == last.Total()
  {
  }

  lemma AppendAssoc(a: seq<Id>, b: seq<Id>, c: seq<Id>)
    ensures a + b + c == a + (b + c)
  {
  }

  /** Stored blocks spell out the end of the chain they are on. */
  lemma {:induction false} StoredSpell(chain: Chain, stored: seq<Solid>, a: nat) returns (held: Chain)
    requires chain != [] && SolidOn(chain, stored) && a <= |stored|
    ensures held <= chain && Spells(held, stored[a..], chain)
    decreases |stored|
  {
    if a == |stored| {
      held := chain;
      assert stored[a..] == [] && chain + [] == chain;
    } else {
      var n := |stored| - 1;
      held := StoredSpell(chain[..|chain| - |stored[n].Ids()|], stored[..n], a);
      hide SolidOn, Spells;
      SpellsSnoc(held, stored[..n][a..], chain, stored[n]);
      TailSnoc(stored, a);
    }
  }

  lemma TailSnoc(stored: seq<Solid>, a: nat)
    requires a < |stored|
    ensures stored[a..] == stored[..|stored| - 1][a..] + [stored[|stored| - 1]]
  {
  }

  /** The rows stored at the join from the first height asked for. */
  function Wanted(x: Setup, s: System): seq<Solid> { s.repo.stored[Under(x.first, s.repo.stored, s.loading.from)..] }

  /** There is such a chain, a part of the node's. */
  lemma SomeHeld(x: Setup, s: System) returns (held: Chain)
    requires Starts(x, s)
    ensures Holds(x, s, held)
  {
    held := StoredSpell(s.repo.settled, s.repo.stored, Under(x.first, s.repo.stored, s.loading.from));
  }

  lemma HeldLinked(x: Setup, s: System, held: Chain)
    requires Starts(x, s) && Holds(x, s, held)
    ensures Linked(x.parent, held) && Linked(x.parent, s.repo.settled) && held[0] == s.repo.settled[0]
    ensures Spells(held, Wanted(x, s), s.repo.settled)
  {
    var chain := s.repo.settled;
    var part := StoredSpell(chain, s.repo.stored, Under(x.first, s.repo.stored, s.loading.from));
    assert |part| == |held| && part == chain[..|part|] == held;
    if s.repo.liquid.Some? {
      MicroCut(x.parent, chain, s.repo.liquid.value, 0);
    }
    hide SolidOn;
    CutAt(x.parent, chain, |held|);
  }

  /** What was delivered fits the chain stored when the subscriber joined, and starts with the liquid block if there was one. */
  lemma DeliveredFits(x: Setup, actions: seq<Action>, systems: seq<System>, i: nat)
    requires IsHistory(x, actions, systems) && i < |systems|
    ensures var r, delivered := systems[0].repo, systems[i].handler.delivered;
            && Run(r.settled, delivered).Some?
            && (r.liquid.Some? && delivered != [] ==> delivered[0] == BlockAppended(r.liquid.value.id, r.liquid.value.reference))
  {
    var r := systems[0].repo;
    var base, liquid := r.settled, Liquids(r);
    var steps, states := HistoryIsRun(x, actions, systems, i);
    IsRunLength(x.parent, base, x.maxQueueSize, liquid, steps, states);
    if r.liquid.Some? {
      RunKeyFirst(x.parent, base, x.maxQueueSize, liquid, steps, states, |steps|);
    }
    var delivered := states[|steps|].delivered;
    assert delivered[..|delivered|] == delivered;
    DeliveredIsLegal(x.parent, base, x.maxQueueSize, liquid, steps, states, |steps|, |delivered|);
    hide IsHistory, IsRun, Run;
  }

  /** When the rows read and the live events after them are a legal run. */
  ghost predicate Seamless(r: Repository, held: Chain, rows: seq<Solid>, delivered: seq<Event>)
    requires held != [] && r.settled != []
  {
    && Chained(Tip(held), rows)
    && (|| delivered == []
        || EndOf(Tip(held), rows) == Tip(r.settled)
        || (r.liquid.None? && !delivered[0].IsAppend() && delivered[0].id in held + IdsOf(rows)))
  }

  /** A subscriber is sent the rows its loader reads and then the handler's events. In every state of every history, whatever
    * the node does between two reads, what it was sent is a legal run if and only if each row goes on the one before and,
    * once there are live events, the last row is the last one that was stored when it joined, or there was no liquid block
    * then and the first live event rolls back to an id the subscriber holds.
    */
  lemma StreamExactly(x: Setup, actions: seq<Action>, systems: seq<System>, i: nat, held: Chain)
    requires IsHistory(x, actions, systems) && i < |systems| && Holds(x, systems[0], held)
    ensures held != [] && systems[0].repo.settled != []
    ensures var rows, delivered := systems[i].loading.rows, systems[i].handler.delivered;
            && (Run(held, RowsEvents(rows) + delivered).Some? <==> Seamless(systems[0].repo, held, rows, delivered))
            && (delivered != [] ==> systems[i].loading.progress.Done?)
  {
    var r, rows, delivered := systems[0].repo, systems[i].loading.rows, systems[i].handler.delivered;
    HeldLinked(x, systems[0], held);
    HistoryRead(x, actions, systems, i);
    DeliveredFits(x, actions, systems, i);
    RowsRun(x.parent, held, rows);
    RunConcat(held, RowsEvents(rows), delivered);
    if Chained(Tip(held), rows) {
      HandoverExactly(x.parent, r.settled, held + IdsOf(rows), delivered);
    }
    hide IsHistory, Run, Chained, Linked, Read, Holds;
  }

  /** And then what is still buffered leads the subscriber to the node's chain, unless nothing was delivered and rows are
    * missing.
    */
  lemma StreamArrives(x: Setup, actions: seq<Action>, systems: seq<System>, i: nat, held: Chain)
    requires IsHistory(x, actions, systems) && i < |systems| && Holds(x, systems[0], held) && !systems[i].handler.completed
    requires Run(held, RowsEvents(systems[i].loading.rows) + systems[i].handler.delivered).Some?
    ensures held != [] && systems[0].repo.settled != []
    ensures var rows, s := systems[i].loading.rows, systems[i];
            s.handler.delivered != [] || EndOf(Tip(held), rows) == Tip(systems[0].repo.settled) ==>
              Run(held, RowsEvents(rows) + (s.handler.delivered + s.handler.queue)) == Some(NodeChain(s.repo))
  {
    var base, rows, s := systems[0].repo.settled, systems[i].loading.rows, systems[i];
    var all := s.handler.delivered + s.handler.queue;
    StreamExactly(x, actions, systems, i, held);
    SubscriberFollowsNode(x, actions, systems, i);
    HeldLinked(x, systems[0], held);
    HistoryRead(x, actions, systems, i);
    RowsRun(x.parent, held, rows);
    RunConcat(held, RowsEvents(rows), all);
    HandoverExactly(x.parent, base, held + IdsOf(rows), all);
    assert s.handler.delivered != [] ==> all[0] == s.handler.delivered[0];
    hide IsHistory, Run, Chained, Linked, Read, Quiet, Holds;
  }

  // ----- When no row is missing

  /** With a liquid block at the join, the comparison with the target makes sure of it: rows that go on one another and get to
    * the target height are all that were stored.
    */
  lemma TargetReached(x: Setup, actions: seq<Action>, systems: seq<System>, i: nat, held: Chain)
    requires IsHistory(x, actions, systems) && i < |systems| && Holds(x, systems[0], held) && held != []
    requires systems[0].repo.liquid.Some? && systems[i].loading.from == systems[0].repo.liquid.value.height
    requires Chained(Tip(held), systems[i].loading.rows)
    ensures Run(held, RowsEvents(systems[i].loading.rows) + systems[i].handler.delivered).Some?
  {
    StreamExactly(x, actions, systems, i, held);
    HistoryRead(x, actions, systems, i);
    var r, l := systems[0].repo, systems[i].loading;
    if l.rows == [] {
      assert r.stored[Under(x.first, r.stored, systems[0].loading.from)..] == [];
      assert held + [] == held;
    }
    hide Linked, SolidOn, Run, Chained, LeadsAt, Placed;
  }

  /** What was stored at the join is still there, and without a liquid block then, nothing more is. */
  ghost predicate Intact(joined: Repository, r: Repository) {
    joined.stored <= r.stored && (joined.liquid.None? ==> r.stored == joined.stored)
  }

  /** A call that keeps it so: any but a rollback, and without a liquid block at the join, one that does not change what is
    * stored.
    */
  ghost predicate Keeps(x: Setup, joined: Repository, r: Repository, action: Action) {
    action.Node? ==> if joined.liquid.Some? then !action.call.Rollback? else After(x.first, r, action.call).stored == r.stored
  }

  lemma IntactKept(x: Setup, joined: Repository, s: System, action: Action, t: System)
    requires Intact(joined, s.repo) && Keeps(x, joined, s.repo, action) && Leads(x, s, action, t)
    ensures Intact(joined, t.repo)
  {
    hide Allowed, Report, Loaded, Handled;
  }

  /** What has been read is a part of what was stored from the first row on, and all of it when the loader is done. */
  ghost predicate ReadInOrder(rest: seq<Solid>, l: Loading) {
    l.rows <= rest && !l.progress.Failed? && (l.progress.Done? ==> l.rows == rest)
  }

  lemma LastStored(x: Setup, r: Repository)
    requires Sound(x.parent, x.first, r) && r.stored != [] && r.liquid.Some?
    ensures r.stored[|r.stored| - 1].Total() == r.liquid.value.reference
  {
    TopEnds(r.settled, r.stored[|r.stored| - 1]);
  }

  /** How much of a batch is there when nothing is missing. */
  lemma BatchFits(first: Height, batch: nat, joined: seq<Solid>, stored: seq<Solid>, k: nat, from: Height, target: Option<UpdateLoader.Target>)
    requires joined <= stored && k <= |joined| && from == first + k && batch > 0
    requires if target.Some? then target.value.height == first + |joined| - 1 else stored == joined
    ensures Under(first, stored, from) == k
    ensures var n := UpdateLoader.Size(|stored| - k, from, target, batch);
            k + n <= |joined| && (n == 0 ==> k == |joined|) && stored[k..][..n] == joined[k..k + n]
  {
  }

  lemma MoreOf(all: seq<Solid>, a: nat, rows: seq<Solid>, n: nat)
    requires a <= |all| && rows <= all[a..] && a + |rows| + n <= |all|
    ensures var k := a + |rows|; rows + all[k..k + n] <= all[a..]
  {
    var k := a + |rows|;
    assert rows + all[k..k + n] == all[a..k + n] == all[a..][..|rows| + n];
  }

  /** The row at the target height is the target. */
  lemma NoMiss(x: Setup, joined: Repository, r: Repository, l: Loading, k: nat, n: nat)
    requires Sound(x.parent, x.first, joined) && Intact(joined, r) && l.target == TargetOf(joined)
    requires l.from == x.first + k && 0 < n && k + n <= |joined.stored|
    ensures l.target.Some? && l.target.value.height == l.from + n - 1 ==> r.stored[k + n - 1].Total() == l.target.value.id
  {
    if joined.liquid.Some? {
      LastStored(x, joined);
    }
    hide Linked, SolidOn;
  }

  /** How many rows the next batch has, and that its last one is not refused. */
  lemma NextFits(x: Setup, joined: Repository, r: Repository, l: Loading, k: nat) returns (n: nat)
    requires Sound(x.parent, x.first, joined) && Intact(joined, r) && x.batch > 0 && l.progress.Reading?
    requires k <= |joined.stored| && l.from == x.first + k && l.target == TargetOf(joined)
    ensures k + n <= |joined.stored| && (n == 0 ==> k == |joined.stored|)
    ensures Loaded(x.first, x.batch, r.stored, l) ==
            if n == 0 then l.(progress := Done) else l.(from := l.from + n, rows := l.rows + joined.stored[k..k + n])
  {
    TargetHeight(x, joined);
    BatchFits(x.first, x.batch, joined.stored, r.stored, k, l.from, l.target);
    n := UpdateLoader.Size(|r.stored| - k, l.from, l.target, x.batch);
    if n > 0 {
      NoMiss(x, joined, r, l, k, n);
    }
    hide Sound, Intact, TargetOf, Loaded, UpdateLoader.Size, Under;
    LoadedIs(x.first, x.batch, r.stored, l);
  }

  lemma LoadInOrder(x: Setup, joined: Repository, a: nat, r: Repository, l: Loading)
    requires Sound(x.parent, x.first, joined) && Intact(joined, r) && x.batch > 0
    requires a <= |joined.stored| && l.progress.Reading? && ReadInOrder(joined.stored[a..], l)
    requires l.from == x.first + a + |l.rows| && l.target == TargetOf(joined)
    ensures ReadInOrder(joined.stored[a..], Loaded(x.first, x.batch, r.stored, l))
  {
    hide Sound, Intact, Loaded, TargetOf;
    var n := NextFits(x, joined, r, l, a + |l.rows|);
    MoreOf(joined.stored, a, l.rows, n);
  }

  lemma TargetHeight(x: Setup, r: Repository)
    requires Sound(x.parent, x.first, r)
    ensures r.liquid.Some? <==> TargetOf(r).Some?
    ensures r.liquid.Some? ==> TargetOf(r).value.height == x.first + |r.stored| - 1
  {
    hide Linked, SolidOn;
  }

  lemma {:induction false} LoadsInOrder(x: Setup, actions: seq<Action>, systems: seq<System>, i: nat)
    requires IsHistory(x, actions, systems) && i < |systems| && x.batch > 0 && x.first <= systems[0].loading.from
    requires forall j :: 0 <= j < i && systems[j].loading.progress.Reading? ==> Keeps(x, systems[0].repo, systems[j].repo, actions[j])
    ensures var s := systems[0];
            && ReadInOrder(Wanted(x, s), systems[i].loading)
            && (systems[i].loading.progress.Reading? ==> Intact(s.repo, systems[i].repo))
    decreases i
  {
    if i > 0 {
      LoadsInOrder(x, actions, systems, i - 1);
      HistoryRead(x, actions, systems, i - 1);
      assert LeadsAt(x, actions, systems, i - 1);
      var joined, s, t := systems[0], systems[i - 1], systems[i];
      assert Sound(x.parent, x.first, joined.repo);
      hide IsHistory, Sound, Intact, Keeps, ReadInOrder;
      if s.loading.progress.Reading? {
        IntactKept(x, joined.repo, s, actions[i - 1], t);
        if actions[i - 1].Load? {
          LoadInOrder(x, joined.repo, Under(x.first, joined.repo.stored, joined.loading.from), s.repo, s.loading);
        }
      }
    }
  }

  /** If no row is taken away while the loader reads, and without a liquid block at the join none is added, then the loader
    * never fails, it reads what was stored at the join, and what the subscriber is sent is a legal run ever after.
    */
  lemma UndisturbedStream(x: Setup, actions: seq<Action>, systems: seq<System>, i: nat, held: Chain)
    requires IsHistory(x, actions, systems) && i < |systems| && x.batch > 0 && x.first <= systems[0].loading.from
    requires forall j :: 0 <= j < i && systems[j].loading.progress.Reading? ==> Keeps(x, systems[0].repo, systems[j].repo, actions[j])
    requires Holds(x, systems[0], held)
    ensures !systems[i].loading.progress.Failed?
    ensures Run(held, RowsEvents(systems[i].loading.rows) + systems[i].handler.delivered).Some?
  {
    LoadsInOrder(x, actions, systems, i);
    StreamExactly(x, actions, systems, i, held);
    HeldLinked(x, systems[0], held);
    hide IsHistory, Run, Linked, Holds, Wanted, Keeps, Spells, Seamless;
    InOrderSeamless(systems[0].repo, held, Wanted(x, systems[0]), systems[i].loading, systems[i].handler.delivered);
  }

  lemma InOrderSeamless(r: Repository, held: Chain, wanted: seq<Solid>, l: Loading, delivered: seq<Event>)
    requires held != [] && r.settled != [] && Spells(held, wanted, r.settled)
    requires ReadInOrder(wanted, l) && (delivered != [] ==> l.progress.Done?)
    ensures Seamless(r, held, l.rows, delivered)
  {
    ChainedPrefix(Tip(held), wanted, |l.rows|);
    hide Chained;
  }

  lemma ChainedPrefix(tip: Id, rows: seq<Solid>, k: nat)
    requires Chained(tip, rows)
    ensures k <= |rows| ==> Chained(tip, rows[..k])
  {
    assert forall i :: 0 <= i < k <= |rows| ==> rows[..k][i] == rows[i] && rows[..k][..i] == rows[..i];
  }
}
