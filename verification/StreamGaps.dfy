/** Histories in which what a subscriber is sent does not fit: rows are lost, a row is repeated, or rows of two forks are mixed. */
module StreamGaps {
  import opened Wrappers
  import opened Periods
  import opened ChainEvents
  import Compaction
  import opened EventHandler
  import opened UpdateFeed
  import opened UpdateStream
  import UpdateLoader

  /** Ids in order, and a second fork from 1 that starts with 12. */
  function Predecessor(): Id -> Id { (id: Id) => if id == 12 then 1 else if id > 0 then id - 1 else 0 }

  function Node250(): Setup { Setup(Predecessor(), 2, 250, UpdateLoader.BATCH) }

  /** A history, and where it has come to. */
  ghost predicate Comes(actions: seq<Action>, systems: seq<System>, start: System, end: System) {
    && IsHistory(Node250(), actions, systems) && |systems| == |actions| + 1
    && systems[0] == start && systems[|actions|] == end
  }

  lemma Goes(actions: seq<Action>, systems: seq<System>, start: System, s: System, action: Action, t: System)
    returns (longer: seq<Action>, more: seq<System>)
    requires Comes(actions, systems, start, s) && Leads(Node250(), s, action, t)
    ensures Comes(longer, more, start, t)
  {
    hide Leads, Starts;
    longer, more := actions + [action], systems + [t];
    forall i | 0 <= i < |longer| ensures LeadsAt(Node250(), longer, more, i) {
      if i < |actions| {
        assert LeadsAt(Node250(), actions, systems, i);
      }
    }
  }

  /** The subscription is accepted, and one pass through the handler's threads sends the first buffered event. */
  function Sending(): seq<Step> { [Subscribe(true), SubscriptionCallback, ReadQueue, ReadFlags, RunTask] }

  function Sent(s: State, k: nat): State
    decreases k
  {
    if k == 0 then s
    else
      var before := Sent(s, k - 1);
      if k <= 5 && Enabled(before, Sending()[k - 1]) then Next(250, before, Sending()[k - 1]) else before
  }

  /** A handler that has something buffered and waits for its subscription. */
  predicate Ready(s: State) {
    && s.queue != [] && s.subscription.Waiting? && s.callback && s.delivered == [] && !s.completed && !s.cancelled
  }

  lemma SentAll(s: State)
    requires Ready(s)
    ensures forall k :: 0 <= k < 5 ==> Enabled(Sent(s, k), Sending()[k])
    ensures Sent(s, 5).delivered == [s.queue[0]]
  {
    var s1 := Next(250, s, Subscribe(true));
    assert Sent(s, 1) == s1;
    var s2 := Next(250, s1, SubscriptionCallback);
    assert Sent(s, 2) == s2;
    var s3 := Next(250, s2, ReadQueue);
    assert Sent(s, 3) == s3;
    var s4 := Next(250, s3, ReadFlags);
    assert Sent(s, 4) == s4;
    var s5 := Next(250, s4, RunTask);
    assert Sent(s, 5) == s5;
    forall k | 0 <= k < 5 ensures Enabled(Sent(s, k), Sending()[k]) {
      assert k == 0 || k == 1 || k == 2 || k == 3 || k == 4;
    }
  }

  lemma {:induction false} Sends(actions: seq<Action>, systems: seq<System>, start: System, s: System, k: nat)
    returns (longer: seq<Action>, more: seq<System>)
    requires Comes(actions, systems, start, s) && k <= 5 && Ready(s.handler) && s.loading.progress.Done?
    ensures Comes(longer, more, start, s.(handler := Sent(s.handler, k)))
  {
    if k == 0 {
      longer, more := actions, systems;
    } else {
      longer, more := Sends(actions, systems, start, s, k - 1);
      hide Comes;
      SentAll(s.handler);
      var t, step := s.(handler := Sent(s.handler, k - 1)), Sending()[k - 1];
      hide Next;
      longer, more := Goes(longer, more, start, t, Own(step), t.(handler := Next(250, t.handler, step)));
    }
  }

  ghost function Called(s: System, call: Call): System {
    s.(repo := After(2, s.repo, call), handler := Handled(250, s.handler, Report(2, s.repo, call)))
  }

  function Read(s: System): System { s.(loading := Loaded(2, UpdateLoader.BATCH, s.repo.stored, s.loading)) }

  // ----- Lost rows

  /** Blocks 2 and 3 are stored on top of 1, and block 4 is liquid. */
  const JOINED := Repository(Some(Liquid(4, 4, 3, [])), [Solid(2, 1, []), Solid(3, 2, [])], [1, 2, 3])

  const KEY := BlockAppended(4, 3)

  const BACK := Rollback(1, 1)

  lemma JoinedStarts()
    ensures Starts(Node250(), System(JOINED, Init([KEY]), Loading(2, Some(UpdateLoader.Target(3, 3)), [], Reading)))
    ensures Allowed(Predecessor(), 2, JOINED, BACK) && Report(2, JOINED, BACK).Some?
  {
    assert ChainOf(JOINED.settled, JOINED.liquid) == [1, 2, 3, 4];
    assert SolidOn([1], []);
    assert [1, 2][..1] == [1] && [Solid(2, 1, [])][..0] == [];
    assert SolidOn([1, 2], [Solid(2, 1, [])]);
    assert [1, 2, 3][..2] == [1, 2] && JOINED.stored[..1] == [Solid(2, 1, [])];
    assert SolidOn([1, 2, 3], JOINED.stored);
  }

  lemma BackReady()
    ensures var h := Handled(250, Init([KEY]), Report(2, JOINED, BACK)); Ready(h) && h.queue[0] == KEY
  {
    JoinedStarts();
    var step := Report(2, JOINED, BACK).value;
    hide Compaction.RevertMicros, Compaction.RevertBlocks, MicroReverts, BlockReverts;
    MicrosKeepHead(KEY, [KEY], step.micros);
    BlocksKeepHead(KEY, Compaction.RevertMicros([KEY], step.micros), step.blocks);
  }

  /** The node goes back to block 1 before a row is read. The loader finds nothing and is done without an error, its target
    * unchecked, and the first live event is block 4.
    */
  lemma LostRows() returns (actions: seq<Action>, systems: seq<System>)
    ensures IsHistory(Node250(), actions, systems) && systems[0].repo == JOINED && Holds(Node250(), systems[0], [1])
    ensures var s := systems[|actions|];
            && s.loading.rows == [] && s.loading.progress.Done? && s.handler.delivered == [KEY]
            && Run([1], RowsEvents(s.loading.rows) + s.handler.delivered).None?
  {
    var l := Loading(2, Some(UpdateLoader.Target(3, 3)), [], Reading);
    var s := System(JOINED, Init([KEY]), l);
    var s1 := Called(s, BACK);
    var s2 := s1.(loading := l.(progress := Done));
    JoinedStarts();
    assert Comes([], [s], s, s);
    LoadedIs(2, UpdateLoader.BATCH, [], l);
    assert Leads(Node250(), s, Node(BACK), s1) && Leads(Node250(), s1, Load, s2);
    BackReady();
    SentAll(s2.handler);
    JoinedHeld();
    assert Wanted(Node250(), s) == JOINED.stored;
    hide Starts, Leads, Sent, After, Report, Handled, Run;
    actions, systems := Goes([], [s], s, s, Node(BACK), s1);
    actions, systems := Goes(actions, systems, s, s1, Load, s2);
    actions, systems := Sends(actions, systems, s, s2, 5);
    StreamExactly(Node250(), actions, systems, |actions|, [1]);
  }

  lemma JoinedHeld()
    ensures [1] + IdsOf(JOINED.stored) == JOINED.settled
  {
    assert JOINED.stored[..1] == [Solid(2, 1, [])] && JOINED.stored[..1][..0] == [];
  }

  // ----- A repeated row

  /** Block 2 is stored on top of 1, and nothing is liquid: so it is after a start of the node, and after a rollback. */
  const STARTED := Repository(None, [Solid(2, 1, [])], [1, 2])

  function Joined(): System { System(STARTED, Init([]), Loading(2, None, [], Reading)) }

  lemma StartedStarts()
    ensures Starts(Node250(), Joined()) && Holds(Node250(), Joined(), [1])
  {
    assert [1, 2][..1] == [1] && STARTED.stored[..0] == [];
    assert SolidOn([1], []);
    assert SolidOn([1, 2], STARTED.stored);
    assert Wanted(Node250(), Joined()) == STARTED.stored;
    assert IdsOf(STARTED.stored) == [2];
  }

  const TWO := Solid(2, 1, [])

  const THREE := Solid(3, 2, [])

  lemma TwoArrive()
    ensures var s := Joined(); var t := Called(s, ProcessBlock(3, 2)); var u := Called(t, ProcessBlock(4, 3));
            && Leads(Node250(), s, Node(ProcessBlock(3, 2)), t) && Leads(Node250(), t, Node(ProcessBlock(4, 3)), u)
            && u.repo.stored == [TWO, THREE] && u.loading == s.loading
            && Ready(u.handler) && u.handler.queue[0] == BlockAppended(3, 2)
  {
    var s := Joined();
    var t := Called(s, ProcessBlock(3, 2));
    assert t.repo == Repository(Some(Liquid(3, 3, 2, [])), STARTED.stored, [1, 2]);
    assert STARTED.stored + [THREE] == [TWO, THREE];
  }

  lemma ReadsBoth(s: System)
    requires s.repo.stored == [TWO, THREE] && s.loading == Joined().loading
    ensures var t := Read(s); var u := Read(t);
            && t.loading == Loading(4, None, [TWO, THREE], Reading) && u.loading == t.loading.(progress := Done)
            && Leads(Node250(), s, Load, t) && Leads(Node250(), t, Load, u)
  {
    LoadedIs(2, UpdateLoader.BATCH, s.repo.stored, s.loading);
    LoadedIs(2, UpdateLoader.BATCH, s.repo.stored, Read(s).loading);
  }

  /** Block 3 becomes liquid, block 4 has it stored, and then the loader reads rows 2 and 3. The handler joined before either
    * and sends block 3 again.
    */
  lemma RepeatedRow() returns (actions: seq<Action>, systems: seq<System>)
    ensures IsHistory(Node250(), actions, systems) && systems[0].repo == STARTED && Holds(Node250(), systems[0], [1])
    ensures var s := systems[|actions|];
            && s.loading.rows == [TWO, THREE] && s.handler.delivered == [BlockAppended(3, 2)]
            && Run([1], RowsEvents(s.loading.rows) + s.handler.delivered).None?
  {
    var s := Joined();
    StartedStarts();
    assert Comes([], [s], s, s);
    TwoArrive();
    hide Starts, Leads, Sent, After, Report, Handled, Loaded, Run;
    var t := Called(s, ProcessBlock(3, 2));
    var u := Called(t, ProcessBlock(4, 3));
    ReadsBoth(u);
    SentAll(u.handler);
    actions, systems := Goes([], [s], s, s, Node(ProcessBlock(3, 2)), t);
    actions, systems := Goes(actions, systems, s, t, Node(ProcessBlock(4, 3)), u);
    actions, systems := Goes(actions, systems, s, u, Load, Read(u));
    actions, systems := Goes(actions, systems, s, Read(u), Load, Read(Read(u)));
    actions, systems := Sends(actions, systems, s, Read(Read(u)), 5);
    StreamExactly(Node250(), actions, systems, |actions|, [1]);
  }

  // ----- Rows of two forks

  lemma ForkArrives()
    ensures var s := Read(Joined()); var t := Called(s, BACK); var u := Called(t, ProcessBlock(12, 1));
            && s.loading == Loading(3, None, [TWO], Reading) && Leads(Node250(), Joined(), Load, s)
            && Leads(Node250(), s, Node(BACK), t) && Leads(Node250(), t, Node(ProcessBlock(12, 1)), u)
            && u.repo == Repository(Some(Liquid(2, 12, 1, [])), [], [1]) && u.loading == s.loading
  {
    LoadedIs(2, UpdateLoader.BATCH, STARTED.stored, Joined().loading);
    assert STARTED.stored[0..][..1] == [TWO] && [] + [TWO] == [TWO];
    assert Upto([1, 2], 1) == [1];
    var s := Read(Joined());
    hide Loaded;
    assert Called(s, BACK).repo == Repository(None, [], [1]);
  }

  lemma ForkGrows(s: System)
    requires s.repo == Repository(Some(Liquid(2, 12, 1, [])), [], [1]) && s.loading == Loading(3, None, [TWO], Reading)
    ensures var t := Called(s, ProcessBlock(13, 12)); var u := Called(t, ProcessBlock(14, 13));
            && Leads(Node250(), s, Node(ProcessBlock(13, 12)), t) && Leads(Node250(), t, Node(ProcessBlock(14, 13)), u)
            && Leads(Node250(), u, Load, Read(u)) && Read(u).loading.rows == [TWO, Solid(13, 12, [])]
  {
    var t := Called(s, ProcessBlock(13, 12));
    assert t.repo == Repository(Some(Liquid(3, 13, 12, [])), [Solid(12, 1, [])], [1, 12]);
    var u := Called(t, ProcessBlock(14, 13));
    assert u.repo.stored == [Solid(12, 1, []), Solid(13, 12, [])];
    LoadedIs(2, UpdateLoader.BATCH, u.repo.stored, u.loading);
    assert u.repo.stored[1..][..1] == [Solid(13, 12, [])];
  }

  /** Row 2 is read; then the node goes back to block 1 and grows another fork, whose row at height 3 is read next. */
  lemma ForkedRows() returns (actions: seq<Action>, systems: seq<System>)
    ensures IsHistory(Node250(), actions, systems) && systems[0].repo == STARTED && Holds(Node250(), systems[0], [1])
    ensures var s := systems[|actions|];
            s.loading.rows == [TWO, Solid(13, 12, [])] && Run([1], RowsEvents(s.loading.rows) + s.handler.delivered).None?
  {
    var s := Joined();
    StartedStarts();
    assert Comes([], [s], s, s);
    ForkArrives();
    hide Starts, Leads, After, Report, Handled, Loaded, Run;
    var t := Called(Read(s), BACK);
    var u := Called(t, ProcessBlock(12, 1));
    ForkGrows(u);
    var v := Called(u, ProcessBlock(13, 12));
    var w := Called(v, ProcessBlock(14, 13));
    actions, systems := Goes([], [s], s, s, Load, Read(s));
    actions, systems := Goes(actions, systems, s, Read(s), Node(BACK), t);
    actions, systems := Goes(actions, systems, s, t, Node(ProcessBlock(12, 1)), u);
    actions, systems := Goes(actions, systems, s, u, Node(ProcessBlock(13, 12)), v);
    actions, systems := Goes(actions, systems, s, v, Node(ProcessBlock(14, 13)), w);
    actions, systems := Goes(actions, systems, s, w, Load, Read(w));
    StreamExactly(Node250(), actions, systems, |actions|, [1]);
    NotChained();
  }

  lemma NotChained()
    ensures !Chained(1, [TWO, Solid(13, 12, [])])
  {
    var rows := [TWO, Solid(13, 12, [])];
    assert rows[..1] == [TWO] && rows[1].reference != EndOf(1, rows[..1]);
  }
}
