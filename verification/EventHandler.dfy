/** The per-subscriber handler: a buffer fed by the node, drained by tasks on a scheduler.
  *
  * Feeding methods change the buffer under its lock. `sendUpdate` reads the buffer and the subscription without the
  * lock, schedules a task, and the task takes the lock again to send one event; the subscriber's acknowledgement
  * calls `sendUpdate` once more. Each read or locked section is one step here, and the steps of all threads
  * interleave freely.
  */
module EventHandler {
  import opened Wrappers
  import opened ChainEvents
  import opened Compaction

  datatype Subscription = Waiting | Accepted | Refused

  datatype State = State(
    queue: seq<Event>,
    cancelled: bool,
    completed: bool,            // the subject was completed, it delivers nothing any more
    delivered: seq<Event>,      // what the subscriber received
    subscription: Subscription, // Waiting until the subject's subscription future completes
    callback: bool,             // the subscription's own callback has not run yet
    checks: nat,                // sendUpdate calls about to read the buffer
    confirmed: nat,             // sendUpdate calls that saw a non-empty buffer, about to read the flags
    tasks: nat,                 // send tasks scheduled and not yet run
    acks: nat,                  // events handed to the subscriber, not yet acknowledged
    stopped: bool,              // some acknowledgement was Stop or a failure
    log: seq<Event>             // everything the node reported, uncompacted
  )

  datatype Step =
    // what the node does
    | Update(event: Event)
    | RollbackMicroBlock(rollback: Event)
    | RollbackBlock(micros: seq<Event>, blocks: seq<Event>)
    | Shutdown
    // what the subscriber does
    | Subscribe(accept: bool)
    | Acknowledge(goOn: bool)
    // what the handler's own threads do
    | SubscriptionCallback
    | ReadQueue
    | ReadFlags
    | RunTask

  /** The handler before anything ran: the liquid block's events are buffered. */
  function Init(liquid: seq<Event>): State {
    State(liquid, false, false, [], Waiting, true, 0, 0, 0, 0, false, liquid)
  }

  predicate Enabled(s: State, step: Step) {
    match step
    case Subscribe(_) => s.subscription.Waiting?
    case Acknowledge(_) => s.acks > 0
    case SubscriptionCallback => !s.subscription.Waiting? && s.callback
    case ReadQueue => s.checks > 0
    case ReadFlags => s.confirmed > 0
    case RunTask => s.tasks > 0
    case _ => true
  }

  function Next(maxQueueSize: nat, s: State, step: Step): State
    requires Enabled(s, step)
  {
    match step
    case Update(e) =>
      if |s.queue| >= maxQueueSize then s.(cancelled := true, queue := [], completed := true, log := s.log + [e])
      else s.(queue := s.queue + [e], checks := s.checks + 1, log := s.log + [e])
    case RollbackMicroBlock(r) =>
      s.(queue := RevertMicro(s.queue, r), checks := s.checks + 1, log := s.log + [r])
    case RollbackBlock(micros, blocks) =>
      s.(queue := RevertBlocks(RevertMicros(s.queue, micros), blocks), checks := s.checks + 1,
         log := s.log + micros + blocks)
    case Shutdown => s.(cancelled := true, queue := [], completed := true)
    case Subscribe(accept) => s.(subscription := if accept then Accepted else Refused)
    case Acknowledge(goOn) =>
      if goOn then s.(acks := s.acks - 1, checks := s.checks + 1) else s.(acks := s.acks - 1, stopped := true)
    case SubscriptionCallback =>
      if s.subscription.Accepted? then s.(callback := false, checks := s.checks + 1)
      else s.(callback := false, cancelled := true)
    case ReadQueue =>
      s.(checks := s.checks - 1, confirmed := if s.queue != [] then s.confirmed + 1 else s.confirmed)
    case ReadFlags =>
      s.(confirmed := s.confirmed - 1,
         tasks := if !s.subscription.Waiting? && !s.cancelled then s.tasks + 1 else s.tasks)
    case RunTask =>
      if s.queue == [] then s.(tasks := s.tasks - 1)
      else s.(tasks := s.tasks - 1, acks := s.acks + 1, queue := s.queue[1..],
              delivered := if s.completed then s.delivered else s.delivered + [s.queue[0]])
  }

  // ----- Whole runs

  /** What the node reports in a step. */
  function Reported(step: Step): seq<Event> {
    match step
    case Update(e) => [e]
    case RollbackMicroBlock(r) => [r]
    case RollbackBlock(micros, blocks) => micros + blocks
    case _ => []
  }

  /** The node only reports events that fit its own chain, rollbacks through the rollback calls. */
  ghost predicate Admissible(parent: Id -> Id, base: Chain, s: State, step: Step) {
    && Enabled(s, step)
    && MayFollow(parent, base, s.log, Reported(step))
    && (step.RollbackMicroBlock? || step.RollbackBlock? ==> forall r :: r in Reported(step) ==> !r.IsAppend())
  }

  /** `states` is a run of `steps` from a fresh handler over the chain `base` the subscriber already holds. */
  ghost predicate IsRun(parent: Id -> Id, base: Chain, maxQueueSize: nat, liquid: seq<Event>,
                        steps: seq<Step>, states: seq<State>)
  {
    && |states| == |steps| + 1
    && Linked(parent, base) && MayFollow(parent, base, [], liquid)
    && states[0] == Init(liquid)
    && forall i :: 0 <= i < |steps| ==> StepAt(parent, base, maxQueueSize, steps, states, i)
  }

  ghost predicate StepAt(parent: Id -> Id, base: Chain, maxQueueSize: nat, steps: seq<Step>, states: seq<State>, i: nat)
    requires i < |steps| < |states|
  {
    Admissible(parent, base, states[i], steps[i]) && Takes(maxQueueSize, steps, states, i)
  }

  /** Step `i` leads from state `i` to the next one. */
  ghost predicate Takes(maxQueueSize: nat, steps: seq<Step>, states: seq<State>, i: nat)
    requires i < |steps| < |states|
  {
    Enabled(states[i], steps[i]) && states[i + 1] == Next(maxQueueSize, states[i], steps[i])
  }

  /** Something is still on its way that will look at the buffer again. */
  predicate WakeUpOutstanding(s: State) {
    s.checks > 0 || s.confirmed > 0 || s.tasks > 0 || s.acks > 0 || (s.subscription.Accepted? && s.callback)
  }

  /** What the chain side of a state guarantees. */
  ghost predicate ChainInv(parent: Id -> Id, base: Chain, s: State) {
    && Linked(parent, base) && Consistent(parent, s.log) && Run(base, s.log).Some?
    && (!s.completed ==> Faithful(parent, base, s.delivered, s.queue, s.log))
    && Run(base, s.delivered).Some?
  }

  /** What the scheduling side of a state guarantees. */
  predicate WakeInv(s: State) {
    && (s.completed ==> s.cancelled)
    && (s.subscription.Waiting? ==> s.callback)
    && (s.queue != [] && s.subscription.Accepted? && !s.cancelled && !s.stopped ==> WakeUpOutstanding(s))
  }

  ghost predicate Inv(parent: Id -> Id, base: Chain, s: State) {
    ChainInv(parent, base, s) && WakeInv(s)
  }

  lemma InitInv(parent: Id -> Id, base: Chain, liquid: seq<Event>)
    requires Linked(parent, base) && MayFollow(parent, base, [], liquid)
    ensures Inv(parent, base, Init(liquid))
  {
    assert [] + liquid == liquid;
  }

  /** Sending moves the head of the buffer to the end of what was delivered, and nothing else. */
  lemma SendKeepsFaithful(parent: Id -> Id, base: Chain, delivered: seq<Event>, queue: seq<Event>, log: seq<Event>)
    requires Faithful(parent, base, delivered, queue, log) && queue != []
    ensures Faithful(parent, base, delivered + [queue[0]], queue[1..], log)
    ensures Run(base, delivered + [queue[0]]).Some?
  {
    assert (delivered + [queue[0]]) + queue[1..] == delivered + queue;
    RunPrefix(base, delivered + queue, |delivered| + 1);
    assert (delivered + queue)[..|delivered| + 1] == delivered + [queue[0]];
  }

  lemma StepWakeInv(maxQueueSize: nat, s: State, step: Step)
    requires WakeInv(s) && Enabled(s, step)
    ensures WakeInv(Next(maxQueueSize, s, step))
  {
  }

  lemma {:induction false} RollbackBlockFaithful(parent: Id -> Id, base: Chain, sent: seq<Event>, queue: seq<Event>,
                                                 log: seq<Event>, micros: seq<Event>, blocks: seq<Event>)
    requires Faithful(parent, base, sent, queue, log) && MayFollow(parent, base, log, micros + blocks)
    requires forall r :: r in micros + blocks ==> !r.IsAppend()
    ensures Faithful(parent, base, sent, RevertBlocks(RevertMicros(queue, micros), blocks), log + micros + blocks)
  {
    assert forall r :: r in micros || r in blocks ==> r in micros + blocks;
    MayFollowSplit(parent, base, log, micros + blocks, |micros|);
    assert (micros + blocks)[..|micros|] == micros && (micros + blocks)[|micros|..] == blocks;
    RevertMicrosFaithful(parent, base, sent, queue, log, micros);
    RevertBlocksFaithful(parent, base, sent, RevertMicros(queue, micros), log + micros, blocks);
  }

  lemma {:induction false} StepChainInv(parent: Id -> Id, base: Chain, maxQueueSize: nat, s: State, step: Step)
    requires ChainInv(parent, base, s) && Admissible(parent, base, s, step)
    ensures ChainInv(parent, base, Next(maxQueueSize, s, step))
  {
    hide Run, Consistent, Linked, Faithful, RevertMicro, RevertMicros, RevertBlocks;
    match step
    case Update(e) =>
      if !s.completed { AppendKeepsFaithful(parent, base, s.delivered, s.queue, s.log, e); }
    case RollbackMicroBlock(r) =>
      assert r in Reported(step);
      if !s.completed { RevertMicroFaithful(parent, base, s.delivered, s.queue, s.log, r); }
    case RollbackBlock(micros, blocks) =>
      assert s.log + (micros + blocks) == s.log + micros + blocks;
      if !s.completed { RollbackBlockFaithful(parent, base, s.delivered, s.queue, s.log, micros, blocks); }
    case RunTask =>
      if s.queue != [] && !s.completed { SendKeepsFaithful(parent, base, s.delivered, s.queue, s.log); }
    case _ =>
  }

  lemma StepInv(parent: Id -> Id, base: Chain, maxQueueSize: nat, steps: seq<Step>, states: seq<State>, i: nat)
    requires i < |steps| < |states|
    requires Inv(parent, base, states[i]) && StepAt(parent, base, maxQueueSize, steps, states, i)
    ensures Inv(parent, base, states[i + 1])
  {
    StepChainInv(parent, base, maxQueueSize, states[i], steps[i]);
    StepWakeInv(maxQueueSize, states[i], steps[i]);
  }

  lemma {:induction false} RunInv(parent: Id -> Id, base: Chain, maxQueueSize: nat, liquid: seq<Event>,
                                  steps: seq<Step>, states: seq<State>, i: nat)
    requires IsRun(parent, base, maxQueueSize, liquid, steps, states) && i < |states|
    ensures Inv(parent, base, states[i])
  {
    if i == 0 {
      InitInv(parent, base, liquid);
    } else {
      RunInv(parent, base, maxQueueSize, liquid, steps, states, i - 1);
      StepInv(parent, base, maxQueueSize, steps, states, i - 1);
    }
  }

  /** Compaction is invisible: in every state of every interleaving, until the subject is completed, what was
    * delivered followed by the buffer leads to the chain the whole uncompacted log leads to.
    */
  lemma CompactionInvisible(parent: Id -> Id, base: Chain, maxQueueSize: nat, liquid: seq<Event>,
                            steps: seq<Step>, states: seq<State>, i: nat)
    requires IsRun(parent, base, maxQueueSize, liquid, steps, states) && i < |states| && !states[i].completed
    ensures Run(base, states[i].delivered + states[i].queue).Some?
    ensures Run(base, states[i].delivered + states[i].queue) == Run(base, states[i].log)
  {
    RunInv(parent, base, maxQueueSize, liquid, steps, states, i);
  }

  /** Every prefix of what the subscriber ever receives fits its chain, before and after cancellation. */
  lemma DeliveredIsLegal(parent: Id -> Id, base: Chain, maxQueueSize: nat, liquid: seq<Event>,
                         steps: seq<Step>, states: seq<State>, i: nat, k: nat)
    requires IsRun(parent, base, maxQueueSize, liquid, steps, states) && i < |states| && k <= |states[i].delivered|
    ensures Run(base, states[i].delivered[..k]).Some?
    ensures k < |states[i].delivered| ==>
              var chain, e := Run(base, states[i].delivered[..k]).value, states[i].delivered[k];
              if e.IsAppend() then chain != [] && e.reference == Tip(chain) else e.id in chain
  {
    RunInv(parent, base, maxQueueSize, liquid, steps, states, i);
    var d := states[i].delivered;
    RunPrefix(base, d, k);
    if k < |d| {
      RunPrefix(base, d, k + 1);
      assert d[..k + 1][..k] == d[..k];
    }
  }

  /** No lost wake-up: a subscriber that accepted and never stopped is never left with a buffer nobody will look at. */
  lemma NoLostWakeUp(parent: Id -> Id, base: Chain, maxQueueSize: nat, liquid: seq<Event>,
                     steps: seq<Step>, states: seq<State>, i: nat)
    requires IsRun(parent, base, maxQueueSize, liquid, steps, states) && i < |states|
    requires states[i].queue != [] && states[i].subscription.Accepted?
    requires !states[i].cancelled && !states[i].stopped
    ensures WakeUpOutstanding(states[i])
  {
    RunInv(parent, base, maxQueueSize, liquid, steps, states, i);
  }

  // ----- Draining

  /** A step the handler takes by itself once the subscriber accepts everything it is sent. */
  predicate Draining(step: Step) {
    step.SubscriptionCallback? || step.ReadQueue? || step.ReadFlags? || step.RunTask? ||
    (step.Acknowledge? && step.goOn)
  }

  function Pending(s: State): nat {
    4 * |s.queue| + 4 * s.acks + 3 * s.checks + 2 * s.confirmed + s.tasks + if s.callback then 4 else 0
  }

  /** Every step of draining brings the end closer, whichever thread takes it. */
  lemma DrainProgress(maxQueueSize: nat, s: State, step: Step)
    requires Draining(step) && Enabled(s, step)
    ensures Pending(Next(maxQueueSize, s, step)) < Pending(s)
  {
  }

  ghost predicate Quiescent(s: State) {
    forall step :: Draining(step) ==> !Enabled(s, step)
  }

  lemma {:induction false} DrainBounded(maxQueueSize: nat, steps: seq<Step>, states: seq<State>, from: nat, to: nat)
    requires |states| == |steps| + 1 && from <= to < |states|
    requires forall i :: from <= i < to ==> Draining(steps[i])
    requires forall i :: from <= i < to ==> Takes(maxQueueSize, steps, states, i)
    ensures to - from <= Pending(states[from]) - Pending(states[to])
  {
    if from < to {
      DrainBounded(maxQueueSize, steps, states, from, to - 1);
      assert Takes(maxQueueSize, steps, states, to - 1);
      DrainProgress(maxQueueSize, states[to - 1], steps[to - 1]);
    }
  }

  lemma QuiescentIsDry(s: State)
    requires WakeInv(s) && Quiescent(s) && s.subscription.Accepted? && !s.cancelled && !s.stopped
    ensures s.queue == []
  {
    assert !Enabled(s, ReadQueue) && !Enabled(s, ReadFlags) && !Enabled(s, RunTask);
    assert !Enabled(s, Acknowledge(true)) && !Enabled(s, SubscriptionCallback);
  }

  /** Once the node is silent and the subscriber keeps acknowledging, every schedule runs dry after a bounded number
    * of steps, and where it does, the buffer is empty and the subscriber holds the node's own chain.
    */
  lemma DrainsCompletely(parent: Id -> Id, base: Chain, maxQueueSize: nat, liquid: seq<Event>,
                         steps: seq<Step>, states: seq<State>, from: nat)
    requires IsRun(parent, base, maxQueueSize, liquid, steps, states) && from < |states|
    requires forall i :: from <= i < |steps| ==> Draining(steps[i])
    ensures |steps| - from <= Pending(states[from])
    ensures var last := states[|steps|];
            Quiescent(last) && last.subscription.Accepted? && !last.cancelled && !last.stopped ==>
              last.queue == [] && Run(base, last.delivered) == Run(base, last.log)
  {
    forall i | from <= i < |steps| ensures Takes(maxQueueSize, steps, states, i) {
      assert StepAt(parent, base, maxQueueSize, steps, states, i);
    }
    DrainBounded(maxQueueSize, steps, states, from, |steps|);
    RunInv(parent, base, maxQueueSize, liquid, steps, states, |steps|);
    var last := states[|steps|];
    if Quiescent(last) && last.subscription.Accepted? && !last.cancelled && !last.stopped {
      QuiescentIsDry(last);
      assert last.delivered + last.queue == last.delivered;
    }
  }

  // ----- The handler itself

  class Handler {
    const maxQueueSize: nat
    var queue: seq<Event>
    var cancelled: bool
    var completed: bool
    var delivered: seq<Event>
    var subscription: Subscription
    var callback: bool
    var checks: nat
    var confirmed: nat
    var tasks: nat
    var acks: nat
    var stopped: bool
    ghost var log: seq<Event>

    ghost function View(): State
      reads this
    {
      State(queue, cancelled, completed, delivered, subscription, callback, checks, confirmed, tasks, acks, stopped,
            log)
    }

    constructor (maxQueueSize: nat, liquid: seq<Event>)
      ensures this.maxQueueSize == maxQueueSize && View() == Init(liquid)
    {
      this.maxQueueSize := maxQueueSize;
      queue, cancelled, completed, delivered := liquid, false, false, [];
      subscription, callback := Waiting, true;
      checks, confirmed, tasks, acks, stopped := 0, 0, 0, 0, false;
      log := liquid;
    }

    method HandleUpdate(e: Event)
      modifies this
      ensures View() == Next(maxQueueSize, old(View()), Update(e))
      ensures old(|queue| < maxQueueSize) ==> queue == old(queue) + [e] && cancelled == old(cancelled) && completed == old(completed)
      ensures old(|queue| >= maxQueueSize) ==> queue == [] && cancelled && completed
    {
      log := log + [e];
      if |queue| >= maxQueueSize {
        cancelled := true;
        queue := [];
        completed := true;
      } else {
        queue := queue + [e];
        checks := checks + 1;
      }
    }

    /** Scans the buffer from the front for the first event that says where to cut. */
    method RevertMicroBlock(rollback: Event)
      modifies this`queue
      ensures queue == RevertMicro(old(queue), rollback)
    {
      var i := 0;
      while i < |queue|
        invariant i <= |queue| && queue == old(queue)
        invariant FirstKeep(queue, rollback, 0) == FirstKeep(queue, rollback, i)
      {
        var e := queue[i];
        if e.IsAppend() && e.id == rollback.id {
          queue := queue[..i + 1];
          return;
        } else if e.MicroBlockAppended? && e.References(rollback) {
          queue := queue[..i];
          return;
        }
        i := i + 1;
      }
      queue := queue + [rollback];
    }

    method RollbackMicroBlock(rollback: Event)
      modifies this
      ensures View() == Next(maxQueueSize, old(View()), Step.RollbackMicroBlock(rollback))
    {
      log := log + [rollback];
      RevertMicroBlock(rollback);
      checks := checks + 1;
    }

    /** Scans the buffer from the back for the rollback's id. */
    method RevertBlock(rollback: Event)
      modifies this`queue
      ensures queue == match LastKeep(old(queue), rollback.id)
                       case Some(k) => old(queue)[..k]
                       case None => old(queue) + [rollback]
    {
      var i := |queue|;
      assert queue[..i] == queue;
      while i > 0
        invariant 0 <= i <= |queue| && queue == old(queue)
        invariant LastKeep(queue, rollback.id) == LastKeep(queue[..i], rollback.id)
      {
        assert queue[..i][..i - 1] == queue[..i - 1];
        if queue[i - 1].id == rollback.id {
          queue := queue[..i];
          return;
        }
        i := i - 1;
      }
      queue := queue + [rollback];
    }

    method RevertMicroBlocks(micros: seq<Event>)
      modifies this`queue
      ensures queue == RevertMicros(old(queue), micros)
    {
      for i := 0 to |micros|
        invariant queue == RevertMicros(old(queue), micros[..i])
      {
        assert micros[..i + 1][..i] == micros[..i];
        RevertMicroBlock(micros[i]);
      }
      assert micros[..|micros|] == micros;
    }

    method RevertKeyBlocks(blocks: seq<Event>)
      modifies this`queue
      ensures queue == RevertBlocks(old(queue), blocks)
    {
      for i := 0 to |blocks|
        invariant queue == RevertBlocks(old(queue), blocks[..i])
      {
        assert blocks[..i + 1][..i] == blocks[..i];
        if |queue| > 0 && queue[|queue| - 1].IsAppend() {
          RevertBlock(blocks[i]);
        } else {
          queue := queue + [blocks[i]];
        }
      }
      assert blocks[..|blocks|] == blocks;
    }

    method RollbackBlock(micros: seq<Event>, blocks: seq<Event>)
      modifies this
      ensures View() == Next(maxQueueSize, old(View()), Step.RollbackBlock(micros, blocks))
    {
      log := log + micros + blocks;
      RevertMicroBlocks(micros);
      RevertKeyBlocks(blocks);
      checks := checks + 1;
    }

    method Shutdown()
      modifies this
      ensures View() == Next(maxQueueSize, old(View()), Step.Shutdown)
    {
      cancelled := true;
      queue := [];
      completed := true;
    }

    /** One `sendUpdate` call running without interruption: its two reads, and the task if both allow it. */
    method SendUpdate()
      requires checks > 0
      modifies this
      ensures var read := Next(maxQueueSize, old(View()), ReadQueue);
              View() == if old(queue) == [] then read else Next(maxQueueSize, read, ReadFlags)
    {
      checks := checks - 1;
      if queue != [] && !subscription.Waiting? && !cancelled {
        tasks := tasks + 1;
      }
    }

    method RunTask()
      requires tasks > 0
      modifies this
      ensures View() == Next(maxQueueSize, old(View()), Step.RunTask)
    {
      tasks := tasks - 1;
      if queue != [] {
        var v := queue[0];
        queue := queue[1..];
        acks := acks + 1;
        if !completed {
          delivered := delivered + [v];
        }
      }
    }

    method OnAck(goOn: bool)
      requires acks > 0
      modifies this
      ensures View() == Next(maxQueueSize, old(View()), Acknowledge(goOn))
    {
      acks := acks - 1;
      if goOn {
        checks := checks + 1;
      } else {
        stopped := true;
      }
    }

    method OnSubscription()
      requires !subscription.Waiting? && callback
      modifies this
      ensures View() == Next(maxQueueSize, old(View()), SubscriptionCallback)
    {
      callback := false;
      if subscription.Accepted? {
        checks := checks + 1;
      } else {
        cancelled := true;
      }
    }
  }
}
