/** What ends a subscription, and how much a handler sends: in every run, whatever the interleaving. */
module HandlerLimits {
  import opened ChainEvents
  import opened Compaction
  import opened EventHandler

  // ----- What ends a subscription

  /** A step that finds the buffer full, or a shutdown. */
  ghost predicate Ends(maxQueueSize: nat, s: State, step: Step) {
    step.Shutdown? || (step.Update? && |s.queue| >= maxQueueSize)
  }

  /** A step that learns that the subscription was not accepted. */
  ghost predicate Refuses(s: State, step: Step) { step.SubscriptionCallback? && s.subscription.Refused? }

  lemma StepEnds(maxQueueSize: nat, s: State, step: Step)
    requires Enabled(s, step)
    ensures var t := Next(maxQueueSize, s, step);
            && (t.completed <==> s.completed || Ends(maxQueueSize, s, step))
            && (t.cancelled <==> s.cancelled || Ends(maxQueueSize, s, step) || Refuses(s, step))
            && (Ends(maxQueueSize, s, step) ==> t.queue == [])
  {
    hide RevertMicro, RevertMicros, RevertBlocks;
  }

  lemma StepOf(parent: Id -> Id, base: Chain, maxQueueSize: nat, liquid: seq<Event>, steps: seq<Step>, states: seq<State>, i: nat)
    requires IsRun(parent, base, maxQueueSize, liquid, steps, states) && i < |steps|
    ensures Takes(maxQueueSize, steps, states, i)
  {
    assert StepAt(parent, base, maxQueueSize, steps, states, i);
  }

  /** A subject is completed exactly by a shutdown or by an update that finds the buffer full; a subscription is cancelled by
    * these, or when it turns out not to be accepted, and by nothing else.
    */
  lemma {:induction false} EndedExactly(parent: Id -> Id, base: Chain, maxQueueSize: nat, liquid: seq<Event>,
                                        steps: seq<Step>, states: seq<State>, i: nat)
    requires IsRun(parent, base, maxQueueSize, liquid, steps, states) && i < |states|
    ensures states[i].completed <==> exists j :: 0 <= j < i && Ends(maxQueueSize, states[j], steps[j])
    ensures states[i].cancelled <==>
            exists j :: 0 <= j < i && (Ends(maxQueueSize, states[j], steps[j]) || Refuses(states[j], steps[j]))
    decreases i
  {
    if i > 0 {
      EndedExactly(parent, base, maxQueueSize, liquid, steps, states, i - 1);
      StepOf(parent, base, maxQueueSize, liquid, steps, states, i - 1);
      hide IsRun, Next, Ends, Refuses;
      StepEnds(maxQueueSize, states[i - 1], steps[i - 1]);
    }
  }

  /** And then nothing is left in the buffer. */
  lemma EndedCleared(parent: Id -> Id, base: Chain, maxQueueSize: nat, liquid: seq<Event>,
                     steps: seq<Step>, states: seq<State>, i: nat)
    requires IsRun(parent, base, maxQueueSize, liquid, steps, states) && i < |steps| && Ends(maxQueueSize, states[i], steps[i])
    ensures states[i + 1].queue == [] && states[i + 1].completed && states[i + 1].cancelled
  {
    StepOf(parent, base, maxQueueSize, liquid, steps, states, i);
    hide IsRun, Next, Ends;
    StepEnds(maxQueueSize, states[i], steps[i]);
  }

  /** An update that finds room is buffered behind everything else, and asks for a send. */
  lemma UpdateBuffered(parent: Id -> Id, base: Chain, maxQueueSize: nat, liquid: seq<Event>,
                       steps: seq<Step>, states: seq<State>, i: nat)
    requires IsRun(parent, base, maxQueueSize, liquid, steps, states) && i < |steps|
    requires steps[i].Update? && |states[i].queue| < maxQueueSize
    ensures states[i + 1].queue == states[i].queue + [steps[i].event] && states[i + 1].checks == states[i].checks + 1
    ensures states[i + 1].delivered == states[i].delivered
  {
    StepOf(parent, base, maxQueueSize, liquid, steps, states, i);
    hide IsRun;
  }

  // ----- How much is sent

  /** A step after which the handler looks at the buffer once more. */
  predicate Asks(s: State, step: Step) {
    step.Update? || step.RollbackMicroBlock? || step.RollbackBlock? || (step.Acknowledge? && step.goOn)
    || (step.SubscriptionCallback? && s.subscription.Accepted?)
  }

  function Asked(steps: seq<Step>, states: seq<State>, from: nat, until: nat): nat
    requires from <= until <= |steps| < |states|
    decreases until
  {
    if from == until then 0 else Asked(steps, states, from, until - 1) + if Asks(states[until - 1], steps[until - 1]) then 1 else 0
  }

  /** Sends on their way. */
  function Outstanding(s: State): nat { s.checks + s.confirmed + s.tasks }

  lemma StepSends(maxQueueSize: nat, s: State, step: Step)
    requires Enabled(s, step)
    ensures var t := Next(maxQueueSize, s, step);
            |t.delivered| + Outstanding(t) <= |s.delivered| + Outstanding(s) + if Asks(s, step) then 1 else 0
    ensures var t := Next(maxQueueSize, s, step);
            s.cancelled ==> t.cancelled && |t.delivered| + t.tasks <= |s.delivered| + s.tasks
  {
    hide RevertMicro, RevertMicros, RevertBlocks;
  }

  /** Between any two states of a run, no more is delivered than was on its way at first and was asked for since: each report
    * of the node, each Continue and the accepted subscription asks for one event. So a Stop alone asks for nothing.
    */
  lemma {:induction false} SendsAsked(parent: Id -> Id, base: Chain, maxQueueSize: nat, liquid: seq<Event>,
                                      steps: seq<Step>, states: seq<State>, from: nat, until: nat)
    requires IsRun(parent, base, maxQueueSize, liquid, steps, states) && from <= until <= |steps|
    ensures |states| == |steps| + 1
    ensures |states[until].delivered| + Outstanding(states[until])
         <= |states[from].delivered| + Outstanding(states[from]) + Asked(steps, states, from, until)
    decreases until
  {
    if from < until {
      SendsAsked(parent, base, maxQueueSize, liquid, steps, states, from, until - 1);
      StepOf(parent, base, maxQueueSize, liquid, steps, states, until - 1);
      hide IsRun, Next, Asks;
      StepSends(maxQueueSize, states[until - 1], steps[until - 1]);
    }
  }

  /** Once a subscription is cancelled, only sends already scheduled go out. */
  lemma {:induction false} CancelledRunsOut(parent: Id -> Id, base: Chain, maxQueueSize: nat, liquid: seq<Event>,
                                            steps: seq<Step>, states: seq<State>, from: nat, until: nat)
    requires IsRun(parent, base, maxQueueSize, liquid, steps, states) && from <= until <= |steps| && states[from].cancelled
    ensures |states| == |steps| + 1 && states[until].cancelled
    ensures |states[until].delivered| + states[until].tasks <= |states[from].delivered| + states[from].tasks
    decreases until
  {
    if from < until {
      CancelledRunsOut(parent, base, maxQueueSize, liquid, steps, states, from, until - 1);
      StepOf(parent, base, maxQueueSize, liquid, steps, states, until - 1);
      hide IsRun, Next, Asks;
      StepSends(maxQueueSize, states[until - 1], steps[until - 1]);
    }
  }

  lemma StepSilent(maxQueueSize: nat, s: State, step: Step)
    requires Enabled(s, step)
    ensures s.completed || step != RunTask || s.queue == [] ==> Next(maxQueueSize, s, step).delivered == s.delivered
    ensures !s.completed && step == RunTask && s.queue != [] ==>
              var t := Next(maxQueueSize, s, step); t.delivered + t.queue == s.delivered + s.queue && |t.delivered| == |s.delivered| + 1
  {
    hide RevertMicro, RevertMicros, RevertBlocks;
  }

  /** Nothing but a task delivers: the first buffered event, one at a time, in order, and none once the subject is completed. */
  lemma SendsInOrder(parent: Id -> Id, base: Chain, maxQueueSize: nat, liquid: seq<Event>,
                     steps: seq<Step>, states: seq<State>, i: nat)
    requires IsRun(parent, base, maxQueueSize, liquid, steps, states) && i < |steps|
    ensures var s, t := states[i], states[i + 1];
            if steps[i] == RunTask && s.queue != [] && !s.completed
            then t.delivered + t.queue == s.delivered + s.queue && |t.delivered| == |s.delivered| + 1
            else t.delivered == s.delivered
  {
    StepOf(parent, base, maxQueueSize, liquid, steps, states, i);
    hide IsRun, Next;
    StepSilent(maxQueueSize, states[i], steps[i]);
  }
}
