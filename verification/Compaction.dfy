/** How the handler's buffer absorbs a rollback: it cuts the buffer back where it can, and buffers the rollback only
  * when the target was already sent. The subscriber must not be able to tell.
  */
module Compaction {
  import opened Wrappers
  import opened ChainEvents

  // ----- The buffer after each kind of rollback

  /** How much of the buffer one event says to keep for a micro-block rollback, if it is a match at all. */
  function Keep(e: Event, i: nat, rollback: Event): Option<nat> {
    match e
    case BlockAppended(id, _) => if id == rollback.id then Some(i + 1) else None
    case MicroBlockAppended(id, _) =>
      if id == rollback.id then Some(i + 1) else if e.References(rollback) then Some(i) else None
    case _ => None
  }

  /** The keep count of the first match from `from` on. */
  function FirstKeep(queue: seq<Event>, rollback: Event, from: nat): (keep: Option<nat>)
    requires from <= |queue|
    ensures keep.Some? ==>
              exists i :: from <= i < |queue| && Keep(queue[i], i, rollback) == keep && keep.value <= |queue|
    decreases |queue| - from
  {
    if from == |queue| then None
    else if Keep(queue[from], from, rollback).Some? then Keep(queue[from], from, rollback)
    else FirstKeep(queue, rollback, from + 1)
  }

  function RevertMicro(queue: seq<Event>, rollback: Event): seq<Event> {
    match FirstKeep(queue, rollback, 0)
    case Some(k) => queue[..k]
    case None => queue + [rollback]
  }

  /** One past the last buffered event carrying `id`, whatever its kind. */
  function LastKeep(queue: seq<Event>, id: Id): (keep: Option<nat>)
    ensures keep.Some? ==> 0 < keep.value <= |queue| && queue[keep.value - 1].id == id
  {
    if queue == [] then None
    else if queue[|queue| - 1].id == id then Some(|queue|)
    else LastKeep(queue[..|queue| - 1], id)
  }

  function RevertBlock(queue: seq<Event>, rollback: Event): seq<Event> {
    if queue != [] && queue[|queue| - 1].IsAppend() then
      match LastKeep(queue, rollback.id)
      case Some(k) => queue[..k]
      case None => queue + [rollback]
    else
      queue + [rollback]
  }

  function RevertMicros(queue: seq<Event>, rollbacks: seq<Event>): seq<Event> {
    if rollbacks == [] then queue
    else RevertMicro(RevertMicros(queue, rollbacks[..|rollbacks| - 1]), rollbacks[|rollbacks| - 1])
  }

  function RevertBlocks(queue: seq<Event>, rollbacks: seq<Event>): seq<Event> {
    if rollbacks == [] then queue
    else RevertBlock(RevertBlocks(queue, rollbacks[..|rollbacks| - 1]), rollbacks[|rollbacks| - 1])
  }

  // ----- Where the buffer is cut

  /** A buffered event that a microblock rollback looks for: the target itself, or a microblock on top of it. */
  ghost predicate Stops(e: Event, rollback: Event) {
    (e.IsAppend() && e.id == rollback.id) || (e.MicroBlockAppended? && e.reference == rollback.id)
  }

  /** The first such event from `from` on. */
  ghost predicate FirstStop(queue: seq<Event>, rollback: Event, from: nat, i: nat) {
    from <= i < |queue| && Stops(queue[i], rollback) && forall j :: from <= j < i ==> !Stops(queue[j], rollback)
  }

  lemma {:induction false} NoStop(queue: seq<Event>, rollback: Event, from: nat)
    requires from <= |queue|
    ensures FirstKeep(queue, rollback, from).None? <==> forall j :: from <= j < |queue| ==> !Stops(queue[j], rollback)
    decreases |queue| - from
  {
    if from < |queue| {
      NoStop(queue, rollback, from + 1);
    }
  }

  lemma {:induction false} KeepAtStop(queue: seq<Event>, rollback: Event, from: nat, i: nat)
    requires FirstStop(queue, rollback, from, i)
    ensures FirstKeep(queue, rollback, from) == Some(if queue[i].id == rollback.id then i + 1 else i)
    decreases i - from
  {
    if from < i {
      assert !Stops(queue[from], rollback);
      KeepAtStop(queue, rollback, from + 1, i);
    }
  }

  /** A microblock rollback shortens the buffer exactly if its target or a microblock on top of that is buffered: it is cut
    * after the target, or before the microblock, whichever comes first. Otherwise the rollback is buffered behind the rest.
    */
  lemma RevertMicroExactly(queue: seq<Event>, rollback: Event, i: nat)
    ensures RevertMicro(queue, rollback) <= queue <==> exists j :: 0 <= j < |queue| && Stops(queue[j], rollback)
    ensures FirstStop(queue, rollback, 0, i) ==>
              RevertMicro(queue, rollback) == if queue[i].id == rollback.id then queue[..i + 1] else queue[..i]
    ensures !(RevertMicro(queue, rollback) <= queue) ==> RevertMicro(queue, rollback) == queue + [rollback]
  {
    NoStop(queue, rollback, 0);
    if FirstStop(queue, rollback, 0, i) {
      KeepAtStop(queue, rollback, 0, i);
    }
    hide FirstKeep, Stops;
  }

  ghost predicate LastWith(queue: seq<Event>, id: Id, i: nat) {
    i < |queue| && queue[i].id == id && forall j :: i < j < |queue| ==> queue[j].id != id
  }

  lemma {:induction false} KeepLast(queue: seq<Event>, id: Id, i: nat)
    ensures LastKeep(queue, id).None? <==> forall j :: 0 <= j < |queue| ==> queue[j].id != id
    ensures LastWith(queue, id, i) ==> LastKeep(queue, id) == Some(i + 1)
    decreases |queue|
  {
    if queue != [] {
      var n := |queue| - 1;
      KeepLast(queue[..n], id, i);
      assert forall j :: 0 <= j < n ==> queue[..n][j] == queue[j];
    }
  }

  /** A block rollback cuts the buffer, or leaves it, exactly if the last buffered event is an append and some event carries
    * the rollback's id: it is cut after the last of those. Otherwise the rollback is buffered behind the rest.
    */
  lemma RevertBlockExactly(queue: seq<Event>, rollback: Event, i: nat)
    ensures RevertBlock(queue, rollback) <= queue <==>
            queue != [] && queue[|queue| - 1].IsAppend() && exists j :: 0 <= j < |queue| && queue[j].id == rollback.id
    ensures LastWith(queue, rollback.id, i) && queue[|queue| - 1].IsAppend() ==> RevertBlock(queue, rollback) == queue[..i + 1]
    ensures !(RevertBlock(queue, rollback) <= queue) ==> RevertBlock(queue, rollback) == queue + [rollback]
  {
    KeepLast(queue, rollback.id, i);
    hide LastKeep;
  }

  // ----- Compaction is invisible

  /** What was sent, followed by the buffer, does to the subscriber what the full log does. */
  ghost predicate Faithful(parent: Id -> Id, base: Chain, sent: seq<Event>, queue: seq<Event>, log: seq<Event>) {
    && Linked(parent, base)
    && Consistent(parent, log) && Consistent(parent, sent + queue)
    && Run(base, log).Some?
    && Run(base, sent + queue) == Run(base, log)
  }

  /** The log may go on with these events. */
  ghost predicate MayFollow(parent: Id -> Id, base: Chain, log: seq<Event>, events: seq<Event>) {
    Consistent(parent, log + events) && Run(base, log + events).Some?
  }

  lemma AppendKeepsFaithful(parent: Id -> Id, base: Chain, sent: seq<Event>, queue: seq<Event>, log: seq<Event>,
                            e: Event)
    requires Faithful(parent, base, sent, queue, log) && MayFollow(parent, base, log, [e])
    ensures Faithful(parent, base, sent, queue + [e], log + [e])
  {
    assert sent + (queue + [e]) == (sent + queue) + [e];
    RunSnoc(base, log, e);
    RunSnoc(base, sent + queue, e);
    assert e in log + [e];
  }

  /** Cutting the buffer anywhere the tip is the rollback's id does what the rollback does. */
  lemma CutKeepsFaithful(parent: Id -> Id, base: Chain, sent: seq<Event>, queue: seq<Event>, log: seq<Event>,
                         rollback: Event, k: nat)
    requires Faithful(parent, base, sent, queue, log) && MayFollow(parent, base, log, [rollback])
    requires !rollback.IsAppend() && k <= |queue|
    requires var kept := Run(base, (sent + queue)[..|sent| + k]);
             kept.Some? && kept.value != [] && Tip(kept.value) == rollback.id
    ensures Faithful(parent, base, sent, queue[..k], log + [rollback])
  {
    assert (sent + queue)[..|sent| + k] == sent + queue[..k];
    assert Consistent(parent, sent + queue[..k]) by {
      assert forall e :: e in sent + queue[..k] ==> e in sent + queue;
    }
    EventIsTip(base, log + [rollback]);
    RunsAgree(parent, base, sent + queue[..k], log + [rollback]);
  }

  /** The tip where a match says to cut. */
  lemma KeepReachesTarget(base: Chain, sent: seq<Event>, queue: seq<Event>, rollback: Event, i: nat)
    requires Run(base, sent + queue).Some? && i < |queue| && Keep(queue[i], i, rollback).Some?
    ensures var kept := Run(base, (sent + queue)[..|sent| + Keep(queue[i], i, rollback).value]);
            kept.Some? && kept.value != [] && Tip(kept.value) == rollback.id
  {
    var all := sent + queue;
    var n := |sent| + i;
    RunPrefix(base, all, n + 1);
    assert all[..n + 1][..n] == all[..n] && all[..n + 1][n] == queue[i];
    EventIsTip(base, all[..n + 1]);
  }

  lemma {:induction false} RevertMicroFaithful(parent: Id -> Id, base: Chain, sent: seq<Event>, queue: seq<Event>,
                                               log: seq<Event>, rollback: Event)
    requires Faithful(parent, base, sent, queue, log) && MayFollow(parent, base, log, [rollback])
    requires !rollback.IsAppend()
    ensures Faithful(parent, base, sent, RevertMicro(queue, rollback), log + [rollback])
  {
    match FirstKeep(queue, rollback, 0)
    case Some(k) =>
      var i :| 0 <= i < |queue| && Keep(queue[i], i, rollback) == Some(k);
      KeepReachesTarget(base, sent, queue, rollback, i);
      CutKeepsFaithful(parent, base, sent, queue, log, rollback, k);
    case None =>
      AppendKeepsFaithful(parent, base, sent, queue, log, rollback);
  }

  lemma {:induction false} RevertBlockFaithful(parent: Id -> Id, base: Chain, sent: seq<Event>, queue: seq<Event>,
                                               log: seq<Event>, rollback: Event)
    requires Faithful(parent, base, sent, queue, log) && MayFollow(parent, base, log, [rollback])
    requires !rollback.IsAppend()
    ensures Faithful(parent, base, sent, RevertBlock(queue, rollback), log + [rollback])
  {
    hide Apply, Linked, Consistent, Run, Faithful, MayFollow;
    if queue != [] && queue[|queue| - 1].IsAppend() && LastKeep(queue, rollback.id).Some? {
      var k := LastKeep(queue, rollback.id).value;
      LastReachesTarget(parent, base, sent, queue, log, rollback, k);
      CutKeepsFaithful(parent, base, sent, queue, log, rollback, k);
    } else {
      AppendKeepsFaithful(parent, base, sent, queue, log, rollback);
    }
  }

  lemma LastReachesTarget(parent: Id -> Id, base: Chain, sent: seq<Event>, queue: seq<Event>, log: seq<Event>, rollback: Event, k: nat)
    requires Faithful(parent, base, sent, queue, log) && 0 < k <= |queue| && queue[k - 1].id == rollback.id
    ensures var kept := Run(base, (sent + queue)[..|sent| + k]);
            kept.Some? && kept.value != [] && Tip(kept.value) == rollback.id
  {
    hide Apply, Linked, Consistent, Run;
    var all := sent + queue;
    assert all[..|sent| + k][|sent| + k - 1] == queue[k - 1];
    RunPrefix(base, all, |sent| + k);
    EventIsTip(base, all[..|sent| + k]);
  }

  lemma MayFollowSplit(parent: Id -> Id, base: Chain, log: seq<Event>, events: seq<Event>, k: nat)
    requires k <= |events| && MayFollow(parent, base, log, events)
    ensures MayFollow(parent, base, log, events[..k])
    ensures MayFollow(parent, base, log + events[..k], events[k..])
  {
    var all := log + events;
    assert all[..|log| + k] == log + events[..k];
    assert (log + events[..k]) + events[k..] == all;
    RunPrefix(base, all, |log| + k);
    assert forall e :: e in log + events[..k] ==> e in all;
  }

  lemma {:induction false} RevertMicrosFaithful(parent: Id -> Id, base: Chain, sent: seq<Event>, queue: seq<Event>,
                                                log: seq<Event>, rollbacks: seq<Event>)
    requires Faithful(parent, base, sent, queue, log) && MayFollow(parent, base, log, rollbacks)
    requires forall r :: r in rollbacks ==> !r.IsAppend()
    ensures Faithful(parent, base, sent, RevertMicros(queue, rollbacks), log + rollbacks)
  {
    if rollbacks == [] {
      assert log + rollbacks == log;
    } else {
      var n := |rollbacks| - 1;
      MayFollowSplit(parent, base, log, rollbacks, n);
      RevertMicrosFaithful(parent, base, sent, queue, log, rollbacks[..n]);
      assert rollbacks[n..] == [rollbacks[n]] && (log + rollbacks[..n]) + [rollbacks[n]] == log + rollbacks;
      RevertMicroFaithful(parent, base, sent, RevertMicros(queue, rollbacks[..n]), log + rollbacks[..n], rollbacks[n]);
    }
  }

  lemma {:induction false} RevertBlocksFaithful(parent: Id -> Id, base: Chain, sent: seq<Event>, queue: seq<Event>,
                                                log: seq<Event>, rollbacks: seq<Event>)
    requires Faithful(parent, base, sent, queue, log) && MayFollow(parent, base, log, rollbacks)
    requires forall r :: r in rollbacks ==> !r.IsAppend()
    ensures Faithful(parent, base, sent, RevertBlocks(queue, rollbacks), log + rollbacks)
  {
    if rollbacks == [] {
      assert log + rollbacks == log;
    } else {
      var n := |rollbacks| - 1;
      MayFollowSplit(parent, base, log, rollbacks, n);
      RevertBlocksFaithful(parent, base, sent, queue, log, rollbacks[..n]);
      assert rollbacks[n..] == [rollbacks[n]] && (log + rollbacks[..n]) + [rollbacks[n]] == log + rollbacks;
      RevertBlockFaithful(parent, base, sent, RevertBlocks(queue, rollbacks[..n]), log + rollbacks[..n], rollbacks[n]);
    }
  }
}
