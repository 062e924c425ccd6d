/** What a BlockchainUpdates subscriber does with the events it receives.
  *
  * A subscriber keeps a chain of ids, the oldest first. An append extends the tip; a rollback names the id that is
  * the tip afterwards. Ids are hashes over the parent's id, so an id fixes its ancestry: `parent` stands for that
  * function, and every append on the stream names its reference accordingly.
  */
module ChainEvents {
  import opened Wrappers

  type Id = nat
  type Chain = seq<Id>

  datatype Event =
    | BlockAppended(id: Id, reference: Id)
    | MicroBlockAppended(id: Id, reference: Id)
    | RollbackCompleted(id: Id)
    | MicroBlockRollbackCompleted(id: Id)
  {
    predicate IsAppend() { BlockAppended? || MicroBlockAppended? }

    predicate References(other: Event) { IsAppend() && reference == other.id }
  }

  function Tip(chain: Chain): Id
    requires chain != []
  {
    chain[|chain| - 1]
  }

  /** The part of the chain up to and including `id`. */
  function Upto(chain: Chain, id: Id): (prefix: Chain)
    requires id in chain
    ensures prefix != [] && prefix <= chain && Tip(prefix) == id
  {
    if Tip(chain) == id then chain else Upto(chain[..|chain| - 1], id)
  }

  /** One event on the subscriber's chain; None when the event does not fit the chain. */
  function Apply(chain: Chain, e: Event): Option<Chain> {
    if e.IsAppend() then
      if chain != [] && Tip(chain) == e.reference && e.id !in chain then Some(chain + [e.id]) else None
    else if e.id in chain then Some(Upto(chain, e.id))
    else None
  }

  /** A whole run of events; None as soon as one of them does not fit. */
  function Run(base: Chain, events: seq<Event>): Option<Chain> {
    if events == [] then Some(base)
    else
      match Run(base, events[..|events| - 1])
      case Some(chain) => Apply(chain, events[|events| - 1])
      case None => None
  }

  lemma RunSnoc(base: Chain, events: seq<Event>, e: Event)
    ensures Run(base, events + [e]) ==
            match Run(base, events) case Some(chain) => Apply(chain, e) case None => None
  {
    assert (events + [e])[..|events|] == events;
  }

  lemma {:induction false} RunConcat(base: Chain, before: seq<Event>, after: seq<Event>)
    ensures Run(base, before + after) ==
            match Run(base, before) case Some(chain) => Run(chain, after) case None => None
  {
    if after == [] {
      assert before + after == before;
    } else {
      var n := |after| - 1;
      RunConcat(base, before, after[..n]);
      assert before + after == (before + after[..n]) + [after[n]];
      RunSnoc(base, before + after[..n], after[n]);
    }
  }

  /** A run that fits as a whole fits at every point on the way. */
  lemma {:induction false} RunPrefix(base: Chain, events: seq<Event>, k: nat)
    requires k <= |events| && Run(base, events).Some?
    ensures Run(base, events[..k]).Some?
  {
    assert events == events[..k] + events[k..];
    RunConcat(base, events[..k], events[k..]);
  }

  /** After an event, its id is the tip. */
  lemma EventIsTip(base: Chain, events: seq<Event>)
    requires events != [] && Run(base, events).Some?
    ensures Run(base, events).value != []
    ensures Tip(Run(base, events).value) == events[|events| - 1].id
  {
  }

  // ----- An id fixes its ancestry

  /** A chain as hashing builds it: each id's parent is the one before it, and no id repeats. */
  ghost predicate Linked(parent: Id -> Id, chain: Chain) {
    && chain != []
    && (forall i :: 0 < i < |chain| ==> parent(chain[i]) == chain[i - 1])
    && (forall i, j :: 0 <= i < j < |chain| ==> chain[i] != chain[j])
  }

  ghost predicate Consistent(parent: Id -> Id, events: seq<Event>) {
    forall e :: e in events && e.IsAppend() ==> e.reference == parent(e.id)
  }

  lemma {:induction false} RunLinked(parent: Id -> Id, base: Chain, events: seq<Event>)
    requires Linked(parent, base) && Consistent(parent, events) && Run(base, events).Some?
    ensures Linked(parent, Run(base, events).value) && Run(base, events).value[0] == base[0]
  {
    if events != [] {
      var n := |events| - 1;
      assert events[n] in events;
      RunLinked(parent, base, events[..n]);
    }
  }

  /** Two chains over the same genesis with the same tip are the same chain. */
  lemma {:induction false} TipFixesChain(parent: Id -> Id, a: Chain, b: Chain)
    requires Linked(parent, a) && Linked(parent, b)
    requires a[0] == b[0] && Tip(a) == Tip(b)
    ensures a == b
  {
    var m, n := |a| - 1, |b| - 1;
    if m == 0 || n == 0 {
      assert m == n;
    } else {
      TipFixesChain(parent, a[..m], b[..n]);
      assert a == a[..m] + [a[m]] && b == b[..n] + [b[n]];
    }
  }

  /** Two runs that end at the same tip leave the subscriber with the same chain. */
  lemma RunsAgree(parent: Id -> Id, base: Chain, one: seq<Event>, two: seq<Event>)
    requires Linked(parent, base) && Consistent(parent, one) && Consistent(parent, two)
    requires Run(base, one).Some? && Run(base, two).Some?
    requires Run(base, one).value != [] && Run(base, two).value != []
    requires Tip(Run(base, one).value) == Tip(Run(base, two).value)
    ensures Run(base, one) == Run(base, two)
  {
    RunLinked(parent, base, one);
    RunLinked(parent, base, two);
    TipFixesChain(parent, Run(base, one).value, Run(base, two).value);
  }
}
