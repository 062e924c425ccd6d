/** The due index beside the pending withdrawals: which triples to look at when a payout height comes.
  *
  * A request block puts an entry at the payout height, the payout block takes it out, and a rollback undoes either,
  * told apart by the value the block wrote. The reference is the log of what each block wrote to the pending ledger.
  */
module WithdrawalIndex {
  import opened Wrappers
  import opened Periods
  import opened KeyedHistory
  import opened Ledger

  type Requests = map<Triple, Option<PendingWithdrawal>>
  datatype Due = Due(payoutAt: Height, triple: Triple)

  // ----- The index as the storage layer keeps it

  function RequestedBy(entries: Requests): set<Due> {
    set t | t in entries && entries[t].Some? :: Due(entries[t].value.payoutAt, t)
  }

  function ClearedBy(entries: Requests, h: Height): set<Due> {
    set t | t in entries && entries[t].None? :: Due(h, t)
  }

  function IndexAppend(due: set<Due>, h: Height, entries: Requests): set<Due> {
    due + RequestedBy(entries) - ClearedBy(entries, h)
  }

  function IndexRollback(due: set<Due>, h: Height, entries: Requests): set<Due> {
    due - RequestedBy(entries) + ClearedBy(entries, h)
  }

  lemma OneMoreRequest(due: set<Due>, h: Height, part: Requests, t: Triple, request: Option<PendingWithdrawal>)
    requires t !in part
    ensures IndexAppend(due, h, part[t := request]) ==
            if request.Some? then IndexAppend(due, h, part) + {Due(request.value.payoutAt, t)}
            else IndexAppend(due, h, part) - {Due(h, t)}
    ensures IndexRollback(due, h, part[t := request]) ==
            if request.Some? then IndexRollback(due, h, part) - {Due(request.value.payoutAt, t)}
            else IndexRollback(due, h, part) + {Due(h, t)}
  {
    var longer := part[t := request];
    assert RequestedBy(longer) == RequestedBy(part) + if request.Some? then {Due(request.value.payoutAt, t)} else {} by {
      forall x | x in longer ensures x == t || (x in part && longer[x] == part[x]) {
      }
    }
    assert ClearedBy(longer, h) == ClearedBy(part, h) + if request.None? then {Due(h, t)} else {};
  }

  /** The index writes of a block: an entry for a request, none any more for an answered one. */
  method PutDue(due: set<Due>, h: Height, entries: Requests) returns (after: set<Due>)
    ensures after == IndexAppend(due, h, entries)
  {
    var left := entries.Keys;
    ghost var done: Requests := map[];
    after := due;
    hide IndexAppend;
    assert IndexAppend(due, h, map[]) == due by { NothingPut(due, h); }
    while left != {}
      invariant left <= entries.Keys && done.Keys == entries.Keys - left && (forall t :: t in done ==> done[t] == entries[t])
      invariant after == IndexAppend(due, h, done)
      decreases left
    {
      var t :| t in left;
      OneMoreRequest(due, h, done, t, entries[t]);
      after := if entries[t].Some? then after + {Due(entries[t].value.payoutAt, t)} else after - {Due(h, t)};
      done, left := done[t := entries[t]], left - {t};
    }
    assert done == entries;
  }

  lemma NothingPut(due: set<Due>, h: Height)
    ensures IndexAppend(due, h, map[]) == due && IndexRollback(due, h, map[]) == due
  {
  }

  /** And their undoing, told apart by what the block wrote. */
  method UndoDue(due: set<Due>, h: Height, entries: Requests) returns (after: set<Due>)
    ensures after == IndexRollback(due, h, entries)
  {
    var left := entries.Keys;
    ghost var done: Requests := map[];
    after := due;
    hide IndexRollback;
    assert IndexRollback(due, h, map[]) == due by { NothingPut(due, h); }
    while left != {}
      invariant left <= entries.Keys && done.Keys == entries.Keys - left && (forall t :: t in done ==> done[t] == entries[t])
      invariant after == IndexRollback(due, h, done)
      decreases left
    {
      var t :| t in left;
      OneMoreRequest(due, h, done, t, entries[t]);
      after := if entries[t].Some? then after - {Due(entries[t].value.payoutAt, t)} else after + {Due(h, t)};
      done, left := done[t := entries[t]], left - {t};
    }
    assert done == entries;
  }

  // ----- What blocks may write

  function PendingBy(log: seq<Requests>, t: Triple): Option<PendingWithdrawal> {
    match Latest(log, t)
    case Some(p) => p
    case None => None
  }

  predicate DueAt(log: seq<Requests>, t: Triple, h: Height) {
    PendingBy(log, t).Some? && PendingBy(log, t).value.payoutAt == h
  }

  /** A block at height |log| + 1 answers every request due at it, clears nothing else, and files a new request only
    * where none is pending or the pending one has just been paid.
    */
  ghost predicate MayWrite(log: seq<Requests>, length: nat, entries: Requests)
    requires length > 0
  {
    var h := |log| + 1;
    && (forall t :: DueAt(log, t, h) ==> t in entries)
    && (forall t :: t in entries && entries[t].None? ==> DueAt(log, t, h))
    && (forall t :: t in entries && entries[t].Some? ==>
          && entries[t].value.payoutAt == PayoutHeight(h, length)
          && (PendingBy(log, t).None? || DueAt(log, t, h)))
  }

  ghost predicate Shaped(log: seq<Requests>, length: nat)
    requires length > 0
  {
    forall i :: 0 <= i < |log| ==> WrittenAt(log, length, i)
  }

  ghost predicate WrittenAt(log: seq<Requests>, length: nat, i: nat)
    requires length > 0 && i < |log|
  {
    MayWrite(log[..i], length, log[i])
  }

  lemma ShapedPrefix(log: seq<Requests>, length: nat, n: nat)
    requires length > 0 && Shaped(log, length) && n <= |log|
    ensures Shaped(log[..n], length)
  {
    forall i | 0 <= i < n ensures WrittenAt(log[..n], length, i) {
      assert WrittenAt(log, length, i);
      assert log[..n][..i] == log[..i];
    }
  }

  lemma ShapedSnoc(log: seq<Requests>, length: nat, entries: Requests)
    requires length > 0 && Shaped(log, length) && MayWrite(log, length, entries)
    ensures Shaped(log + [entries], length)
  {
    var longer := log + [entries];
    forall i | 0 <= i < |longer| ensures WrittenAt(longer, length, i) {
      assert longer[..i] == log[..i];
      if i < |log| {
        assert WrittenAt(log, length, i);
      } else {
        assert log[..i] == log;
      }
    }
  }

  lemma PayoutIsLater(h: Height, length: nat)
    requires length > 0 && h > 0
    ensures h < PayoutHeight(h, length)
    ensures PeriodStart(PayoutHeight(h, length), length) == PayoutHeight(h, length)
  {
    InPeriod(h, length);
    var q := (h - 1) / length;
    assert q * length + length + length == (q + 2) * length;
    DivUnique(PayoutHeight(h, length) - 1, length, q + 2, 0);
  }

  // ----- Requests in the log

  /** Block `r` files a request of `t` for height `h`. */
  predicate Files(log: seq<Requests>, r: Height, t: Triple, h: Height) {
    0 < r <= |log| && t in log[r - 1] && log[r - 1][t].Some? && log[r - 1][t].value.payoutAt == h
  }

  /** A filed request stays the pending one until its payout height: nothing is written over it before. */
  lemma {:induction false} FiledStaysPending(log: seq<Requests>, length: nat, r: Height, t: Triple, h: Height)
    requires length > 0 && Shaped(log, length) && Files(log, r, t, h) && h > |log|
    ensures DueAt(log, t, h) && Latest(log, t) == Some(log[r - 1][t])
  {
    var n := |log| - 1;
    if r <= n {
      ShapedPrefix(log, length, n);
      FiledStaysPending(log[..n], length, r, t, h);
      assert WrittenAt(log, length, n);
    }
  }

  /** What is pending was filed by some block. */
  lemma {:induction false} PendingWasFiled(log: seq<Requests>, t: Triple) returns (r: Height)
    requires PendingBy(log, t).Some?
    ensures Files(log, r, t, PendingBy(log, t).value.payoutAt)
    ensures log[r - 1][t] == PendingBy(log, t)
  {
    var n := |log| - 1;
    if t in log[n] {
      r := |log|;
    } else {
      r := PendingWasFiled(log[..n], t);
    }
  }

  /** Pending requests are for a later height, always a period start. */
  lemma {:induction false} PendingIsAhead(log: seq<Requests>, length: nat, t: Triple)
    requires length > 0 && Shaped(log, length) && PendingBy(log, t).Some?
    ensures PendingBy(log, t).value.payoutAt > |log|
    ensures PeriodStart(PendingBy(log, t).value.payoutAt, length) == PendingBy(log, t).value.payoutAt
  {
    var n := |log| - 1;
    assert WrittenAt(log, length, n);
    if t in log[n] {
      PayoutIsLater(|log|, length);
    } else {
      ShapedPrefix(log, length, n);
      PendingIsAhead(log[..n], length, t);
    }
  }

  // ----- The index against the log

  /** The index holds (h, t) exactly when some block filed it and it has not been cleared: its height is still to
    * come, or the block at that height answered it by filing the next request at once.
    */
  ghost predicate Owed(log: seq<Requests>, h: Height, t: Triple) {
    && (exists r :: Files(log, r, t, h))
    && (0 < h <= |log| ==> t in log[h - 1] && log[h - 1][t].Some?)
  }

  ghost predicate IndexValid(due: set<Due>, log: seq<Requests>) {
    forall h, t :: Due(h, t) in due <==> Owed(log, h, t)
  }

  lemma FilesSnoc(log: seq<Requests>, entries: Requests, r: Height, t: Triple, h: Height)
    ensures Files(log + [entries], r, t, h) <==>
            Files(log, r, t, h) || (r == |log| + 1 && t in entries && entries[t].Some? && entries[t].value.payoutAt == h)
  {
  }

  /** Owed at heights above the tip means pending for that height. */
  lemma OwedAhead(log: seq<Requests>, length: nat, h: Height, t: Triple)
    requires length > 0 && Shaped(log, length) && h > |log|
    ensures Owed(log, h, t) <==> DueAt(log, t, h)
  {
    if Owed(log, h, t) {
      var r: Height :| Files(log, r, t, h);
      FiledStaysPending(log, length, r, t, h);
    } else if DueAt(log, t, h) {
      var r := PendingWasFiled(log, t);
      assert false;
    }
  }

  /** How one block changes what is owed. */
  lemma OwedSnoc(log: seq<Requests>, length: nat, entries: Requests, h: Height, t: Triple)
    requires length > 0 && Shaped(log, length) && MayWrite(log, length, entries)
    ensures Owed(log + [entries], h, t) <==>
            (Owed(log, h, t) || Due(h, t) in RequestedBy(entries)) && Due(h, t) !in ClearedBy(entries, |log| + 1)
    ensures Due(h, t) in RequestedBy(entries) ==> h > |log| + 1 && !Owed(log, h, t)
    ensures Due(h, t) in ClearedBy(entries, |log| + 1) ==> h == |log| + 1 && Owed(log, h, t)
  {
    var tip, longer := |log| + 1, log + [entries];
    PayoutIsLater(tip, length);
    assert Due(h, t) in RequestedBy(entries) <==> Files(longer, tip, t, h);
    assert (exists r :: Files(longer, r, t, h)) <==>
           (exists r :: Files(log, r, t, h)) || Due(h, t) in RequestedBy(entries) by {
      forall r ensures Files(longer, r, t, h) <==>
                       Files(log, r, t, h) || (r == tip && Due(h, t) in RequestedBy(entries)) {
        FilesSnoc(log, entries, r, t, h);
      }
    }
    if h >= tip {
      OwedAhead(log, length, h, t);
    } else {
      assert h > 0 ==> longer[h - 1] == log[h - 1];
    }
  }

  /** Appending a block keeps the index exact. */
  lemma IndexAppendValid(due: set<Due>, log: seq<Requests>, length: nat, entries: Requests)
    requires length > 0 && Shaped(log, length) && MayWrite(log, length, entries) && IndexValid(due, log)
    ensures IndexValid(IndexAppend(due, |log| + 1, entries), log + [entries])
  {
    forall h, t ensures Due(h, t) in IndexAppend(due, |log| + 1, entries) <==> Owed(log + [entries], h, t) {
      OwedSnoc(log, length, entries, h, t);
    }
  }

  /** Rolling a block back keeps the index exact, whichever of a request or a payout the block was. */
  lemma IndexRollbackValid(due: set<Due>, log: seq<Requests>, length: nat, entries: Requests)
    requires length > 0 && Shaped(log, length) && MayWrite(log, length, entries)
    requires IndexValid(due, log + [entries])
    ensures IndexValid(IndexRollback(due, |log| + 1, entries), log)
  {
    forall h, t ensures Due(h, t) in IndexRollback(due, |log| + 1, entries) <==> Owed(log, h, t) {
      OwedSnoc(log, length, entries, h, t);
    }
  }

  // ----- What the index promises

  /** For every height still to come, an entry exists exactly when a pending request has that payout height. */
  lemma IndexAgreesAhead(due: set<Due>, log: seq<Requests>, length: nat, h: Height, t: Triple)
    requires length > 0 && Shaped(log, length) && IndexValid(due, log) && h > |log|
    ensures Due(h, t) in due <==> DueAt(log, t, h)
  {
    OwedAhead(log, length, h, t);
  }

  /** Block `h` paid a request of `t` and carried the next request of `t` itself. */
  ghost predicate PaidAndRefiled(log: seq<Requests>, h: Height, t: Triple) {
    0 < h <= |log| && DueAt(log[..h - 1], t, h) && t in log[h - 1] && log[h - 1][t].Some?
  }

  /** An entry outlives its payout exactly when the paying block carried the triple's next request. */
  lemma StaleEntries(due: set<Due>, log: seq<Requests>, length: nat, h: Height, t: Triple)
    requires length > 0 && Shaped(log, length) && IndexValid(due, log) && h <= |log|
    ensures Due(h, t) in due <==> PaidAndRefiled(log, h, t)
  {
    if Owed(log, h, t) {
      var r: Height :| Files(log, r, t, h);
      assert WrittenAt(log, length, r - 1);
      PayoutIsLater(r, length);
      ShapedPrefix(log, length, h - 1);
      assert Files(log[..h - 1], r, t, h);
      FiledStaysPending(log[..h - 1], length, r, t, h);
    } else if PaidAndRefiled(log, h, t) {
      var r := PendingWasFiled(log[..h - 1], t);
      assert Files(log, r, t, h);
      assert false;
    }
  }

  /** The index agrees with the ledger at every height if and only if no block has carried a new request for a triple
    * it was paying.
    */
  lemma AgreementExactly(due: set<Due>, log: seq<Requests>, length: nat)
    requires length > 0 && Shaped(log, length) && IndexValid(due, log)
    ensures (forall h, t :: Due(h, t) in due <==> DueAt(log, t, h)) <==>
            (forall h, t :: !PaidAndRefiled(log, h, t))
  {
    forall h: Height, t ensures (Due(h, t) in due <==> DueAt(log, t, h)) <==> !PaidAndRefiled(log, h, t) {
      if h > |log| {
        IndexAgreesAhead(due, log, length, h, t);
      } else {
        StaleEntries(due, log, length, h, t);
        if DueAt(log, t, h) {
          PendingIsAhead(log, length, t);
          assert false;
        }
      }
    }
  }

  /** Each request is answered once, at its payout height, the first block of the period after next, and untouched
    * until then.
    */
  lemma {:induction false} AnsweredOnce(log: seq<Requests>, length: nat, r: Height, t: Triple, h: Height)
    requires length > 0 && Shaped(log, length) && Files(log, r, t, h)
    ensures h == PayoutHeight(r, length) && r < h
    ensures h <= |log| ==> t in log[h - 1] && DueAt(log[..h - 1], t, h)
    ensures forall i :: r <= i < h - 1 && i < |log| ==> t !in log[i]
  {
    assert WrittenAt(log, length, r - 1);
    PayoutIsLater(r, length);
    if h <= |log| {
      ShapedPrefix(log, length, h - 1);
      assert Files(log[..h - 1], r, t, h);
      FiledStaysPending(log[..h - 1], length, r, t, h);
      assert WrittenAt(log, length, h - 1);
    }
    forall i | r <= i < h - 1 && i < |log| ensures t !in log[i] {
      ShapedPrefix(log, length, i);
      assert Files(log[..i], r, t, h);
      FiledStaysPending(log[..i], length, r, t, h);
      assert WrittenAt(log, length, i);
    }
  }
}
