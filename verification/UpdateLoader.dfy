/** Replaying stored updates to a subscriber: batches read from a cursor, chained into one stream. */
module UpdateLoader {
  import opened Wrappers
  import opened Periods

  /** A stored update, under its height. */
  datatype Row = Row(height: Height, id: nat)

  /** A replayed update, with the height it is given on the way out. */
  datatype Update = Update(height: Height, row: Row)

  datatype Target = Target(height: int, id: nat)

  const BATCH := 100

  ghost predicate Sorted(rows: seq<Row>) {
    forall i, j :: 0 <= i < j < |rows| ==> rows[i].height < rows[j].height
  }

  /** The cursor after a seek: the first row at `from` or above, and all that follow. */
  function Seek(rows: seq<Row>, from: Height): seq<Row> {
    if rows != [] && rows[0].height < from then Seek(rows[1..], from) else rows
  }

  /** Whether the target lets one more row in. */
  predicate Within(target: Option<Target>, height: int) { target.Some? ==> height <= target.value.height }

  /** How many rows a batch takes from a cursor that has `available`. */
  function Size(available: nat, from: Height, target: Option<Target>, batch: nat): (n: nat)
    ensures n <= available && n <= batch && (n > 0 ==> Within(target, from + n - 1))
    ensures n == available || n == batch || !Within(target, from + n)
  {
    var most := if available <= batch then available else batch;
    if target.None? || target.value.height >= from + most then most
    else if target.value.height < from then 0
    else target.value.height - from + 1
  }

  function Numbered(rows: seq<Row>, from: Height): (updates: seq<Update>)
    ensures |updates| == |rows|
  {
    seq(|rows|, i requires 0 <= i < |rows| => Update(from + i, rows[i]))
  }

  /** The check at the end of a batch: if it ends at the target height, its last row has to be the target. */
  predicate Misses(updates: seq<Update>, from: Height, target: Option<Target>) {
    && target.Some? && updates != [] && target.value.height == from + |updates| - 1
    && updates[|updates| - 1].row.id != target.value.id
  }

  function Batch(rows: seq<Row>, from: Height, target: Option<Target>, batch: nat): Option<seq<Update>> {
    var cursor := Seek(rows, from);
    var updates := Numbered(cursor[..Size(|cursor|, from, target, batch)], from);
    if Misses(updates, from, target) then None else Some(updates)
  }

  /** `loadBatch`; none is the failed requirement. */
  method LoadBatch(rows: seq<Row>, from: Height, target: Option<Target>) returns (loaded: Option<seq<Update>>)
    ensures loaded == Batch(rows, from, target, BATCH)
    ensures loaded.Some? ==> |loaded.value| <= 100
    ensures loaded.Some? && |loaded.value| < 100 ==>
              |loaded.value| == |Seek(rows, from)| || (target.Some? && target.value.height < from + |loaded.value|)
  {
    var cursor := rows;
    while cursor != [] && cursor[0].height < from
      invariant Seek(cursor, from) == Seek(rows, from)
    {
      cursor := cursor[1..];
    }
    ghost var all := Seek(rows, from);
    var buffer: seq<Update> := [];
    while cursor != [] && |buffer| < BATCH && Within(target, from + |buffer|)
      invariant |buffer| <= |all| && cursor == all[|buffer|..] && buffer == Numbered(all[..|buffer|], from)
      invariant |buffer| <= BATCH && (|buffer| > 0 ==> Within(target, from + |buffer| - 1))
    {
      buffer := buffer + [Update(from + |buffer|, cursor[0])];
      cursor := cursor[1..];
    }
    SizeUnique(|all|, from, target, BATCH, |buffer|);
    if target.Some? && target.value.height == from + |buffer| - 1 && buffer != [] {
      if buffer[|buffer| - 1].row.id != target.value.id {
        return None;
      }
    }
    loaded := Some(buffer);
  }

  lemma SizeUnique(available: nat, from: Height, target: Option<Target>, batch: nat, n: nat)
    requires n <= available && n <= batch && (n > 0 ==> Within(target, from + n - 1))
    requires n == available || n == batch || !Within(target, from + n)
    ensures n == Size(available, from, target, batch)
  {
  }

  /** What a subscriber is sent, and whether the stream then fails. */
  datatype Replay = Replay(updates: seq<Update>, failed: bool)

  function Top(rows: seq<Row>): nat { if rows == [] then 0 else rows[|rows| - 1].height }

  lemma {:induction false} SeekEnds(rows: seq<Row>, from: Height)
    requires Sorted(rows) && Seek(rows, from) != []
    ensures from <= Top(rows)
    decreases |rows|
  {
    if rows[0].height < from {
      SeekEnds(rows[1..], from);
    }
  }

  /** `streamFrom`: it ends on any storage, since every batch moves on and none starts above the last row. */
  function StreamFrom(rows: seq<Row>, from: Height, target: Option<Target>, batch: nat): (replay: Replay)
    requires Sorted(rows)
    decreases Top(rows) + 1 - from
  {
    match Batch(rows, from, target, batch)
    case None => Replay([], true)
    case Some(updates) =>
      if updates == [] then Replay([], false)
      else
        SeekEnds(rows, from);
        var more := StreamFrom(rows, from + |updates|, target, batch);
        more.(updates := updates + more.updates)
  }

  // ----- Dense storage

  /** Rows at or above `from` sit at consecutive heights from there on, as far as the target lets them through. */
  ghost predicate Dense(rows: seq<Row>, from: Height, target: Option<Target>) {
    forall i :: 0 <= i < |Seek(rows, from)| && Within(target, from + i) ==> Seek(rows, from)[i].height == from + i
  }

  /** The plain list: every row from `from` up to the target. */
  function Plain(rows: seq<Row>, from: Height, target: Option<Target>): (updates: seq<Update>) {
    var cursor := Seek(rows, from);
    Numbered(cursor[..Size(|cursor|, from, target, |cursor|)], from)
  }

  ghost predicate Right(updates: seq<Update>) {
    forall i :: 0 <= i < |updates| ==> updates[i].height == updates[i].row.height
  }

  /** The row at the target height is there and is another one. */
  ghost predicate WrongTarget(rows: seq<Row>, from: Height, target: Option<Target>) {
    && target.Some? && from <= target.value.height
    && target.value.height - from < |Seek(rows, from)|
    && Seek(rows, from)[target.value.height - from].id != target.value.id
  }

  lemma {:induction false} SeekSorted(rows: seq<Row>, from: Height)
    requires Sorted(rows)
    ensures Sorted(Seek(rows, from))
    decreases |rows|
  {
    if rows != [] && rows[0].height < from {
      SeekSorted(rows[1..], from);
    }
  }

  lemma {:induction false} SeekAgain(rows: seq<Row>, from: Height, later: Height)
    requires from <= later
    ensures Seek(rows, later) == Seek(Seek(rows, from), later)
    decreases |rows|
  {
    if rows != [] && rows[0].height < from {
      SeekAgain(rows[1..], from, later);
    }
  }

  lemma {:induction false} SeekPast(cursor: seq<Row>, later: Height, n: nat)
    requires n <= |cursor| && (forall i :: 0 <= i < n ==> cursor[i].height < later)
    requires n < |cursor| ==> cursor[n].height >= later
    ensures Seek(cursor, later) == cursor[n..]
    decreases n
  {
    if n > 0 {
      SeekPast(cursor[1..], later, n - 1);
    }
  }

  /** After rows numbered right, the next seek is where the cursor stood. */
  lemma SeekOn(rows: seq<Row>, from: Height, n: nat)
    requires Sorted(rows) && n <= |Seek(rows, from)|
    requires forall i :: 0 <= i < n ==> Seek(rows, from)[i].height == from + i
    ensures n > 0 ==> Seek(rows, from + n) == Seek(rows, from)[n..]
  {
    var cursor := Seek(rows, from);
    SeekSorted(rows, from);
    SeekAgain(rows, from, from + n);
    if n > 0 {
      assert n < |cursor| ==> cursor[n - 1].height < cursor[n].height;
      SeekPast(cursor, from + n, n);
    }
  }

  /** How many of `k` rows fill whole batches. */
  function Whole(k: nat, batch: nat): int
    requires batch > 0
  {
    k / batch * batch
  }

  lemma WholeBatches(k: nat, batch: nat)
    requires batch > 0
    ensures 0 <= Whole(k, batch) <= k
    ensures k < batch ==> Whole(k, batch) == 0
    ensures k >= batch ==> Whole(k, batch) == batch + Whole(k - batch, batch)
  {
    var q, r := k / batch, k % batch;
    assert k == q * batch + r;
    if k >= batch {
      assert q >= 1 by {
        assert q <= 0 ==> q * batch <= 0;
      }
      assert k - batch == (q - 1) * batch + r;
      DivUnique(k - batch, batch, q - 1, r);
    } else {
      DivUnique(k, batch, 0, k);
    }
  }

  /** What a replay should be: the plain list, or if the target row is another one, the whole batches before its batch and
    * then an error.
    */
  ghost function Expected(rows: seq<Row>, from: Height, target: Option<Target>, batch: nat): Replay
    requires batch > 0
  {
    if WrongTarget(rows, from, target) then
      WholeBatches(target.value.height - from, batch);
      Replay(Numbered(Seek(rows, from)[..Whole(target.value.height - from, batch)], from), true)
    else Replay(Plain(rows, from, target), false)
  }

  lemma NumberedSplits(rows: seq<Row>, more: seq<Row>, from: Height)
    ensures Numbered(rows + more, from) == Numbered(rows, from) + Numbered(more, from + |rows|)
  {
  }

  lemma PrefixSplits(cursor: seq<Row>, from: Height, n: nat, m: nat)
    requires n + m <= |cursor|
    ensures Numbered(cursor[..n + m], from) == Numbered(cursor[..n], from) + Numbered(cursor[n..][..m], from + n)
  {
    assert cursor[..n + m] == cursor[..n] + cursor[n..][..m];
    NumberedSplits(cursor[..n], cursor[n..][..m], from);
  }

  lemma PlainStep(rows: seq<Row>, from: Height, target: Option<Target>, n: nat)
    requires 0 < n <= |Seek(rows, from)| && Within(target, from + n - 1)
    requires Seek(rows, from + n) == Seek(rows, from)[n..]
    ensures Plain(rows, from, target) == Numbered(Seek(rows, from)[..n], from) + Plain(rows, from + n, target)
  {
    hide Seek, Numbered;
    var cursor := Seek(rows, from);
    var m := Size(|cursor| - n, from + n, target, |cursor| - n);
    SizeUnique(|cursor|, from, target, |cursor|, n + m);
    PrefixSplits(cursor, from, n, m);
  }

  lemma WrongStep(rows: seq<Row>, from: Height, target: Option<Target>, batch: nat, n: nat)
    requires 0 < n == Size(|Seek(rows, from)|, from, target, batch)
    requires Seek(rows, from + n) == Seek(rows, from)[n..]
    requires !Misses(Numbered(Seek(rows, from)[..n], from), from, target)
    ensures WrongTarget(rows, from, target) == WrongTarget(rows, from + n, target)
    ensures WrongTarget(rows, from, target) ==> n == batch && target.value.height >= from + n
  {
    var cursor := Seek(rows, from);
    assert target.Some? && target.value.height == from + n - 1 ==> cursor[n - 1].id == target.value.id;
    hide Seek, Numbered;
  }

  lemma WholeStep(cursor: seq<Row>, from: Height, k: nat, batch: nat)
    requires 0 < batch <= k < |cursor|
    ensures 0 <= Whole(k, batch) <= k && 0 <= Whole(k - batch, batch) <= k - batch
    ensures Numbered(cursor[..Whole(k, batch)], from)
         == Numbered(cursor[..batch], from) + Numbered(cursor[batch..][..Whole(k - batch, batch)], from + batch)
  {
    hide Numbered;
    WholeBatches(k, batch);
    WholeBatches(k - batch, batch);
    PrefixSplits(cursor, from, batch, Whole(k - batch, batch));
  }

  /** What is expected from `from` on, one batch later. */
  lemma ExpectedStep(rows: seq<Row>, from: Height, target: Option<Target>, batch: nat, n: nat)
    requires 0 < n == Size(|Seek(rows, from)|, from, target, batch)
    requires Seek(rows, from + n) == Seek(rows, from)[n..]
    requires !Misses(Numbered(Seek(rows, from)[..n], from), from, target)
    ensures var more := Expected(rows, from + n, target, batch);
            Expected(rows, from, target, batch) == more.(updates := Numbered(Seek(rows, from)[..n], from) + more.updates)
  {
    WrongStep(rows, from, target, batch, n);
    hide Seek, Numbered, Misses, Whole, Size, Plain;
    if WrongTarget(rows, from, target) {
      WholeStep(Seek(rows, from), from, target.value.height - from, batch);
    } else {
      PlainStep(rows, from, target, n);
    }
    hide WrongTarget;
  }

  lemma ExpectedEnd(rows: seq<Row>, from: Height, target: Option<Target>, batch: nat)
    requires batch > 0 && Size(|Seek(rows, from)|, from, target, batch) == 0
    ensures Expected(rows, from, target, batch) == Replay([], false)
  {
    hide Seek;
    SizeUnique(|Seek(rows, from)|, from, target, |Seek(rows, from)|, 0);
  }

  lemma ExpectedMiss(rows: seq<Row>, from: Height, target: Option<Target>, batch: nat, n: nat)
    requires batch > 0 && n == Size(|Seek(rows, from)|, from, target, batch)
    requires Misses(Numbered(Seek(rows, from)[..n], from), from, target)
    ensures Expected(rows, from, target, batch) == Replay([], true)
  {
    hide Seek;
    WholeBatches(n - 1, batch);
  }

  lemma DenseStep(rows: seq<Row>, from: Height, target: Option<Target>, n: nat)
    requires n <= |Seek(rows, from)| && Seek(rows, from + n) == Seek(rows, from)[n..]
    requires n > 0 ==> Within(target, from + n - 1)
    ensures Dense(rows, from, target) <==>
            Dense(rows, from + n, target) && forall i :: 0 <= i < n ==> Seek(rows, from)[i].height == from + i
  {
    hide Seek;
    var cursor, rest := Seek(rows, from), Seek(rows, from + n);
    if Dense(rows, from, target) {
      forall i | 0 <= i < |rest| && Within(target, from + n + i) ensures rest[i].height == from + n + i {
        assert cursor[n + i] == rest[i];
      }
    }
    if Dense(rows, from + n, target) && forall i :: 0 <= i < n ==> cursor[i].height == from + i {
      forall i | 0 <= i < |cursor| && Within(target, from + i) ensures cursor[i].height == from + i {
        if i >= n {
          assert rest[i - n] == cursor[i];
        }
      }
    }
  }

  /** On storage dense from `from` on, the replay is the plain list whatever the batch size, every row with its own height;
    * a wrong row at the target height is an error, with the batch it is in held back.
    */
  lemma {:induction false} ReplayIsPlain(rows: seq<Row>, from: Height, target: Option<Target>, batch: nat)
    requires Sorted(rows) && Dense(rows, from, target) && batch > 0
    ensures StreamFrom(rows, from, target, batch) == Expected(rows, from, target, batch)
    decreases Top(rows) + 1 - from
  {
    var cursor := Seek(rows, from);
    var n := Size(|cursor|, from, target, batch);
    var updates := Numbered(cursor[..n], from);
    assert Batch(rows, from, target, batch) == if Misses(updates, from, target) then None else Some(updates);
    hide Seek, Sorted, Numbered, Misses, Size, Expected, Batch, WrongTarget;
    if n == 0 {
      ExpectedEnd(rows, from, target, batch);
      hide Dense;
      assert !Misses(updates, from, target) by {
        NeverMisses(updates, from, target);
      }
    } else if Misses(updates, from, target) {
      hide Dense;
      ExpectedMiss(rows, from, target, batch, n);
    } else {
      SeekEnds(rows, from);
      assert forall i :: 0 <= i < n ==> cursor[i].height == from + i;
      SeekOn(rows, from, n);
      DenseStep(rows, from, target, n);
      hide Dense;
      ExpectedStep(rows, from, target, batch, n);
      ReplayIsPlain(rows, from + n, target, batch);
    }
  }

  lemma NeverMisses(updates: seq<Update>, from: Height, target: Option<Target>)
    ensures updates == [] ==> !Misses(updates, from, target)
  {
  }

  /** And only there: a replay that does not fail gives every row its own height exactly when storage is dense. */
  lemma {:induction false} RightIffDense(rows: seq<Row>, from: Height, target: Option<Target>, batch: nat)
    requires Sorted(rows) && batch > 0 && !StreamFrom(rows, from, target, batch).failed
    ensures Right(StreamFrom(rows, from, target, batch).updates) <==> Dense(rows, from, target)
    decreases Top(rows) + 1 - from
  {
    var cursor := Seek(rows, from);
    var n := Size(|cursor|, from, target, batch);
    var updates := Numbered(cursor[..n], from);
    hide Seek, Sorted;
    if n > 0 {
      SeekEnds(rows, from);
      RightIffDense(rows, from + n, target, batch);
      RightSplits(updates, StreamFrom(rows, from + n, target, batch).updates);
      hide StreamFrom;
      assert Right(updates) <==> forall i :: 0 <= i < n ==> cursor[i].height == from + i by {
        forall i | 0 <= i < n ensures updates[i] == Update(from + i, cursor[i]) {
        }
      }
      if Right(updates) {
        SeekOn(rows, from, n);
        DenseStep(rows, from, target, n);
      } else {
        var i :| 0 <= i < n && cursor[i].height != from + i;
        assert Within(target, from + i);
      }
    }
  }

  lemma RightSplits(updates: seq<Update>, more: seq<Update>)
    ensures Right(updates + more) <==> Right(updates) && Right(more)
  {
    var all := updates + more;
    assert forall i :: 0 <= i < |more| ==> all[|updates| + i] == more[i];
    assert forall i :: 0 <= i < |updates| ==> all[i] == updates[i];
  }
}
