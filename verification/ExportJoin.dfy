/** The exporter's three-way merge join: block metas, transactions and snapshots are scanned side by side, each in height
  * order, with one entry of lookahead for the latter two.
  */
module ExportJoin {
  import opened Wrappers
  import opened Periods

  datatype Row<+A> = Row(height: Height, data: A)

  type Meta = nat
  type Tx = nat
  type Snapshot = nat
  datatype Item = Item(height: Height, meta: Meta, txs: seq<Tx>, snapshots: seq<Snapshot>)

  // ----- One column family

  /** What the iterator shows: the genesis rows are skipped. */
  function Visible<A>(rows: seq<Row<A>>): seq<Row<A>> {
    if rows == [] then []
    else if rows[0].height > 1 then [rows[0]] + Visible(rows[1..])
    else Visible(rows[1..])
  }

  /** `DataIterator.computeNext`: moves past hidden rows to the next visible one. */
  method Advance<A>(rows: seq<Row<A>>) returns (next: Option<Row<A>>, rest: seq<Row<A>>)
    ensures next.None? ==> Visible(rows) == [] && Visible(rest) == []
    ensures next.Some? ==> Visible(rows) == [next.value] + Visible(rest) && |rest| < |rows|
  {
    rest := rows;
    while rest != []
      invariant Visible(rest) == Visible(rows) && |rest| <= |rows|
    {
      var row := rest[0];
      rest := rest[1..];
      if row.height > 1 {
        return Some(row), rest;
      }
    }
    next := None;
  }

  /** The rows still to come: the entry held back, then the rest of the iterator. */
  function Stream<A>(held: Option<Row<A>>, rows: seq<Row<A>>): seq<Row<A>> {
    (if held.Some? then [held.value] else []) + Visible(rows)
  }

  /** The data of the leading rows at height `h`, and what follows them. */
  function TakeAt<A>(stream: seq<Row<A>>, h: Height): seq<A> {
    if stream != [] && stream[0].height == h then [stream[0].data] + TakeAt(stream[1..], h) else []
  }

  function DropAt<A>(stream: seq<Row<A>>, h: Height): seq<Row<A>> {
    if stream != [] && stream[0].height == h then DropAt(stream[1..], h) else stream
  }

  /** `loadTxData`: consumes rows while they are at `h`; the first one beyond is held back. */
  method LoadTxData<A>(acc: seq<A>, h: Height, rows: seq<Row<A>>)
    returns (loaded: seq<A>, held: Option<Row<A>>, rest: seq<Row<A>>)
    ensures loaded == acc + TakeAt(Visible(rows), h)
    ensures Stream(held, rest) == DropAt(Visible(rows), h)
  {
    loaded, held, rest := acc, None, rows;
    while true
      invariant loaded + TakeAt(Visible(rest), h) == acc + TakeAt(Visible(rows), h)
      invariant DropAt(Visible(rest), h) == DropAt(Visible(rows), h)
      decreases |rest|
    {
      ghost var before := Visible(rest);
      var next, after := Advance(rest);
      rest := after;
      if next.None? {
        return;
      }
      assert before[1..] == Visible(rest);
      if next.value.height == h {
        assert TakeAt(before, h) == [next.value.data] + TakeAt(Visible(rest), h);
        loaded := loaded + [next.value.data];
      } else {
        held := next;
        return;
      }
    }
  }

  /** One column's share of a block: a held entry is used only if it is at the block's height. */
  method LoadAt<A>(h: Height, held: Option<Row<A>>, rows: seq<Row<A>>)
    returns (loaded: seq<A>, held': Option<Row<A>>, rest: seq<Row<A>>)
    ensures loaded == TakeAt(Stream(held, rows), h)
    ensures Stream(held', rest) == DropAt(Stream(held, rows), h)
  {
    match held
    case Some(entry) =>
      assert Stream(held, rows)[1..] == Visible(rows);
      if entry.height == h {
        loaded, held', rest := LoadTxData([entry.data], h, rows);
      } else {
        loaded, held', rest := [], held, rows;
      }
    case None =>
      assert Stream(held, rows) == Visible(rows);
      loaded, held', rest := LoadTxData([], h, rows);
  }

  // ----- The join

  /** Everything the iterator still has to give. */
  function Join(builds: (Meta, seq<Tx>) -> bool, target: Height, exportSnapshots: bool,
                metas: seq<Row<Meta>>, txs: seq<Row<Tx>>, snapshots: seq<Row<Snapshot>>): seq<Item>
  {
    if metas == [] || metas[0].height > target then []
    else
      var h := metas[0].height;
      var rest := Join(builds, target, exportSnapshots, metas[1..], DropAt(txs, h),
                       if exportSnapshots then DropAt(snapshots, h) else snapshots);
      if builds(metas[0].data, TakeAt(txs, h)) then
        [Item(h, metas[0].data, TakeAt(txs, h), if exportSnapshots then TakeAt(snapshots, h) else [])] + rest
      else rest
  }

  class BlockSnapshotIterator {
    const builds: (Meta, seq<Tx>) -> bool
    const target: Height
    const exportSnapshots: bool
    var metaRows: seq<Row<Meta>>
    var txRows: seq<Row<Tx>>
    var snapshotRows: seq<Row<Snapshot>>
    var nextTxEntry: Option<Row<Tx>>
    var nextSnapshotEntry: Option<Row<Snapshot>>

    ghost function Remaining(): seq<Item>
      reads this
    {
      Join(builds, target, exportSnapshots, Visible(metaRows), Stream(nextTxEntry, txRows),
           Stream(nextSnapshotEntry, snapshotRows))
    }

    constructor (builds: (Meta, seq<Tx>) -> bool, target: Height, exportSnapshots: bool,
                 metas: seq<Row<Meta>>, txs: seq<Row<Tx>>, snapshots: seq<Row<Snapshot>>)
      ensures Remaining() == Join(builds, target, exportSnapshots, Visible(metas), Visible(txs), Visible(snapshots))
    {
      this.builds, this.target, this.exportSnapshots := builds, target, exportSnapshots;
      metaRows, txRows, snapshotRows := metas, txs, snapshots;
      nextTxEntry, nextSnapshotEntry := None, None;
      new;
      assert Stream(nextTxEntry, txRows) == Visible(txs);
      assert Stream(nextSnapshotEntry, snapshotRows) == Visible(snapshots);
    }

    /** The next block that builds; one that does not is dropped together with its rows. */
    method ComputeNext() returns (item: Option<Item>)
      modifies this
      ensures item.None? ==> old(Remaining()) == []
      ensures item.Some? ==> old(Remaining()) == [item.value] + Remaining()
      ensures |metaRows| <= old(|metaRows|) && (item.Some? ==> |metaRows| < old(|metaRows|))
    {
      while true
        invariant Remaining() == old(Remaining()) && |metaRows| <= old(|metaRows|)
        decreases |metaRows|
      {
        ghost var metas := Visible(metaRows);
        var next, rest := Advance(metaRows);
        if next.None? || next.value.height > target {
          return None;
        }
        assert metas[1..] == Visible(rest);
        var h, meta := next.value.height, next.value.data;
        var txs, heldTx, txRest := LoadAt(h, nextTxEntry, txRows);
        var snapshots, heldSnapshot, snapshotRest := [], nextSnapshotEntry, snapshotRows;
        if exportSnapshots {
          snapshots, heldSnapshot, snapshotRest := LoadAt(h, nextSnapshotEntry, snapshotRows);
        }
        metaRows, txRows, nextTxEntry := rest, txRest, heldTx;
        snapshotRows, nextSnapshotEntry := snapshotRest, heldSnapshot;
        if builds(meta, txs) {
          return Some(Item(h, meta, txs, snapshots));
        }
      }
    }

    /** Draining the iterator. */
    method ExportAll() returns (items: seq<Item>)
      modifies this
      ensures items == old(Remaining())
    {
      items := [];
      while true
        invariant items + Remaining() == old(Remaining())
        decreases |metaRows|
      {
        var item := ComputeNext();
        if item.None? {
          return;
        }
        items := items + [item.value];
      }
    }
  }

  // ----- What the join gives each height

  ghost predicate Sorted<A>(rows: seq<Row<A>>) {
    forall i, j :: 0 <= i < j < |rows| ==> rows[i].height <= rows[j].height
  }

  /** All data at height `h`, in order. */
  function At<A>(rows: seq<Row<A>>, h: Height): seq<A> {
    if rows == [] then [] else (if rows[0].height == h then [rows[0].data] else []) + At(rows[1..], h)
  }

  /** What is left after blocks at `seen` took their rows. */
  function Left<A>(rows: seq<Row<A>>, seen: set<Height>): seq<Row<A>> {
    if rows != [] && rows[0].height in seen then Left(rows[1..], seen) else rows
  }

  /** A row below `h` whose height has no block row. */
  ghost predicate OrphanBelow<A>(rows: seq<Row<A>>, seen: set<Height>, h: Height) {
    exists i :: 0 <= i < |rows| && rows[i].height < h && rows[i].height !in seen
  }

  ghost predicate Below(seen: set<Height>, h: Height) {
    forall x :: x in seen ==> x < h
  }

  lemma {:induction false} NothingAt<A>(rows: seq<Row<A>>, h: Height)
    requires Sorted(rows) && (rows == [] || rows[0].height > h)
    ensures At(rows, h) == []
  {
    if rows != [] {
      assert Sorted(rows[1..]);
      assert rows[1..] != [] ==> rows[1..][0].height >= rows[0].height;
      NothingAt(rows[1..], h);
    }
  }

  lemma {:induction false} TakesAll<A>(rows: seq<Row<A>>, h: Height)
    requires Sorted(rows) && (rows == [] || rows[0].height >= h)
    ensures TakeAt(rows, h) == At(rows, h)
  {
    if rows != [] {
      assert Sorted(rows[1..]);
      if rows[0].height == h {
        assert rows[1..] != [] ==> rows[1..][0].height >= h;
        TakesAll(rows[1..], h);
      } else {
        NothingAt(rows, h);
      }
    }
  }

  /** A block gets exactly its height's rows, unless a row without a block sits below it: then it gets none. */
  lemma {:induction false} TakenExactly<A>(rows: seq<Row<A>>, seen: set<Height>, h: Height)
    requires Sorted(rows) && Below(seen, h)
    ensures TakeAt(Left(rows, seen), h) == if OrphanBelow(rows, seen, h) then [] else At(rows, h)
  {
    if rows != [] && rows[0].height in seen {
      assert Sorted(rows[1..]);
      TakenExactly(rows[1..], seen, h);
      OrphanTail(rows, seen, h);
    } else if rows != [] && rows[0].height < h {
      assert OrphanBelow(rows, seen, h);
    } else {
      TakesAll(rows, h);
    }
  }

  lemma OrphanTail<A>(rows: seq<Row<A>>, seen: set<Height>, h: Height)
    requires rows != [] && rows[0].height in seen
    ensures OrphanBelow(rows, seen, h) <==> OrphanBelow(rows[1..], seen, h)
  {
    if OrphanBelow(rows, seen, h) {
      var i :| 0 <= i < |rows| && rows[i].height < h && rows[i].height !in seen;
      assert rows[1..][i - 1] == rows[i];
    }
    if OrphanBelow(rows[1..], seen, h) {
      var i :| 0 <= i < |rows[1..]| && rows[1..][i].height < h && rows[1..][i].height !in seen;
      assert rows[i + 1] == rows[1..][i];
    }
  }

  /** Taking a block's rows leaves what is left after one more block. */
  lemma {:induction false} LeftAfter<A>(rows: seq<Row<A>>, seen: set<Height>, h: Height)
    requires Sorted(rows) && Below(seen, h)
    ensures DropAt(Left(rows, seen), h) == Left(rows, seen + {h})
  {
    if rows != [] && rows[0].height in seen {
      assert Sorted(rows[1..]);
      LeftAfter(rows[1..], seen, h);
    } else if rows != [] && rows[0].height == h {
      DropsAll(rows, seen, h);
    }
  }

  lemma {:induction false} DropsAll<A>(rows: seq<Row<A>>, seen: set<Height>, h: Height)
    requires Sorted(rows) && Below(seen, h) && (rows == [] || rows[0].height >= h)
    ensures DropAt(rows, h) == Left(rows, seen + {h})
  {
    if rows != [] && rows[0].height == h {
      assert Sorted(rows[1..]);
      assert rows[1..] != [] ==> rows[1..][0].height >= h;
      DropsAll(rows[1..], seen, h);
    }
  }

  /** The join as it should be: every block row up to the target, with its own height's rows. */
  ghost function PerHeight(builds: (Meta, seq<Tx>) -> bool, target: Height, exportSnapshots: bool,
                           metas: seq<Row<Meta>>, seen: set<Height>, txs: seq<Row<Tx>>, snapshots: seq<Row<Snapshot>>)
    : seq<Item>
  {
    if metas == [] || metas[0].height > target then []
    else
      var h := metas[0].height;
      var mine := if OrphanBelow(txs, seen, h) then [] else At(txs, h);
      var witnesses := if !exportSnapshots || OrphanBelow(snapshots, seen, h) then [] else At(snapshots, h);
      var rest := PerHeight(builds, target, exportSnapshots, metas[1..], seen + {h}, txs, snapshots);
      if builds(metas[0].data, mine) then [Item(h, metas[0].data, mine, witnesses)] + rest else rest
  }

  ghost predicate Ascending(metas: seq<Row<Meta>>) {
    forall i, j :: 0 <= i < j < |metas| ==> metas[i].height < metas[j].height
  }

  /** The lookahead join is the per-height join, on any rows in height order: no block ever gets another's rows, and a
    * block that fails to build takes its own rows with it.
    */
  lemma {:induction false} JoinIsPerHeight(builds: (Meta, seq<Tx>) -> bool, target: Height, exportSnapshots: bool,
                                           metas: seq<Row<Meta>>, seen: set<Height>,
                                           txs: seq<Row<Tx>>, snapshots: seq<Row<Snapshot>>)
    requires Sorted(txs) && Sorted(snapshots) && Ascending(metas)
    requires metas != [] ==> Below(seen, metas[0].height)
    ensures Join(builds, target, exportSnapshots, metas, Left(txs, seen), if exportSnapshots then Left(snapshots, seen) else snapshots)
         == PerHeight(builds, target, exportSnapshots, metas, seen, txs, snapshots)
  {
    if metas != [] && metas[0].height <= target {
      var h := metas[0].height;
      TakenExactly(txs, seen, h);
      LeftAfter(txs, seen, h);
      if exportSnapshots {
        TakenExactly(snapshots, seen, h);
        LeftAfter(snapshots, seen, h);
      }
      assert Ascending(metas[1..]);
      assert metas[1..] != [] ==> metas[1..][0] == metas[1];
      hide TakeAt, DropAt, Left, At, OrphanBelow;
      JoinIsPerHeight(builds, target, exportSnapshots, metas[1..], seen + {h}, txs, snapshots);
    }
  }

  /** The plain per-height list. */
  ghost function Plain(builds: (Meta, seq<Tx>) -> bool, target: Height, exportSnapshots: bool,
                       metas: seq<Row<Meta>>, txs: seq<Row<Tx>>, snapshots: seq<Row<Snapshot>>): seq<Item>
  {
    if metas == [] || metas[0].height > target then []
    else
      var h, meta := metas[0].height, metas[0].data;
      var rest := Plain(builds, target, exportSnapshots, metas[1..], txs, snapshots);
      if builds(meta, At(txs, h)) then
        [Item(h, meta, At(txs, h), if exportSnapshots then At(snapshots, h) else [])] + rest
      else rest
  }

  /** Every row's height has a block row. */
  ghost predicate Covered<A>(rows: seq<Row<A>>, metas: seq<Row<Meta>>) {
    forall j :: 0 <= j < |rows| ==> HasBlock(metas, rows[j].height)
  }

  ghost predicate HasBlock(metas: seq<Row<Meta>>, h: Height) {
    exists k :: 0 <= k < |metas| && metas[k].height == h
  }

  function Seen(metas: seq<Row<Meta>>, i: nat): set<Height>
    requires i <= |metas|
  {
    set k | 0 <= k < i :: metas[k].height
  }

  lemma NoOrphans<A>(rows: seq<Row<A>>, metas: seq<Row<Meta>>, i: nat)
    requires i < |metas| && Ascending(metas) && Covered(rows, metas)
    ensures !OrphanBelow(rows, Seen(metas, i), metas[i].height)
  {
    forall j | 0 <= j < |rows| && rows[j].height < metas[i].height ensures rows[j].height in Seen(metas, i) {
      var k :| 0 <= k < |metas| && metas[k].height == rows[j].height;
      assert k < i;
    }
  }

  lemma {:induction false} CoveredIsPlain(builds: (Meta, seq<Tx>) -> bool, target: Height, exportSnapshots: bool,
                                          metas: seq<Row<Meta>>, txs: seq<Row<Tx>>, snapshots: seq<Row<Snapshot>>,
                                          i: nat)
    requires i <= |metas| && Ascending(metas) && Covered(txs, metas) && (exportSnapshots ==> Covered(snapshots, metas))
    ensures PerHeight(builds, target, exportSnapshots, metas[i..], Seen(metas, i), txs, snapshots) ==
            Plain(builds, target, exportSnapshots, metas[i..], txs, snapshots)
    decreases |metas| - i
  {
    if i < |metas| {
      assert metas[i..][0] == metas[i] && metas[i..][1..] == metas[i + 1..];
      NoOrphans(txs, metas, i);
      if exportSnapshots {
        NoOrphans(snapshots, metas, i);
      }
      assert Seen(metas, i + 1) == Seen(metas, i) + {metas[i].height};
      hide OrphanBelow, Seen, Covered, At;
      CoveredIsPlain(builds, target, exportSnapshots, metas, txs, snapshots, i + 1);
    }
  }

  /** On height-ordered columns where every transaction height, and if exported every snapshot height, has a block row, the
    * join is every block up to the target that builds, in order, each with exactly its own height's rows.
    */
  lemma JoinIsPlain(builds: (Meta, seq<Tx>) -> bool, target: Height, exportSnapshots: bool,
                    metas: seq<Row<Meta>>, txs: seq<Row<Tx>>, snapshots: seq<Row<Snapshot>>)
    requires Sorted(txs) && Sorted(snapshots) && Ascending(metas)
    requires Covered(txs, metas) && (exportSnapshots ==> Covered(snapshots, metas))
    ensures Join(builds, target, exportSnapshots, metas, txs, snapshots) ==
            Plain(builds, target, exportSnapshots, metas, txs, snapshots)
  {
    JoinIsPerHeight(builds, target, exportSnapshots, metas, {}, txs, snapshots);
    CoveredIsPlain(builds, target, exportSnapshots, metas, txs, snapshots, 0);
    assert Seen(metas, 0) == {} && metas[0..] == metas;
    assert Left(txs, {}) == txs && Left(snapshots, {}) == snapshots;
  }

  // ----- From the stored rows to the exported items

  lemma {:induction false} VisibleHas<A>(rows: seq<Row<A>>, row: Row<A>)
    ensures row in Visible(rows) <==> row in rows && row.height > 1
    decreases |rows|
  {
    if rows != [] {
      VisibleHas(rows[1..], row);
      assert rows == [rows[0]] + rows[1..];
    }
  }

  /** Hiding the genesis rows keeps the order. */
  lemma {:induction false} VisibleSorted<A(!new)>(rows: seq<Row<A>>)
    requires Sorted(rows)
    ensures Sorted(Visible(rows))
    decreases |rows|
  {
    if rows != [] {
      VisibleSorted(rows[1..]);
      var rest := Visible(rows[1..]);
      forall j | 0 <= j < |rest| ensures rows[0].height <= rest[j].height {
        VisibleHas(rows[1..], rest[j]);
        var k :| 0 <= k < |rows[1..]| && rows[1..][k] == rest[j];
        assert rows[k + 1] == rest[j];
      }
    }
  }

  lemma {:induction false} VisibleAscending(metas: seq<Row<Meta>>)
    requires Ascending(metas)
    ensures Ascending(Visible(metas))
    decreases |metas|
  {
    if metas != [] {
      VisibleAscending(metas[1..]);
      var rest := Visible(metas[1..]);
      forall j | 0 <= j < |rest| ensures metas[0].height < rest[j].height {
        VisibleHas(metas[1..], rest[j]);
        var k :| 0 <= k < |metas[1..]| && metas[1..][k] == rest[j];
        assert metas[k + 1] == rest[j];
      }
    }
  }

  /** A visible row's block row is visible too. */
  lemma VisibleCovered<A(!new)>(rows: seq<Row<A>>, metas: seq<Row<Meta>>)
    requires Covered(rows, metas)
    ensures Covered(Visible(rows), Visible(metas))
  {
    var shown, blocks := Visible(rows), Visible(metas);
    forall j | 0 <= j < |shown| ensures HasBlock(blocks, shown[j].height) {
      VisibleHas(rows, shown[j]);
      var i :| 0 <= i < |rows| && rows[i] == shown[j];
      var m :| 0 <= m < |metas| && metas[m].height == rows[i].height;
      VisibleHas(metas, metas[m]);
      var k :| 0 <= k < |blocks| && blocks[k] == metas[m];
    }
  }

  lemma {:induction false} AtVisible<A>(rows: seq<Row<A>>, h: Height)
    requires h > 1
    ensures At(Visible(rows), h) == At(rows, h)
    decreases |rows|
  {
    if rows != [] {
      AtVisible(rows[1..], h);
      assert rows[0].height > 1 ==> Visible(rows)[1..] == Visible(rows[1..]);
    }
  }

  /** What an export of these rows should hold. */
  ghost predicate Exports(builds: (Meta, seq<Tx>) -> bool, target: Height, exportSnapshots: bool,
                          metas: seq<Row<Meta>>, txs: seq<Row<Tx>>, snapshots: seq<Row<Snapshot>>, items: seq<Item>)
  {
    && (forall i, j :: 0 <= i < j < |items| ==> items[i].height < items[j].height)
    && forall item: Item :: item in items <==>
         && 1 < item.height <= target && Row(item.height, item.meta) in metas
         && item.txs == At(txs, item.height) && builds(item.meta, item.txs)
         && item.snapshots == if exportSnapshots then At(snapshots, item.height) else []
  }

  lemma {:induction false} PlainExports(builds: (Meta, seq<Tx>) -> bool, target: Height, exportSnapshots: bool,
                                        metas: seq<Row<Meta>>, txs: seq<Row<Tx>>, snapshots: seq<Row<Snapshot>>, item: Item)
    requires Ascending(metas)
    ensures item in Plain(builds, target, exportSnapshots, metas, txs, snapshots) <==>
            && item.height <= target && Row(item.height, item.meta) in metas
            && item.txs == At(txs, item.height) && builds(item.meta, item.txs)
            && item.snapshots == if exportSnapshots then At(snapshots, item.height) else []
    decreases |metas|
  {
    if metas != [] {
      assert metas == [metas[0]] + metas[1..];
      if metas[0].height > target {
        assert forall k :: 0 <= k < |metas| ==> metas[k].height > target;
      } else {
        PlainExports(builds, target, exportSnapshots, metas[1..], txs, snapshots, item);
      }
    }
  }

  lemma {:induction false} PlainAscends(builds: (Meta, seq<Tx>) -> bool, target: Height, exportSnapshots: bool,
                                        metas: seq<Row<Meta>>, txs: seq<Row<Tx>>, snapshots: seq<Row<Snapshot>>)
    requires Ascending(metas)
    ensures var items := Plain(builds, target, exportSnapshots, metas, txs, snapshots);
            forall i, j :: 0 <= i < j < |items| ==> items[i].height < items[j].height
    decreases |metas|
  {
    if metas != [] && metas[0].height <= target {
      PlainAscends(builds, target, exportSnapshots, metas[1..], txs, snapshots);
      var rest := Plain(builds, target, exportSnapshots, metas[1..], txs, snapshots);
      forall i | 0 <= i < |rest| ensures metas[0].height < rest[i].height {
        PlainExports(builds, target, exportSnapshots, metas[1..], txs, snapshots, rest[i]);
        var k :| 0 <= k < |metas[1..]| && metas[1..][k] == Row(rest[i].height, rest[i].meta);
        assert metas[k + 1] == metas[1..][k];
      }
    }
  }

  /** End to end: from stored rows in height order, where every transaction height, and if exported every snapshot height, has
    * a block row, the exporter gives exactly the blocks from height 2 to the target that build, in order, each with its own
    * transactions and snapshots.
    */
  method ExportRows(builds: (Meta, seq<Tx>) -> bool, target: Height, exportSnapshots: bool,
                    metas: seq<Row<Meta>>, txs: seq<Row<Tx>>, snapshots: seq<Row<Snapshot>>) returns (items: seq<Item>)
    requires Sorted(txs) && Sorted(snapshots) && Ascending(metas)
    requires Covered(txs, metas) && (exportSnapshots ==> Covered(snapshots, metas))
    ensures Exports(builds, target, exportSnapshots, metas, txs, snapshots, items)
  {
    var blocks := new BlockSnapshotIterator(builds, target, exportSnapshots, metas, txs, snapshots);
    items := blocks.ExportAll();
    RowsExport(builds, target, exportSnapshots, metas, txs, snapshots);
  }

  lemma RowsExport(builds: (Meta, seq<Tx>) -> bool, target: Height, exportSnapshots: bool,
                   metas: seq<Row<Meta>>, txs: seq<Row<Tx>>, snapshots: seq<Row<Snapshot>>)
    requires Sorted(txs) && Sorted(snapshots) && Ascending(metas)
    requires Covered(txs, metas) && (exportSnapshots ==> Covered(snapshots, metas))
    ensures Exports(builds, target, exportSnapshots, metas, txs, snapshots,
                    Join(builds, target, exportSnapshots, Visible(metas), Visible(txs), Visible(snapshots)))
  {
    var ms, ts, ss := Visible(metas), Visible(txs), Visible(snapshots);
    VisibleSorted(txs);
    VisibleSorted(snapshots);
    VisibleAscending(metas);
    VisibleCovered(txs, metas);
    if exportSnapshots {
      VisibleCovered(snapshots, metas);
    }
    hide Sorted, Ascending, Covered, Join, Plain, Visible;
    JoinIsPlain(builds, target, exportSnapshots, ms, ts, ss);
    PlainAscends(builds, target, exportSnapshots, ms, ts, ss);
    forall item: Item
      ensures item in Plain(builds, target, exportSnapshots, ms, ts, ss) <==>
              && 1 < item.height <= target && Row(item.height, item.meta) in metas
              && item.txs == At(txs, item.height) && builds(item.meta, item.txs)
              && item.snapshots == if exportSnapshots then At(snapshots, item.height) else []
    {
      PlainExports(builds, target, exportSnapshots, ms, ts, ss, item);
      VisibleHas(metas, Row(item.height, item.meta));
      if item.height > 1 {
        AtVisible(txs, item.height);
        AtVisible(snapshots, item.height);
      }
    }
  }

  /** A single row without a block row starves every later block: height 3 has a transaction and no block, so the block
    * at height 4 loses its own.
    */
  lemma OrphanStarves()
    ensures var metas: seq<Row<Meta>>, txs: seq<Row<Tx>> := [Row(2, 20), Row(4, 40)], [Row(3, 31), Row(4, 41)];
            Join((meta, txs) => true, 4, false, metas, txs, []) == [Item(2, 20, [], []), Item(4, 40, [], [])]
  {
    var metas: seq<Row<Meta>>, txs: seq<Row<Tx>> := [Row(2, 20), Row(4, 40)], [Row(3, 31), Row(4, 41)];
    assert metas[1..] == [Row(4, 40)];
    assert |metas[1..][1..]| == 0;
    assert DropAt(txs, 2) == txs && DropAt(txs, 4) == txs && |TakeAt(txs, 4)| == 0 && |TakeAt(txs, 2)| == 0;
  }
}
