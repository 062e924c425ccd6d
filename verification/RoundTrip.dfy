/** From one node's database through the export files to another node's chain. */
module RoundTrip {
  import opened Wrappers
  import opened Periods
  import opened ChainFile
  import opened Importer
  import opened ExportJoin

  /** The three column families an export reads. */
  datatype Store = Store(metas: seq<Row<Meta>>, txs: seq<Row<Tx>>, snapshots: seq<Row<Snapshot>>) {
    function Height(): nat { |metas| }

    function TxsAt(h: Height): seq<Tx> { At(txs, h) }

    function SnapshotsAt(h: Height): seq<Snapshot> { At(snapshots, h) }
  }

  /** How blocks are made of what is stored, written, and read back. */
  datatype Format = Format(
    builds: (Meta, seq<Tx>) -> bool,
    block: (Meta, seq<Tx>) -> Block,
    encode: (Meta, seq<Tx>) -> Chunk,
    pack: Snapshot -> Chunk,
    codec: Codec)

  function Packed(f: Format, snapshots: seq<Snapshot>): (packed: seq<Chunk>)
    ensures |packed| == |snapshots|
  {
    seq(|snapshots|, i requires 0 <= i < |snapshots| => f.pack(snapshots[i]))
  }

  function BlockAt(f: Format, store: Store, h: Height): Block
    requires 1 <= h <= store.Height()
  {
    f.block(store.metas[h - 1].data, store.TxsAt(h))
  }

  /** The ids of the blocks up to a height. */
  function Ids(f: Format, store: Store, h: Height): (ids: seq<nat>)
    requires h <= store.Height()
    ensures |ids| == h
  {
    seq(h, i requires 0 <= i < h => BlockAt(f, store, i + 1).id)
  }

  function PairAt(f: Format, store: Store, withSnapshots: bool, h: Height): Pair
    requires 1 <= h <= store.Height()
  {
    Pair(BlockAt(f, store, h), if withSnapshots then Some(Packed(f, store.SnapshotsAt(h))) else None)
  }

  /** A block can be exported: it builds, the codec reads its bytes back, the size fields can hold what is written, and there
    * is a snapshot for each of its transactions.
    */
  ghost predicate WritesAt(f: Format, store: Store, withSnapshots: bool, h: Height)
    requires 1 <= h <= store.Height()
  {
    var meta, txs := store.metas[h - 1].data, store.TxsAt(h);
    && f.builds(meta, txs) && f.codec(f.encode(meta, txs)) == Some(f.block(meta, txs))
    && f.block(meta, txs).txCount == |txs| && Fits(f.encode(meta, txs))
    && (withSnapshots ==> |store.SnapshotsAt(h)| == |txs| && Fits(Frames(Packed(f, store.SnapshotsAt(h)))))
  }

  /** A database as a node keeps it: one block for each height from 1 on, all else in height order beside them. */
  ghost predicate Kept(f: Format, store: Store, withSnapshots: bool) {
    && store.metas != [] && (forall i :: 0 <= i < |store.metas| ==> store.metas[i].height == i + 1)
    && Sorted(store.txs) && Sorted(store.snapshots)
    && Covered(store.txs, store.metas) && (withSnapshots ==> Covered(store.snapshots, store.metas))
    && forall h :: 1 < h <= store.Height() ==> WritesAt(f, store, withSnapshots, h)
  }

  /** Its blocks are one chain, and the other node accepts each on top of those before it. */
  ghost predicate Accepts(f: Format, append: Appender, store: Store, withSnapshots: bool) {
    forall h :: 1 < h <= store.Height() ==>
      && BlockAt(f, store, h).reference == BlockAt(f, store, h - 1).id
      && append(Ids(f, store, h - 1), PairAt(f, store, withSnapshots, h)) == Applied
  }

  // ----- What is exported

  /** The number of blocks from height 2 to the target. */
  function Count(store: Store, target: Height): nat {
    if store.metas == [] || target <= 1 then 0 else Min(store.Height(), target) - 1
  }

  function ItemAt(store: Store, withSnapshots: bool, h: Height): Item
    requires 1 <= h <= store.Height()
  {
    Item(h, store.metas[h - 1].data, store.TxsAt(h), if withSnapshots then store.SnapshotsAt(h) else [])
  }

  function Items(store: Store, target: Height, withSnapshots: bool): (items: seq<Item>)
    ensures |items| == Count(store, target)
    ensures forall i :: 0 <= i < |items| ==> items[i] == ItemAt(store, withSnapshots, i + 2)
  {
    seq(Count(store, target), i requires 0 <= i < Count(store, target) => ItemAt(store, withSnapshots, i + 2))
  }

  function AsWritten(f: Format, item: Item): Written {
    Written(f.encode(item.meta, item.txs), |item.txs|, Packed(f, item.snapshots))
  }

  function AllWritten(f: Format, items: seq<Item>): (written: seq<Written>)
    ensures |written| == |items|
    ensures forall i :: 0 <= i < |items| ==> written[i] == AsWritten(f, items[i])
  {
    seq(|items|, i requires 0 <= i < |items| => AsWritten(f, items[i]))
  }

  /** What is handed to the writer. */
  function Exported(f: Format, store: Store, target: Height, withSnapshots: bool): (written: seq<Written>)
    ensures |written| == Count(store, target)
  {
    AllWritten(f, Items(store, target, withSnapshots))
  }

  ghost predicate InHeightOrder(items: seq<Item>) {
    forall i, j :: 0 <= i < j < |items| ==> items[i].height < items[j].height
  }

  /** Items in height order are fixed by which they are. */
  lemma {:induction false} SameItems(one: seq<Item>, two: seq<Item>)
    requires InHeightOrder(one) && InHeightOrder(two) && forall item :: item in one <==> item in two
    ensures one == two
    decreases |one|
  {
    assert two != [] ==> two[0] in two;
    if one != [] {
      assert one[|one| - 1] in two;
      var m, n := |one| - 1, |two| - 1;
      LastIsHighest(one, two[n]);
      LastIsHighest(two, one[m]);
      forall item ensures item in one[..m] <==> item in two[..n] {
        NotLast(one, item);
        NotLast(two, item);
      }
      SameItems(one[..m], two[..n]);
      assert one == one[..m] + [one[m]] && two == two[..n] + [two[n]];
    }
  }

  lemma LastIsHighest(items: seq<Item>, item: Item)
    requires InHeightOrder(items) && item in items
    ensures item.height <= items[|items| - 1].height
    ensures item.height == items[|items| - 1].height ==> item == items[|items| - 1]
  {
  }

  lemma NotLast(items: seq<Item>, item: Item)
    requires InHeightOrder(items) && items != []
    ensures item in items[..|items| - 1] <==> item in items && item != items[|items| - 1]
  {
    var n := |items| - 1;
    assert items == items[..n] + [items[n]];
  }

  lemma StoreAscending(f: Format, store: Store, withSnapshots: bool)
    requires Kept(f, store, withSnapshots)
    ensures Ascending(store.metas)
  {
  }

  /** The exporter's items are those of the heights from 2 to the target. */
  lemma ItemsExported(f: Format, store: Store, target: Height, withSnapshots: bool, items: seq<Item>)
    requires Kept(f, store, withSnapshots)
    requires Exports(f.builds, target, withSnapshots, store.metas, store.txs, store.snapshots, items)
    ensures items == Items(store, target, withSnapshots)
  {
    var all := Items(store, target, withSnapshots);
    forall item: Item ensures item in items <==> item in all {
      ItemExported(f, store, target, withSnapshots, item);
    }
    hide Kept;
    SameItems(items, all);
  }

  lemma ItemExported(f: Format, store: Store, target: Height, withSnapshots: bool, item: Item)
    requires Kept(f, store, withSnapshots)
    ensures item in Items(store, target, withSnapshots) <==>
            && 1 < item.height <= target && Row(item.height, item.meta) in store.metas
            && item.txs == At(store.txs, item.height) && f.builds(item.meta, item.txs)
            && item.snapshots == if withSnapshots then At(store.snapshots, item.height) else []
  {
    var all, h := Items(store, target, withSnapshots), item.height;
    if item in all {
      assert item == ItemAt(store, withSnapshots, h) && WritesAt(f, store, withSnapshots, h);
      assert store.metas[h - 1] == Row(h, item.meta);
    }
    if 1 < h <= target && Row(h, item.meta) in store.metas {
      assert store.metas[h - 1] == Row(h, item.meta);
      assert all[h - 2] == ItemAt(store, withSnapshots, h);
    }
  }

  // ----- What is written and read

  lemma ExportedWrites(f: Format, store: Store, target: Height, withSnapshots: bool, i: nat)
    requires Kept(f, store, withSnapshots) && i < Count(store, target)
    ensures var item := Exported(f, store, target, withSnapshots)[i];
            Exportable(f.codec, item, withSnapshots) && ReadBack(f.codec, item, withSnapshots) == PairAt(f, store, withSnapshots, i + 2)
  {
    assert WritesAt(f, store, withSnapshots, i + 2);
    hide Frames;
  }

  /** Written blocks are those of the store from height 2 on, and read back as such. */
  ghost predicate Writes(f: Format, store: Store, withSnapshots: bool, written: seq<Written>) {
    && |written| < store.Height() && AllExportable(f.codec, written, withSnapshots)
    && forall i :: 0 <= i < |written| ==> AllReadBack(f.codec, written, withSnapshots)[i] == PairAt(f, store, withSnapshots, i + 2)
  }

  lemma AllExportedWrite(f: Format, store: Store, target: Height, withSnapshots: bool)
    requires Kept(f, store, withSnapshots)
    ensures var written := Exported(f, store, target, withSnapshots);
            Writes(f, store, withSnapshots, written) && (withSnapshots ==> Matched(written))
  {
    var written := Exported(f, store, target, withSnapshots);
    forall i | 0 <= i < |written|
      ensures Exportable(f.codec, written[i], withSnapshots) && ReadBack(f.codec, written[i], withSnapshots) == PairAt(f, store, withSnapshots, i + 2)
    {
      ExportedWrites(f, store, target, withSnapshots, i);
    }
    assert |written| < store.Height();
    hide Kept, Exported, PairAt, Frames;
  }

  lemma ChainIsIds(f: Format, store: Store, withSnapshots: bool, pairs: seq<Pair>, k: nat)
    requires store.metas != [] && |pairs| < store.Height() && k <= |pairs|
    requires forall i :: 0 <= i < |pairs| ==> pairs[i] == PairAt(f, store, withSnapshots, i + 2)
    ensures ChainOf(BlockAt(f, store, 1).id, pairs, k) == Ids(f, store, k + 1)
  {
  }

  lemma StoreAccepted(f: Format, append: Appender, store: Store, withSnapshots: bool, pairs: seq<Pair>)
    requires Accepts(f, append, store, withSnapshots) && store.metas != [] && |pairs| < store.Height()
    requires forall i :: 0 <= i < |pairs| ==> pairs[i] == PairAt(f, store, withSnapshots, i + 2)
    ensures Accepted(append, BlockAt(f, store, 1).id, pairs)
  {
    hide ChainOf;
    forall i | 0 <= i < |pairs| ensures AcceptedAt(append, BlockAt(f, store, 1).id, pairs, i) {
      ChainIsIds(f, store, withSnapshots, pairs, i);
      assert Ids(f, store, i + 1)[i] == BlockAt(f, store, i + 1).id;
    }
  }

  /** The rows of a node that holds genesis and the first blocks of an export. */
  function RowsHeld(written: seq<Written>, held: nat, genesisSize: nat): (rows: seq<Stored>)
    requires held <= |written|
    ensures Holds(rows, written) && |rows| == held + 1
  {
    [Stored(1, genesisSize)] + seq(held, i requires 0 <= i < held => Stored(i + 2, |written[i].bytes|))
  }

  /** What a node has that holds some of what is whole in cut files. */
  ghost predicate Resumable(written: seq<Written>, cut: nat, cutSnapshots: nat, withSnapshots: bool, held: nat) {
    && cut <= |BlockFile(written)| && cutSnapshots <= |SnapshotFile(written)|
    && held <= Whole(written, cut, cutSnapshots, withSnapshots)
  }

  /** How many blocks after genesis a node that holds some of them ends up with. */
  function Reached(written: seq<Written>, cut: nat, cutSnapshots: nat, withSnapshots: bool, held: nat, importHeight: nat): (n: nat)
    requires held <= Whole(written, cut, cutSnapshots, withSnapshots)
    ensures held <= n <= |written|
  {
    Max(held, Min(Whole(written, cut, cutSnapshots, withSnapshots), importHeight))
  }

  /** What is read of written blocks that are the store's takes the other node to the store's chain. */
  lemma WrittenImports(f: Format, append: Appender, store: Store, withSnapshots: bool, written: seq<Written>,
                       cut: nat, cutSnapshots: nat, rows: seq<Stored>, importHeight: nat)
    requires Accepts(f, append, store, withSnapshots) && Writes(f, store, withSnapshots, written)
    requires Holds(rows, written) && Resumable(written, cut, cutSnapshots, withSnapshots, |rows| - 1)
    ensures var source := Resumed(true, rows, BlockFile(written)[..cut], if withSnapshots then Some(SnapshotFile(written)[..cutSnapshots]) else None);
            var n := Reached(written, cut, cutSnapshots, withSnapshots, |rows| - 1, importHeight);
            && n < store.Height() && source.Some? && !ReadAll(f.codec, source.value).failed
            && Import(append, Ids(f, store, |rows|), ReadAll(f.codec, source.value).pairs, importHeight - |rows| + 1).chain
            == Ids(f, store, n + 1)
  {
    var pairs, genesis := AllReadBack(f.codec, written, withSnapshots), BlockAt(f, store, 1).id;
    var n := Reached(written, cut, cutSnapshots, withSnapshots, |rows| - 1, importHeight);
    assert |rows| >= 1;
    hide Whole, BlockFile, SnapshotFile, AllExportable, AllReadBack, PairAt, Ids, ReadAll, Import, Resumed, ChainOf, Accepted, Holds;
    StoreAccepted(f, append, store, withSnapshots, pairs);
    ChainIsIds(f, store, withSnapshots, pairs, |rows| - 1);
    ChainIsIds(f, store, withSnapshots, pairs, n);
    hide Accepts, Writes;
    ResumeReaches(f.codec, append, genesis, rows, written, cut, cutSnapshots, withSnapshots, importHeight);
  }

  /** The input of an import by a node with the given rows: the blocks file from the offset of the next block on, and the
    * snapshots file after as many entries.
    */
  method Open(rows: seq<Stored>, blocks: Chunk, snapshots: Option<Chunk>) returns (source: Option<Source>)
    requires rows != []
    ensures source == Resumed(true, rows, blocks, snapshots)
  {
    hide SkipFrames, Offset;
    var offset := BlocksOffset(rows);
    var left: Option<Chunk> := None;
    if snapshots.Some? {
      left := SkipSnapshots(snapshots.value, |rows|);
      if left.None? {
        return None;
      }
    }
    source := Some(Source(Rest(blocks, offset), left, if offset == 0 then |rows| - 1 else 0));
  }

  /** An export, in whole. */
  method ExportStore(f: Format, store: Store, target: Height, withSnapshots: bool)
    returns (ok: bool, blocks: Chunk, snapshots: Chunk)
    requires Kept(f, store, withSnapshots)
    ensures var written := Exported(f, store, target, withSnapshots);
            ok && blocks == BlockFile(written) && (withSnapshots ==> snapshots == SnapshotFile(written))
  {
    StoreAscending(f, store, withSnapshots);
    var items := ExportRows(f.builds, target, withSnapshots, store.metas, store.txs, store.snapshots);
    ItemsExported(f, store, target, withSnapshots, items);
    AllExportedWrite(f, store, target, withSnapshots);
    hide Kept, Exports, BlockFile, SnapshotFile, AllExportable;
    ok, blocks, snapshots := Export(AllWritten(f, items), withSnapshots);
  }

  /** An import, in whole: input that is not malformed is offered to the node from the first pair to the last. */
  method ImportFiles(codec: Codec, append: Appender, rows: seq<Stored>, blocks: Chunk, snapshots: Option<Chunk>, start: seq<nat>,
                     importHeight: nat, maxSize: nat) returns (ok: bool, chain: seq<nat>)
    requires rows != [] && start != [] && maxSize > 0
    ensures var source := Resumed(true, rows, blocks, snapshots);
            source.Some? && !ReadAll(codec, source.value).failed ==>
              ok && chain == Import(append, start, ReadAll(codec, source.value).pairs, importHeight - |start| + 1).chain
  {
    hide Resumed, ReadAll, Import, WholeRefills;
    var source := Open(rows, blocks, snapshots);
    if source.None? {
      return false, start;
    }
    var run := new ImportRun(codec, append, maxSize, source.value, start);
    ghost var input := run.Unread();
    assert input == ReadAll(codec, source.value) && input.pairs[..|input.pairs|] == input.pairs;
    var thrown, offered := run.StartImport(importHeight);
    ok, chain := !thrown, run.chain;
  }

  /** From database to chain: a node's blocks are exported up to a target height, either file is cut at any byte, and another
    * node that holds genesis and the first `held` of the blocks that are still whole resumes from there. Whatever the size of
    * its queue, it reads without an error and ends on the first node's chain: as far as the files are whole, and no more than
    * one block past the import height.
    */
  method Transfer(f: Format, append: Appender, store: Store, target: Height, withSnapshots: bool, cut: nat, cutSnapshots: nat,
                  held: nat, genesisSize: nat, importHeight: nat, maxSize: nat) returns (ok: bool, chain: seq<nat>)
    requires Kept(f, store, withSnapshots) && Accepts(f, append, store, withSnapshots) && maxSize > 0
    requires Resumable(Exported(f, store, target, withSnapshots), cut, cutSnapshots, withSnapshots, held)
    ensures var n := Reached(Exported(f, store, target, withSnapshots), cut, cutSnapshots, withSnapshots, held, importHeight);
            ok && n < store.Height() && chain == Ids(f, store, n + 1)
  {
    hide Kept, Accepts, Exported, BlockFile, SnapshotFile, Whole, Writes, Matched, Holds, ReadAll, Import, Resumed, Reached, Ids, RowsHeld;
    var blocks, snapshots;
    ok, blocks, snapshots := ExportStore(f, store, target, withSnapshots);
    var written := Exported(f, store, target, withSnapshots);
    var rows := RowsHeld(written, held, genesisSize);
    AllExportedWrite(f, store, target, withSnapshots);
    WrittenImports(f, append, store, withSnapshots, written, cut, cutSnapshots, rows, importHeight);
    ok, chain := ImportFiles(f.codec, append, rows, blocks[..cut], if withSnapshots then Some(snapshots[..cutSnapshots]) else None,
                             Ids(f, store, held + 1), importHeight, maxSize);
  }
}
