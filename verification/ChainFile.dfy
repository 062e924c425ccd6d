/** The export files: length-prefixed block frames, and beside them frames that pack a block's transaction snapshots,
  * each length-prefixed in turn. What reading them back gives, whole, cut or resumed.
  */
module ChainFile {
  import opened Wrappers
  import opened Bytes

  type Chunk = seq<Byte>

  // ----- Writing

  function Frame(bytes: Chunk): Chunk { BigEndian(|bytes|, 4) + bytes }

  function Frames(chunks: seq<Chunk>): Chunk {
    if chunks == [] then [] else Frame(chunks[0]) + Frames(chunks[1..])
  }

  /** A length the four-byte size field can hold. */
  predicate Fits(bytes: Chunk) { |bytes| < 0x8000_0000 }

  /** `exportBlock`, binary or not: the size, then the bytes. */
  method ExportBlock(stream: Chunk, bytes: Chunk) returns (after: Chunk, written: nat)
    ensures after == stream + Frame(bytes) && written == |Frame(bytes)|
  {
    after := stream + BigEndian(|bytes|, 4);
    after := after + bytes;
    written := 4 + |bytes|;
  }

  /** `exportBlockTxSnapshots`: the full size, then each snapshot with its own. */
  method ExportSnapshots(stream: Chunk, snapshots: seq<Chunk>) returns (after: Chunk, written: nat)
    ensures after == stream + Frame(Frames(snapshots)) && written == |Frame(Frames(snapshots))|
  {
    var fullSize := 0;
    for i := 0 to |snapshots|
      invariant fullSize + |Frames(snapshots[i..])| == |Frames(snapshots)|
    {
      assert snapshots[i..][0] == snapshots[i] && snapshots[i..][1..] == snapshots[i + 1..];
      fullSize := fullSize + (|snapshots[i]| + 4);
    }
    assert snapshots[|snapshots|..] == [];
    after := stream + BigEndian(fullSize, 4);
    ghost var start := after;
    for i := 0 to |snapshots|
      invariant after + Frames(snapshots[i..]) == start + Frames(snapshots)
    {
      assert snapshots[i..][0] == snapshots[i] && snapshots[i..][1..] == snapshots[i + 1..];
      after := after + BigEndian(|snapshots[i]|, 4) + snapshots[i];
    }
    assert start + Frames(snapshots) == stream + Frame(Frames(snapshots));
    written := fullSize + 4;
  }

  // ----- Reading

  /** A four-byte size as a signed integer. */
  function Signed(bytes: Chunk): int
    requires |bytes| == 4
  {
    if Value(bytes) < 0x8000_0000 then Value(bytes) else Value(bytes) - 0x1_0000_0000
  }

  /** What of a block the importer looks at; parsing itself is left to a codec. */
  datatype Block = Block(id: nat, reference: nat, txCount: nat)
  type Codec = Chunk -> Option<Block>

  datatype Pair = Pair(block: Block, snapshots: Option<seq<Chunk>>)

  /** The two input streams as far as they are unread, and how many frames are still to be skipped. */
  datatype Source = Source(blocks: Chunk, snapshots: Option<Chunk>, toSkip: nat)

  datatype Step = Entry(pair: Option<Pair>, rest: Source) | End | Fail

  function Clamp(i: int, bytes: Chunk): (k: nat)
    ensures k <= |bytes|
  {
    if i < 0 then 0 else if i > |bytes| then |bytes| else i
  }

  function Slice(bytes: Chunk, from: int, until: int): Chunk {
    if Clamp(from, bytes) <= Clamp(until, bytes) then bytes[Clamp(from, bytes)..Clamp(until, bytes)] else []
  }

  /** 32-bit addition overflows. */
  function Wrap(i: int): int {
    if i >= 0x8000_0000 then i - 0x1_0000_0000 else if i < -0x8000_0000 then i + 0x1_0000_0000 else i
  }

  /** The nested parse: one length-prefixed snapshot per transaction of the block. */
  function Unpack(bytes: Chunk, offset: int, count: nat): Option<seq<Chunk>>
    decreases count
  {
    if count == 0 then Some([])
    else if offset < 0 || offset + 4 > |bytes| then None
    else
      var next := Wrap(offset + 4 + Signed(bytes[offset..offset + 4]));
      match Unpack(bytes, next, count - 1)
      case Some(rest) => Some([Slice(bytes, offset + 4, next)] + rest)
      case None => None
  }

  function HasSize(stream: Option<Chunk>): bool { stream.Some? ==> |stream.value| >= 4 }

  function SizeOf(stream: Option<Chunk>): int
    requires HasSize(stream)
  {
    if stream.Some? then Signed(stream.value[..4]) else 0
  }

  /** The bytes after a size, less `n` of them. */
  function Past(stream: Chunk, n: nat): Chunk
    requires 4 + n <= |stream|
  {
    stream[4 + n..]
  }

  function Max(a: int, b: int): int { if a >= b then a else b }

  /** One turn of `readBlocks`. A size cut short or a body cut short ends the input; skipping past the end, a negative
    * size and anything that does not parse are errors.
    */
  function ReadOne(codec: Codec, src: Source): Step {
    if |src.blocks| < 4 || !HasSize(src.snapshots) then End
    else
      var size, packed := Signed(src.blocks[..4]), SizeOf(src.snapshots);
      var blockLeft, packLeft := |src.blocks| - 4, if src.snapshots.Some? then |src.snapshots.value| - 4 else 0;
      if src.toSkip > 0 then
        if size > blockLeft || packed > packLeft then Fail
        else Entry(None, Source(Past(src.blocks, Max(size, 0)), PastOption(src.snapshots, Max(packed, 0)), src.toSkip - 1))
      else if size < 0 || packed < 0 then Fail
      else if size > blockLeft || packed > packLeft then End
      else
        var rest := Source(Past(src.blocks, size), PastOption(src.snapshots, packed), 0);
        match codec(src.blocks[4..4 + size])
        case None => Fail
        case Some(block) =>
          if src.snapshots.None? then Entry(Some(Pair(block, None)), rest)
          else
            match Unpack(src.snapshots.value[4..4 + packed], 0, block.txCount)
            case None => Fail
            case Some(parts) => Entry(Some(Pair(block, Some(parts))), rest)
  }

  function PastOption(stream: Option<Chunk>, n: nat): Option<Chunk>
    requires stream.Some? ==> 4 + n <= |stream.value|
  {
    match stream
    case Some(bytes) => Some(Past(bytes, n))
    case None => None
  }

  datatype Reading = Reading(pairs: seq<Pair>, failed: bool)

  /** Everything that reading to the end gives. */
  function ReadAll(codec: Codec, src: Source): Reading
    decreases |src.blocks|
  {
    match ReadOne(codec, src)
    case End => Reading([], false)
    case Fail => Reading([], true)
    case Entry(pair, rest) =>
      var more := ReadAll(codec, rest);
      if pair.Some? then more.(pairs := [pair.value] + more.pairs) else more
  }

  // ----- Reading back what was written

  lemma SizeReadsBack(bytes: Chunk, rest: Chunk)
    requires Fits(bytes)
    ensures |Frame(bytes) + rest| >= 4 && Signed((Frame(bytes) + rest)[..4]) == |bytes|
    ensures |Frame(bytes) + rest| == 4 + |bytes| + |rest|
    ensures (Frame(bytes) + rest)[4..4 + |bytes|] == bytes && Past(Frame(bytes) + rest, |bytes|) == rest
  {
    var all := Frame(bytes) + rest;
    assert all[..4] == BigEndian(|bytes|, 4);
    assert Capacity(4) == 0x1_0000_0000 by {
      assert Capacity(1) == 256 && Capacity(2) == 256 * Capacity(1) && Capacity(3) == 256 * Capacity(2);
    }
    ValueOfBigEndian(|bytes|, 4);
  }

  lemma FrameInside(before: Chunk, bytes: Chunk, rest: Chunk)
    requires Fits(bytes)
    ensures var all := before + (Frame(bytes) + rest);
            && |before| + 4 + |bytes| <= |all|
            && Signed(all[|before|..|before| + 4]) == |bytes|
            && Slice(all, |before| + 4, |before| + 4 + |bytes|) == bytes
            && |before + Frame(bytes)| == |before| + 4 + |bytes|
            && all == (before + Frame(bytes)) + rest
  {
    SizeReadsBack(bytes, rest);
    var all, framed := before + (Frame(bytes) + rest), Frame(bytes) + rest;
    assert |Frame(bytes)| == 4 + |bytes|;
    hide Frame, Signed;
    assert all[|before|..|before| + 4] == framed[..4];
    assert all[|before| + 4..|before| + 4 + |bytes|] == framed[4..4 + |bytes|];
  }

  lemma {:induction false} UnpackReadsBack(before: Chunk, snapshots: seq<Chunk>)
    requires Fits(before + Frames(snapshots))
    ensures Unpack(before + Frames(snapshots), |before|, |snapshots|) == Some(snapshots)
    decreases |snapshots|
  {
    if snapshots != [] {
      var first, others := snapshots[0], snapshots[1..];
      var all, next := before + Frames(snapshots), before + Frame(first);
      UnpackStep(before, first, others);
      UnpackReadsBack(next, others);
      hide Frame, Frames, Signed, Slice;
      assert snapshots == [first] + others;
    }
  }

  lemma UnpackStep(before: Chunk, first: Chunk, others: seq<Chunk>)
    requires Fits(before + Frames([first] + others))
    ensures var all, next := before + Frames([first] + others), before + Frame(first);
            && |before| + 4 <= |all|
            && Wrap(|before| + 4 + Signed(all[|before|..|before| + 4])) == |next|
            && Slice(all, |before| + 4, |next|) == first
            && all == next + Frames(others)
  {
    var rest := Frames(others);
    assert ([first] + others)[1..] == others;
    assert Frames([first] + others) == Frame(first) + rest;
    FrameInside(before, first, rest);
  }

  /** One block with its snapshots, as handed to the writer. */
  datatype Written = Written(bytes: Chunk, txCount: nat, snapshots: seq<Chunk>)

  function BlockFile(items: seq<Written>): Chunk {
    if items == [] then [] else Frame(items[0].bytes) + BlockFile(items[1..])
  }

  function SnapshotFile(items: seq<Written>): Chunk {
    if items == [] then [] else Frame(Frames(items[0].snapshots)) + SnapshotFile(items[1..])
  }

  lemma FilesFrom(items: seq<Written>, i: nat)
    requires i < |items|
    ensures BlockFile(items[i..]) == Frame(items[i].bytes) + BlockFile(items[i + 1..])
    ensures SnapshotFile(items[i..]) == Frame(Frames(items[i].snapshots)) + SnapshotFile(items[i + 1..])
  {
    assert items[i..][0] == items[i] && items[i..][1..] == items[i + 1..];
  }

  lemma Associates(a: Chunk, b: Chunk, c: Chunk)
    ensures a + (b + c) == a + b + c
  {
  }

  lemma BlockWritten(items: seq<Written>, i: nat, blocks: Chunk)
    requires i < |items|
    ensures blocks + Frame(items[i].bytes) + BlockFile(items[i + 1..]) == blocks + BlockFile(items[i..])
  {
    hide Frame, BlockFile;
    FilesFrom(items, i);
    Associates(blocks, Frame(items[i].bytes), BlockFile(items[i + 1..]));
  }

  lemma SnapshotsWritten(items: seq<Written>, i: nat, snapshots: Chunk)
    requires i < |items|
    ensures snapshots + Frame(Frames(items[i].snapshots)) + SnapshotFile(items[i + 1..]) == snapshots + SnapshotFile(items[i..])
  {
    hide Frame, Frames, SnapshotFile;
    FilesFrom(items, i);
    Associates(snapshots, Frame(Frames(items[i].snapshots)), SnapshotFile(items[i + 1..]));
  }

  /** The exporter's check on its data: one snapshot per transaction. */
  predicate Matched(items: seq<Written>) {
    forall i :: 0 <= i < |items| ==> |items[i].snapshots| == items[i].txCount
  }

  /** The export loop: both files are written block by block; data that does not match stops it with an error. */
  method Export(items: seq<Written>, withSnapshots: bool) returns (ok: bool, blocks: Chunk, snapshots: Chunk)
    ensures ok <==> withSnapshots ==> Matched(items)
    ensures ok ==> blocks == BlockFile(items) && snapshots == if withSnapshots then SnapshotFile(items) else []
  {
    blocks, snapshots := [], [];
    for i := 0 to |items|
      invariant withSnapshots ==> forall j :: 0 <= j < i ==> |items[j].snapshots| == items[j].txCount
      invariant blocks + BlockFile(items[i..]) == BlockFile(items)
      invariant if withSnapshots then snapshots + SnapshotFile(items[i..]) == SnapshotFile(items) else snapshots == []
    {
      hide Frame, Frames, BlockFile, SnapshotFile;
      if withSnapshots && items[i].txCount != |items[i].snapshots| {
        return false, blocks, snapshots;
      }
      var size;
      BlockWritten(items, i, blocks);
      blocks, size := ExportBlock(blocks, items[i].bytes);
      if withSnapshots {
        SnapshotsWritten(items, i, snapshots);
        snapshots, size := ExportSnapshots(snapshots, items[i].snapshots);
      }
    }
    assert items[|items|..] == [];
    assert BlockFile([]) == [] && SnapshotFile([]) == [];
    ok := true;
  }

  /** What the exporter lets through, the size fields can hold and the codec reads back as the block it was. */
  ghost predicate Exportable(codec: Codec, item: Written, withSnapshots: bool) {
    && Fits(item.bytes) && codec(item.bytes).Some? && codec(item.bytes).value.txCount == item.txCount
    && (withSnapshots ==> Fits(Frames(item.snapshots)) && |item.snapshots| == item.txCount)
  }

  ghost predicate AllExportable(codec: Codec, items: seq<Written>, withSnapshots: bool) {
    forall i :: 0 <= i < |items| ==> Exportable(codec, items[i], withSnapshots)
  }

  function ReadBack(codec: Codec, item: Written, withSnapshots: bool): Pair
    requires codec(item.bytes).Some?
  {
    Pair(codec(item.bytes).value, if withSnapshots then Some(item.snapshots) else None)
  }

  ghost function AllReadBack(codec: Codec, items: seq<Written>, withSnapshots: bool): (pairs: seq<Pair>)
    requires AllExportable(codec, items, withSnapshots)
    ensures |pairs| == |items|
    ensures forall i :: 0 <= i < |items| ==> pairs[i] == ReadBack(codec, items[i], withSnapshots)
  {
    seq(|items|, i requires 0 <= i < |items| => ReadBack(codec, items[i], withSnapshots))
  }

  function Streams(blocks: Chunk, snapshots: Chunk, withSnapshots: bool, toSkip: nat): Source {
    Source(blocks, if withSnapshots then Some(snapshots) else None, toSkip)
  }

  /** A whole frame in both streams is read as the pair that was written. */
  lemma WholeFrameReads(codec: Codec, item: Written, blocks: Chunk, snapshots: Chunk, withSnapshots: bool)
    requires Exportable(codec, item, withSnapshots)
    ensures ReadOne(codec, Streams(Frame(item.bytes) + blocks, Frame(Frames(item.snapshots)) + snapshots, withSnapshots, 0))
         == Entry(Some(ReadBack(codec, item, withSnapshots)), Streams(blocks, snapshots, withSnapshots, 0))
  {
    SizeReadsBack(item.bytes, blocks);
    if withSnapshots {
      SizeReadsBack(Frames(item.snapshots), snapshots);
      assert [] + Frames(item.snapshots) == Frames(item.snapshots);
      UnpackReadsBack([], item.snapshots);
    }
    hide Frame, Frames, Unpack, Signed;
  }

  /** While skipping, a whole frame in both streams is passed over. */
  lemma WholeFrameSkips(codec: Codec, bytes: Chunk, packed: Chunk, blocks: Chunk, snapshots: Chunk, withSnapshots: bool,
                        toSkip: nat)
    requires Fits(bytes) && (withSnapshots ==> Fits(packed)) && toSkip > 0
    ensures ReadOne(codec, Streams(Frame(bytes) + blocks, Frame(packed) + snapshots, withSnapshots, toSkip))
         == Entry(None, Streams(blocks, snapshots, withSnapshots, toSkip - 1))
  {
    SizeReadsBack(bytes, blocks);
    if withSnapshots {
      SizeReadsBack(packed, snapshots);
    }
    hide Frame, Unpack, Signed;
  }

  /** However a stream is cut, it holds no size or the right one. */
  lemma CutFrame(bytes: Chunk, rest: Chunk, cut: nat)
    requires Fits(bytes) && cut <= |Frame(bytes) + rest|
    ensures cut >= 4 ==> Signed((Frame(bytes) + rest)[..cut][..4]) == |bytes|
    ensures cut >= 4 + |bytes| ==> (Frame(bytes) + rest)[..cut] == Frame(bytes) + rest[..cut - 4 - |bytes|]
  {
    SizeReadsBack(bytes, rest);
    var all := Frame(bytes) + rest;
    assert cut >= 4 ==> all[..cut][..4] == all[..4];
  }

  /** Input cut inside the first frame of either stream ends there. */
  lemma CutFrameEnds(codec: Codec, bytes: Chunk, packed: Chunk, blocks: Chunk, snapshots: Chunk, withSnapshots: bool,
                     cut: nat, cutSnapshots: nat)
    requires Fits(bytes) && (withSnapshots ==> Fits(packed))
    requires cut <= |Frame(bytes) + blocks| && cutSnapshots <= |Frame(packed) + snapshots|
    requires cut < 4 + |bytes| || (withSnapshots && cutSnapshots < 4 + |packed|)
    ensures ReadOne(codec, Streams((Frame(bytes) + blocks)[..cut], (Frame(packed) + snapshots)[..cutSnapshots], withSnapshots, 0))
         == End
  {
    CutFrame(bytes, blocks, cut);
    if withSnapshots {
      CutFrame(packed, snapshots, cutSnapshots);
    }
    hide Frame, Unpack, Signed;
  }

  /** How many leading items are whole in both streams when these are cut at the given bytes. */
  function Whole(items: seq<Written>, cut: int, cutSnapshots: int, withSnapshots: bool): (n: nat)
    ensures n <= |items|
  {
    if items == [] || !FirstWhole(items[0], cut, cutSnapshots, withSnapshots) then 0
    else 1 + Whole(items[1..], cut - |Frame(items[0].bytes)|, Beyond(items[0], cutSnapshots, withSnapshots), withSnapshots)
  }

  /** Where the snapshot stream's cut falls once the first item is taken off. */
  function Beyond(item: Written, cutSnapshots: int, withSnapshots: bool): int {
    if withSnapshots then cutSnapshots - |Frame(Frames(item.snapshots))| else 0
  }

  predicate FirstWhole(item: Written, cut: int, cutSnapshots: int, withSnapshots: bool) {
    |Frame(item.bytes)| <= cut && (withSnapshots ==> |Frame(Frames(item.snapshots))| <= cutSnapshots)
  }

  /** `Whole` counts exactly the items that end before the cut in both streams. */
  lemma {:induction false} WholeExactly(items: seq<Written>, cut: int, cutSnapshots: int, withSnapshots: bool, k: nat)
    requires 0 < k <= |items|
    ensures k <= Whole(items, cut, cutSnapshots, withSnapshots) <==>
            |BlockFile(items[..k])| <= cut && (withSnapshots ==> |SnapshotFile(items[..k])| <= cutSnapshots)
    decreases k
  {
    var first, others := items[0], items[1..];
    assert items[..k][0] == first && items[..k][1..] == others[..k - 1];
    assert |BlockFile(items[..k])| == |Frame(first.bytes)| + |BlockFile(others[..k - 1])|;
    assert |SnapshotFile(items[..k])| == |Frame(Frames(first.snapshots))| + |SnapshotFile(others[..k - 1])|;
    hide Frame, Frames;
    if k > 1 {
      WholeExactly(others, cut - |Frame(first.bytes)|, Beyond(first, cutSnapshots, withSnapshots), withSnapshots, k - 1);
    }
  }

  lemma ReadBackHead(codec: Codec, items: seq<Written>, n: nat, withSnapshots: bool)
    requires AllExportable(codec, items, withSnapshots) && n < |items|
    ensures AllExportable(codec, items[1..], withSnapshots)
    ensures AllReadBack(codec, items[..1 + n], withSnapshots)
         == [ReadBack(codec, items[0], withSnapshots)] + AllReadBack(codec, items[1..][..n], withSnapshots)
  {
    assert items[..1 + n] == [items[0]] + items[1..][..n];
    hide Frames, Fits;
  }

  /** What a cut export reads first. */
  lemma CutExportHead(codec: Codec, items: seq<Written>, cut: nat, cutSnapshots: nat, withSnapshots: bool)
    requires items != [] && Exportable(codec, items[0], withSnapshots)
    requires cut <= |BlockFile(items)| && cutSnapshots <= |SnapshotFile(items)|
    ensures var others, whole := items[1..], FirstWhole(items[0], cut, cutSnapshots, withSnapshots);
            var cut', cutSnapshots' := cut - |Frame(items[0].bytes)|, Beyond(items[0], cutSnapshots, withSnapshots);
            && (whole ==> 0 <= cut' <= |BlockFile(others)| && 0 <= cutSnapshots' <= |SnapshotFile(others)|)
            && ReadOne(codec, Streams(BlockFile(items)[..cut], SnapshotFile(items)[..cutSnapshots], withSnapshots, 0))
            == if !whole then End
               else Entry(Some(ReadBack(codec, items[0], withSnapshots)),
                          Streams(BlockFile(others)[..cut'], SnapshotFile(others)[..cutSnapshots'], withSnapshots, 0))
  {
    var first, others := items[0], items[1..];
    assert BlockFile(items) == Frame(first.bytes) + BlockFile(others);
    assert SnapshotFile(items) == Frame(Frames(first.snapshots)) + SnapshotFile(others);
    assert |Frame(first.bytes)| == 4 + |first.bytes| && |Frame(Frames(first.snapshots))| == 4 + |Frames(first.snapshots)|;
    hide BlockFile, SnapshotFile, Frame, Frames, ReadOne, ReadBack;
    if FirstWhole(first, cut, cutSnapshots, withSnapshots) {
      WholeHead(codec, first, BlockFile(others), SnapshotFile(others), cut, cutSnapshots, withSnapshots);
    } else {
      CutFrameEnds(codec, first.bytes, Frames(first.snapshots), BlockFile(others), SnapshotFile(others), withSnapshots, cut,
                   cutSnapshots);
    }
  }

  lemma WholeHead(codec: Codec, first: Written, blocks: Chunk, snapshots: Chunk, cut: nat, cutSnapshots: nat, withSnapshots: bool)
    requires Exportable(codec, first, withSnapshots) && FirstWhole(first, cut, cutSnapshots, withSnapshots)
    requires cut <= |Frame(first.bytes) + blocks| && cutSnapshots <= |Frame(Frames(first.snapshots)) + snapshots|
    ensures var cut', cutSnapshots' := cut - |Frame(first.bytes)|, Beyond(first, cutSnapshots, withSnapshots);
            && 0 <= cut' <= |blocks| && 0 <= cutSnapshots' <= |snapshots|
            && ReadOne(codec, Streams((Frame(first.bytes) + blocks)[..cut], (Frame(Frames(first.snapshots)) + snapshots)[..cutSnapshots],
                                      withSnapshots, 0))
            == Entry(Some(ReadBack(codec, first, withSnapshots)),
                     Streams(blocks[..cut'], snapshots[..cutSnapshots'], withSnapshots, 0))
  {
    var cut', cutSnapshots' := cut - |Frame(first.bytes)|, Beyond(first, cutSnapshots, withSnapshots);
    CutFrame(first.bytes, blocks, cut);
    if withSnapshots {
      CutFrame(Frames(first.snapshots), snapshots, cutSnapshots);
    }
    WholeFrameReads(codec, first, blocks[..cut'], snapshots[..cutSnapshots'], withSnapshots);
    hide ReadOne, ReadBack;
  }

  /** An export cut at any byte of either stream reads back, without an error, as exactly the pairs whose frames are whole
    * in both.
    */
  lemma {:induction false} CutExportReads(codec: Codec, items: seq<Written>, cut: nat, cutSnapshots: nat, withSnapshots: bool)
    requires AllExportable(codec, items, withSnapshots) && cut <= |BlockFile(items)| && cutSnapshots <= |SnapshotFile(items)|
    ensures ReadAll(codec, Streams(BlockFile(items)[..cut], SnapshotFile(items)[..cutSnapshots], withSnapshots, 0))
         == Reading(AllReadBack(codec, items[..Whole(items, cut, cutSnapshots, withSnapshots)], withSnapshots), false)
    decreases |items|
  {
    hide ReadOne, Exportable, BlockFile, SnapshotFile, AllReadBack;
    var n := Whole(items, cut, cutSnapshots, withSnapshots);
    if items == [] {
      NoFilesRead(codec, withSnapshots);
    } else {
      CutExportHead(codec, items, cut, cutSnapshots, withSnapshots);
      hide Frame, Frames;
      if n > 0 {
        var cut', cutSnapshots' := cut - |Frame(items[0].bytes)|, Beyond(items[0], cutSnapshots, withSnapshots);
        ReadBackHead(codec, items, n - 1, withSnapshots);
        CutExportReads(codec, items[1..], cut', cutSnapshots', withSnapshots);
        hide AllExportable;
      }
    }
  }

  lemma NoFilesRead(codec: Codec, withSnapshots: bool)
    ensures BlockFile([]) == [] && SnapshotFile([]) == []
    ensures ReadOne(codec, Streams([], [], withSnapshots, 0)) == End
  {
  }

  /** Reading back a whole export gives exactly what was written. */
  lemma ExportReads(codec: Codec, items: seq<Written>, withSnapshots: bool)
    requires AllExportable(codec, items, withSnapshots)
    ensures ReadAll(codec, Streams(BlockFile(items), SnapshotFile(items), withSnapshots, 0))
         == Reading(AllReadBack(codec, items, withSnapshots), false)
  {
    var blocks, snapshots := BlockFile(items), SnapshotFile(items);
    assert blocks[..|blocks|] == blocks && snapshots[..|snapshots|] == snapshots && items[..|items|] == items;
    CutExportReads(codec, items, |blocks|, |snapshots|, withSnapshots);
    NothingCut(items, withSnapshots);
  }

  lemma NothingCut(items: seq<Written>, withSnapshots: bool)
    ensures Whole(items, |BlockFile(items)|, |SnapshotFile(items)|, withSnapshots) == |items|
  {
    assert items[..|items|] == items;
    if items != [] {
      WholeExactly(items, |BlockFile(items)|, |SnapshotFile(items)|, withSnapshots, |items|);
    }
  }

  // ----- Input that is cut or malformed

  /** A frame that is to be skipped and whose body is cut is an error; cut inside its size, it is the end. */
  lemma CutWhileSkipping(codec: Codec, bytes: Chunk, packed: Chunk, cut: nat, cutSnapshots: nat, withSnapshots: bool, toSkip: nat)
    requires Fits(bytes) && Fits(packed) && toSkip > 0 && cut <= 4 + |bytes| && cutSnapshots <= 4 + |packed|
    ensures |Frame(bytes)| == 4 + |bytes| && |Frame(packed)| == 4 + |packed|
    ensures var step := ReadOne(codec, Streams(Frame(bytes)[..cut], Frame(packed)[..cutSnapshots], withSnapshots, toSkip));
            && (step.End? <==> cut < 4 || (withSnapshots && cutSnapshots < 4))
            && (step.Fail? <==> !step.End? && (cut < 4 + |bytes| || (withSnapshots && cutSnapshots < 4 + |packed|)))
  {
    assert Frame(bytes) + [] == Frame(bytes) && Frame(packed) + [] == Frame(packed);
    CutFrame(bytes, [], cut);
    CutFrame(packed, [], cutSnapshots);
    hide Frame, Unpack, Signed;
  }

  /** A whole frame that the codec cannot read is an error, and so are snapshots that do not unpack to one for each of the
    * block's transactions.
    */
  lemma MalformedFails(codec: Codec, bytes: Chunk, packed: Chunk, blocks: Chunk, snapshots: Chunk, withSnapshots: bool)
    requires Fits(bytes) && Fits(packed)
    ensures var step := ReadOne(codec, Streams(Frame(bytes) + blocks, Frame(packed) + snapshots, withSnapshots, 0));
            && !step.End?
            && (step.Fail? <==> codec(bytes).None? || (withSnapshots && Unpack(packed, 0, codec(bytes).value.txCount).None?))
  {
    SizeReadsBack(bytes, blocks);
    SizeReadsBack(packed, snapshots);
    hide Frame, Unpack, Signed;
  }

  /** A size of which the highest bit is set is negative, and an error unless the frame is skipped. */
  lemma NegativeSize(codec: Codec, src: Source)
    requires |src.blocks| >= 4 && HasSize(src.snapshots) && src.toSkip == 0
    requires src.blocks[0] >= 0x80 || (src.snapshots.Some? && src.snapshots.value[0] >= 0x80)
    ensures ReadOne(codec, src) == Fail
  {
    FirstByteIsSign(src.blocks[..4]);
    if src.snapshots.Some? {
      FirstByteIsSign(src.snapshots.value[..4]);
    }
    hide Signed;
  }

  lemma FirstByteIsSign(bytes: Chunk)
    requires |bytes| == 4
    ensures Signed(bytes) < 0 <==> bytes[0] >= 0x80
  {
    var one, two, three := bytes[..1], bytes[..2], bytes[..3];
    assert bytes[..3][..2] == two && two[..1] == one && one[..0] == [];
    assert Value(one) == bytes[0] && Value(two) == Value(one) * 256 + bytes[1];
    assert Value(three) == Value(two) * 256 + bytes[2] && Value(bytes) == Value(three) * 256 + bytes[3];
  }

  // ----- Resuming

  lemma FirstSkips(codec: Codec, items: seq<Written>, others: seq<Written>, withSnapshots: bool, k: nat)
    requires AllExportable(codec, items, withSnapshots) && AllExportable(codec, others, withSnapshots)
    requires items != [] && others != [] && k > 0
    ensures AllExportable(codec, items[1..], withSnapshots) && AllExportable(codec, others[1..], withSnapshots)
    ensures ReadAll(codec, Streams(BlockFile(items), SnapshotFile(others), withSnapshots, k))
         == ReadAll(codec, Streams(BlockFile(items[1..]), SnapshotFile(others[1..]), withSnapshots, k - 1))
  {
    hide Frame, Frames, ReadOne;
    assert Exportable(codec, items[0], withSnapshots) && Exportable(codec, others[0], withSnapshots);
    WholeFrameSkips(codec, items[0].bytes, Frames(others[0].snapshots), BlockFile(items[1..]), SnapshotFile(others[1..]), withSnapshots, k);
    hide Exportable;
  }

  /** Skipping `k` frames leaves each stream at its own item `k`. */
  lemma {:induction false} SkipLands(codec: Codec, items: seq<Written>, others: seq<Written>, withSnapshots: bool, k: nat)
    requires AllExportable(codec, items, withSnapshots) && AllExportable(codec, others, withSnapshots) && k <= |items| && k <= |others|
    ensures ReadAll(codec, Streams(BlockFile(items), SnapshotFile(others), withSnapshots, k))
         == ReadAll(codec, Streams(BlockFile(items[k..]), SnapshotFile(others[k..]), withSnapshots, 0))
    decreases k
  {
    hide ReadAll, BlockFile, SnapshotFile, AllExportable;
    if k == 0 {
      assert items[0..] == items && others[0..] == others;
    } else {
      FirstSkips(codec, items, others, withSnapshots, k);
      SkipLands(codec, items[1..], others[1..], withSnapshots, k - 1);
      assert items[1..][k - 1..] == items[k..] && others[1..][k - 1..] == others[k..];
    }
  }

  /** A stored block's height and the size of its bytes. */
  datatype Stored = Stored(height: nat, size: nat)

  function Offset(rows: seq<Stored>): nat {
    if rows == [] then 0
    else Offset(rows[..|rows| - 1]) + if Last(rows).height == 1 then 0 else Last(rows).size + 4
  }

  function Last<A>(s: seq<A>): A
    requires s != []
  {
    s[|s| - 1]
  }

  /** The blocks offset in the binary format, summed over the stored metas. */
  method BlocksOffset(rows: seq<Stored>) returns (offset: nat)
    ensures offset == Offset(rows)
  {
    offset := 0;
    for i := 0 to |rows|
      invariant offset == Offset(rows[..i])
    {
      assert rows[..i + 1][..i] == rows[..i];
      if rows[i].height != 1 {
        offset := offset + rows[i].size + 4;
      }
    }
    assert rows[..|rows|] == rows;
  }

  /** A node holds genesis and the first blocks of the export, each with the size of its exported bytes. */
  ghost predicate Holds(rows: seq<Stored>, items: seq<Written>) {
    && 1 <= |rows| <= |items| + 1 && rows[0].height == 1
    && forall i :: 1 <= i < |rows| ==> rows[i] == Stored(i + 1, |items[i - 1].bytes|)
  }

  lemma {:induction false} FileSplits(items: seq<Written>, k: nat)
    requires k <= |items|
    ensures BlockFile(items) == BlockFile(items[..k]) + BlockFile(items[k..])
    ensures SnapshotFile(items) == SnapshotFile(items[..k]) + SnapshotFile(items[k..])
    decreases k
  {
    if k == 0 {
      assert items[..0] == [] && items[0..] == items;
    } else {
      var others := items[1..];
      FileSplits(others, k - 1);
      assert items[..k][0] == items[0] && items[..k][1..] == others[..k - 1] && others[k - 1..] == items[k..];
      hide Frame, Frames;
    }
  }

  lemma {:induction false} OffsetCounts(rows: seq<Stored>, items: seq<Written>)
    requires Holds(rows, items)
    ensures Offset(rows) == |BlockFile(items[..|rows| - 1])|
    decreases |rows|
  {
    var n := |rows| - 1;
    if n == 0 {
      assert rows[..0] == [] && Last(rows) == rows[0];
    } else {
      OffsetCounts(rows[..n], items);
      FileSplits(items[..n], n - 1);
      assert items[..n][..n - 1] == items[..n - 1] && items[..n][n - 1..] == [items[n - 1]];
      assert BlockFile([items[n - 1]]) == Frame(items[n - 1].bytes);
    }
  }

  /** In the binary format a node at height `H` resumes at the frame of height `H + 1`: the summed sizes are its position. */
  lemma OffsetLands(rows: seq<Stored>, items: seq<Written>)
    requires Holds(rows, items)
    ensures Offset(rows) <= |BlockFile(items)| && BlockFile(items)[Offset(rows)..] == BlockFile(items[|rows| - 1..])
    ensures Offset(rows) == 0 <==> |rows| == 1
  {
    OffsetCounts(rows, items);
    FileSplits(items, |rows| - 1);
    if |rows| > 1 {
      assert items[..|rows| - 1] != [];
    }
  }

  // The size buffer of the skip loop is reused, and a short read overwrites only its head.
  function Refill(buffer: Chunk, stream: Chunk): (filled: Chunk)
    requires |buffer| == 4
    ensures |filled| == 4
  {
    if |stream| >= 4 then stream[..4] else stream + buffer[|stream|..]
  }

  function Rest(stream: Chunk, n: nat): Chunk { if n <= |stream| then stream[n..] else [] }

  /** One turn of the skip loop: what is left and the buffer, or none when the frame is cut. */
  function SkipOne(stream: Chunk, buffer: Chunk): (left: Option<Chunk>)
    requires |buffer| == 4
  {
    var rest, size := Rest(stream, 4), Max(Signed(Refill(buffer, stream)), 0);
    if size > |rest| then None else Some(rest[size..])
  }

  /** Skipping `count` snapshot frames. */
  function SkipFrames(stream: Chunk, buffer: Chunk, count: nat): Option<Chunk>
    requires |buffer| == 4
    decreases count
  {
    if count == 0 then Some(stream)
    else match SkipOne(stream, buffer)
      case None => None
      case Some(rest) => SkipFrames(rest, Refill(buffer, stream), count - 1)
  }

  /** The skip loop of `main` over a node of the given height: the size is read into the buffer, and so many bytes are skipped. */
  method SkipSnapshots(stream: Chunk, height: nat) returns (left: Option<Chunk>)
    requires height >= 1
    ensures left == SkipFrames(stream, [0, 0, 0, 0], height - 1)
  {
    hide Signed, Rest;
    var unread, sizeBytes: Chunk := stream, [0, 0, 0, 0];
    for h := 2 to height + 1
      invariant |sizeBytes| == 4
      invariant SkipFrames(unread, sizeBytes, height + 1 - h) == SkipFrames(stream, [0, 0, 0, 0], height - 1)
    {
      sizeBytes := if |unread| >= 4 then unread[..4] else unread + sizeBytes[|unread|..];
      unread := Rest(unread, 4);
      var size := Signed(sizeBytes);
      if size > |unread| {
        return None;
      }
      unread := unread[Max(size, 0)..];
    }
    left := Some(unread);
  }

  /** The skip loop passes over as many whole frames, whatever follows them. */
  lemma {:induction false} SkipFramesPast(codec: Codec, items: seq<Written>, rest: Chunk, buffer: Chunk)
    requires AllExportable(codec, items, true) && |buffer| == 4
    ensures SkipFrames(SnapshotFile(items) + rest, buffer, |items|) == Some(rest)
    decreases |items|
  {
    if items == [] {
      assert SnapshotFile(items) + rest == rest;
    } else {
      var packed, more := Frames(items[0].snapshots), SnapshotFile(items[1..]) + rest;
      var stream := SnapshotFile(items) + rest;
      assert Exportable(codec, items[0], true);
      Associates(Frame(packed), SnapshotFile(items[1..]), rest);
      SizeReadsBack(packed, more);
      assert stream[4..][|packed|..] == Past(stream, |packed|);
      hide Frame, Frames, Signed, Exportable;
      SkipFramesPast(codec, items[1..], rest, stream[..4]);
    }
  }

  /** So it lands on the entry of height `H + 1`. */
  lemma SkipFramesLands(codec: Codec, items: seq<Written>, buffer: Chunk, k: nat)
    requires AllExportable(codec, items, true) && k <= |items| && |buffer| == 4
    ensures SkipFrames(SnapshotFile(items), buffer, k) == Some(SnapshotFile(items[k..]))
  {
    FileSplits(items, k);
    hide SnapshotFile, BlockFile, Exportable;
    SkipFramesPast(codec, items[..k], SnapshotFile(items[k..]), buffer);
  }

  /** What a node holding `rows` reads after resuming, in the binary format or not. */
  function Resumed(binary: bool, rows: seq<Stored>, blocks: Chunk, snapshots: Option<Chunk>): Option<Source>
    requires rows != []
  {
    var offset := if binary then Offset(rows) else 0;
    var left := if snapshots.Some? then SkipFrames(snapshots.value, [0, 0, 0, 0], |rows| - 1) else Some([]);
    if left.None? then None
    else Some(Source(Rest(blocks, offset), if snapshots.Some? then left else None, if offset == 0 then |rows| - 1 else 0))
  }

  /** Resuming puts the reader at height `H + 1` in the binary format, with snapshots or without. */
  lemma BinaryResumes(codec: Codec, rows: seq<Stored>, items: seq<Written>, withSnapshots: bool)
    requires AllExportable(codec, items, withSnapshots) && Holds(rows, items)
    ensures Resumed(true, rows, BlockFile(items), if withSnapshots then Some(SnapshotFile(items)) else None)
         == Some(Streams(BlockFile(items[|rows| - 1..]), SnapshotFile(items[|rows| - 1..]), withSnapshots, 0))
  {
    OffsetLands(rows, items);
    if withSnapshots {
      SkipFramesLands(codec, items, [0, 0, 0, 0], |rows| - 1);
    }
    hide AllExportable, Holds, Offset, BlockFile, SnapshotFile;
    hide Frame, Frames, Exportable, SkipFrames;
  }

  /** An item is whole in a cut export exactly if it is whole once the items before it are taken off. */
  lemma WholeOn(items: seq<Written>, cut: int, cutSnapshots: int, withSnapshots: bool, k: nat, m: nat)
    requires 0 < m && k + m <= |items|
    ensures var c, cs := cut - |BlockFile(items[..k])|, cutSnapshots - |SnapshotFile(items[..k])|;
            k + m <= Whole(items, cut, cutSnapshots, withSnapshots) <==> m <= Whole(items[k..], c, cs, withSnapshots)
  {
    hide Whole, BlockFile, SnapshotFile;
    WholeExactly(items, cut, cutSnapshots, withSnapshots, k + m);
    WholeExactly(items[k..], cut - |BlockFile(items[..k])|, cutSnapshots - |SnapshotFile(items[..k])|, withSnapshots, m);
    PrefixSizes(items, k, m);
  }

  lemma WholeLater(items: seq<Written>, cut: int, cutSnapshots: int, withSnapshots: bool, k: nat)
    requires k <= Whole(items, cut, cutSnapshots, withSnapshots)
    ensures var c, cs := cut - |BlockFile(items[..k])|, cutSnapshots - |SnapshotFile(items[..k])|;
            Whole(items[k..], c, cs, withSnapshots) == Whole(items, cut, cutSnapshots, withSnapshots) - k
  {
    var n := Whole(items, cut, cutSnapshots, withSnapshots);
    var m := Whole(items[k..], cut - |BlockFile(items[..k])|, cutSnapshots - |SnapshotFile(items[..k])|, withSnapshots);
    hide Whole, BlockFile, SnapshotFile;
    if n > k {
      WholeOn(items, cut, cutSnapshots, withSnapshots, k, n - k);
    }
    if m > 0 {
      WholeOn(items, cut, cutSnapshots, withSnapshots, k, m);
    }
  }

  lemma HeldFits(items: seq<Written>, cut: nat, cutSnapshots: nat, withSnapshots: bool, k: nat)
    requires k <= Whole(items, cut, cutSnapshots, withSnapshots)
    ensures |BlockFile(items[..k])| <= cut && (withSnapshots ==> |SnapshotFile(items[..k])| <= cutSnapshots)
  {
    if k > 0 {
      hide Whole, BlockFile, SnapshotFile;
      WholeExactly(items, cut, cutSnapshots, withSnapshots, k);
    }
  }

  lemma PrefixSizes(items: seq<Written>, k: nat, m: nat)
    requires k + m <= |items|
    ensures |BlockFile(items[..k + m])| == |BlockFile(items[..k])| + |BlockFile(items[k..][..m])|
    ensures |SnapshotFile(items[..k + m])| == |SnapshotFile(items[..k])| + |SnapshotFile(items[k..][..m])|
  {
    FileSplits(items[..k + m], k);
    assert items[..k + m][..k] == items[..k] && items[..k + m][k..] == items[k..][..m];
  }

  lemma CutPast(a: Chunk, b: Chunk, cut: nat)
    requires |a| <= cut <= |a + b|
    ensures (a + b)[..cut] == a + b[..cut - |a|] && Rest((a + b)[..cut], |a|) == b[..cut - |a|]
  {
  }

  /** A cut export, as the reader gets it. */
  ghost function CutFiles(items: seq<Written>, cut: nat, cutSnapshots: nat, withSnapshots: bool): Source
    requires cut <= |BlockFile(items)| && cutSnapshots <= |SnapshotFile(items)|
  {
    Streams(BlockFile(items)[..cut], SnapshotFile(items)[..cutSnapshots], withSnapshots, 0)
  }

  lemma CutLands(codec: Codec, rows: seq<Stored>, items: seq<Written>, cut: nat, cutSnapshots: nat, withSnapshots: bool)
    requires AllExportable(codec, items, withSnapshots) && Holds(rows, items)
    requires cut <= |BlockFile(items)| && cutSnapshots <= |SnapshotFile(items)|
    requires |rows| - 1 <= Whole(items, cut, cutSnapshots, withSnapshots)
    ensures var k, files := |rows| - 1, CutFiles(items, cut, cutSnapshots, withSnapshots);
            var c, cs := cut - |BlockFile(items[..k])|, if withSnapshots then cutSnapshots - |SnapshotFile(items[..k])| else 0;
            && 0 <= c <= |BlockFile(items[k..])| && 0 <= cs <= |SnapshotFile(items[k..])|
            && Resumed(true, rows, files.blocks, files.snapshots) == Some(CutFiles(items[k..], c, cs, withSnapshots))
  {
    hide Holds, Exportable, BlockFile, SnapshotFile, Whole, Offset, SkipFrames, Rest;
    RowsLength(rows, items);
    var k := |rows| - 1;
    var held, later := items[..k], items[k..];
    OffsetCounts(rows, items);
    OffsetLands(rows, items);
    FileSplits(items, k);
    HeldFits(items, cut, cutSnapshots, withSnapshots, k);
    CutPast(BlockFile(held), BlockFile(later), cut);
    if withSnapshots {
      CutPast(SnapshotFile(held), SnapshotFile(later), cutSnapshots);
      SkipFramesPast(codec, held, SnapshotFile(later)[..cutSnapshots - |SnapshotFile(held)|], [0, 0, 0, 0]);
    }
    hide AllExportable;
  }

  /** Resuming from a cut export, a node that holds no more than what is whole in it reads what else is. */
  lemma CutResumes(codec: Codec, rows: seq<Stored>, items: seq<Written>, cut: nat, cutSnapshots: nat, withSnapshots: bool)
    requires AllExportable(codec, items, withSnapshots) && Holds(rows, items)
    requires cut <= |BlockFile(items)| && cutSnapshots <= |SnapshotFile(items)|
    requires |rows| - 1 <= Whole(items, cut, cutSnapshots, withSnapshots)
    ensures var n, files := Whole(items, cut, cutSnapshots, withSnapshots), CutFiles(items, cut, cutSnapshots, withSnapshots);
            var source := Resumed(true, rows, files.blocks, files.snapshots);
            && source.Some? && !ReadAll(codec, source.value).failed
            && ReadAll(codec, source.value).pairs == AllReadBack(codec, items, withSnapshots)[|rows| - 1..n]
  {
    hide BlockFile, SnapshotFile, Whole, AllExportable, AllReadBack, ReadAll, Resumed, Holds;
    RowsLength(rows, items);
    var k, n := |rows| - 1, Whole(items, cut, cutSnapshots, withSnapshots);
    var c, cs := cut - |BlockFile(items[..k])|, cutSnapshots - |SnapshotFile(items[..k])|;
    CutLands(codec, rows, items, cut, cutSnapshots, withSnapshots);
    WholeLater(items, cut, cutSnapshots, withSnapshots, k);
    WithoutSnapshots(items[k..], c, cs);
    LaterReadBack(codec, items, withSnapshots, k, n);
    CutExportReads(codec, items[k..], c, if withSnapshots then cs else 0, withSnapshots);
  }

  lemma RowsLength(rows: seq<Stored>, items: seq<Written>)
    requires Holds(rows, items)
    ensures 1 <= |rows| <= |items| + 1
  {
  }

  lemma LaterReadBack(codec: Codec, items: seq<Written>, withSnapshots: bool, k: nat, n: nat)
    requires AllExportable(codec, items, withSnapshots) && k <= n <= |items|
    ensures AllExportable(codec, items[k..], withSnapshots) && AllExportable(codec, items[k..][..n - k], withSnapshots)
    ensures AllReadBack(codec, items[k..][..n - k], withSnapshots) == AllReadBack(codec, items, withSnapshots)[k..n]
  {
    hide Frames, Fits;
  }

  lemma {:induction false} WithoutSnapshots(items: seq<Written>, cut: int, cutSnapshots: int)
    ensures Whole(items, cut, cutSnapshots, false) == Whole(items, cut, 0, false)
  {
    hide Frame, Frames;
  }

  /** In the other format it does so when there are no snapshots. */
  lemma OtherResumes(codec: Codec, rows: seq<Stored>, items: seq<Written>)
    requires AllExportable(codec, items, false) && Holds(rows, items)
    ensures var resumed := Resumed(false, rows, BlockFile(items), None);
            && resumed.Some?
            && ReadAll(codec, resumed.value) == ReadAll(codec, Streams(BlockFile(items[|rows| - 1..]), [], false, 0))
  {
    SkipLands(codec, items, items, false, |rows| - 1);
    hide ReadAll, BlockFile, SnapshotFile, Exportable, SkipFrames;
  }

  /** With snapshots, these are skipped once by `main` and once more by the reader, so that from there on each block is
    * read beside the snapshots of the block `H - 1` places further on; past the middle of the file nothing is read at all.
    */
  lemma OtherSkipsTwice(codec: Codec, rows: seq<Stored>, items: seq<Written>)
    requires AllExportable(codec, items, true) && Holds(rows, items)
    ensures var k, resumed := |rows| - 1, Resumed(false, rows, BlockFile(items), Some(SnapshotFile(items)));
            && resumed.Some?
            && ReadAll(codec, resumed.value)
            == if 2 * k <= |items| then ReadAll(codec, Streams(BlockFile(items[k..]), SnapshotFile(items[2 * k..]), true, 0))
               else Reading([], false)
  {
    hide ReadAll, BlockFile, SnapshotFile, SkipFrames, Offset, AllExportable, Holds;
    RowsLength(rows, items);
    var k := |rows| - 1;
    SkipFramesLands(codec, items, [0, 0, 0, 0], k);
    LaterExportable(codec, items, k);
    if 2 * k <= |items| {
      SkipLands(codec, items, items[k..], true, k);
    } else {
      SkipRunsOut(codec, items, items[k..], k);
    }
  }

  lemma LaterExportable(codec: Codec, items: seq<Written>, k: nat)
    requires AllExportable(codec, items, true) && k <= |items|
    ensures AllExportable(codec, items[k..], true)
    ensures 2 * k <= |items| ==> items[k..][k..] == items[2 * k..]
  {
    hide Exportable;
  }

  lemma NoSnapshotsLeft(codec: Codec, blocks: Chunk, toSkip: nat)
    ensures ReadAll(codec, Streams(blocks, SnapshotFile([]), true, toSkip)) == Reading([], false)
  {
    assert ReadOne(codec, Streams(blocks, [], true, toSkip)) == End;
  }

  /** Skipping more frames than the snapshots have ends the input without an error. */
  lemma {:induction false} SkipRunsOut(codec: Codec, items: seq<Written>, others: seq<Written>, k: nat)
    requires AllExportable(codec, items, true) && AllExportable(codec, others, true) && |others| < k <= |items|
    ensures ReadAll(codec, Streams(BlockFile(items), SnapshotFile(others), true, k)) == Reading([], false)
    decreases k
  {
    hide ReadAll, BlockFile, SnapshotFile, AllExportable;
    if others == [] {
      NoSnapshotsLeft(codec, BlockFile(items), k);
    } else {
      FirstSkips(codec, items, others, true, k);
      SkipRunsOut(codec, items[1..], others[1..], k - 1);
    }
  }

  /** Whatever the blocks, a pair takes a frame of snapshots. */
  lemma PairTakesFrame(codec: Codec, blocks: Chunk, packed: Chunk, rest: Chunk)
    requires Fits(packed)
    ensures var step := ReadOne(codec, Streams(blocks, Frame(packed) + rest, true, 0));
            step.Entry? ==> step.rest.snapshots == Some(rest) && step.rest.toSkip == 0
  {
    SizeReadsBack(packed, rest);
    hide Frame, Unpack, Signed;
  }

  lemma {:induction false} PairsWithin(codec: Codec, blocks: Chunk, others: seq<Written>)
    requires AllExportable(codec, others, true)
    ensures |ReadAll(codec, Streams(blocks, SnapshotFile(others), true, 0)).pairs| <= |others|
    decreases |others|
  {
    if others == [] {
      assert SnapshotFile(others) == [];
    } else {
      assert Exportable(codec, others[0], true);
      PairTakesFrame(codec, blocks, Frames(others[0].snapshots), SnapshotFile(others[1..]));
      var src := Streams(blocks, SnapshotFile(others), true, 0);
      var step := ReadOne(codec, src);
      hide Frame, Frames, ReadOne, Exportable;
      if step.Entry? {
        PairsWithin(codec, step.rest.blocks, others[1..]);
        assert step.rest == Streams(step.rest.blocks, SnapshotFile(others[1..]), true, 0);
      }
    }
  }

  /** What follows the first `k` items. */
  ghost function Following(codec: Codec, items: seq<Written>, k: nat): Reading
    requires AllExportable(codec, items, true) && k <= |items|
  {
    Reading(AllReadBack(codec, items, true)[k..], false)
  }

  lemma NothingFollows(codec: Codec, items: seq<Written>, k: nat)
    requires AllExportable(codec, items, true) && k <= |items|
    ensures Following(codec, items, k) == Reading([], false) <==> k == |items|
  {
    hide Exportable;
  }

  lemma TwiceSkippedExactly(codec: Codec, items: seq<Written>, k: nat)
    requires AllExportable(codec, items, true) && 2 * k <= |items|
    ensures (ReadAll(codec, Streams(BlockFile(items[k..]), SnapshotFile(items[2 * k..]), true, 0)) == Following(codec, items, k))
            <==> k == 0
  {
    hide ReadAll, BlockFile, SnapshotFile, AllReadBack, Exportable;
    if k == 0 {
      assert items[0..] == items;
      ExportReads(codec, items, true);
    } else {
      assert AllExportable(codec, items[2 * k..], true);
      PairsWithin(codec, BlockFile(items[k..]), items[2 * k..]);
    }
  }

  /** So resuming with snapshots reads what follows the node's blocks if and only if the node holds nothing of the file, or
    * all of it.
    */
  lemma OtherResumesExactly(codec: Codec, rows: seq<Stored>, items: seq<Written>)
    requires AllExportable(codec, items, true) && Holds(rows, items)
    ensures var k, resumed := |rows| - 1, Resumed(false, rows, BlockFile(items), Some(SnapshotFile(items)));
            && resumed.Some?
            && (ReadAll(codec, resumed.value) == Following(codec, items, k) <==> k == 0 || k == |items|)
  {
    var k := |rows| - 1;
    assert k <= |items|;
    hide ReadAll, BlockFile, SnapshotFile, Resumed, Holds, AllExportable, Following;
    OtherSkipsTwice(codec, rows, items);
    NothingFollows(codec, items, k);
    if 2 * k <= |items| {
      TwiceSkippedExactly(codec, items, k);
    }
  }
}
