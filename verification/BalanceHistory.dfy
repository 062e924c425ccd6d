/** Balance history: the same prevHeight-linked records as stakes have, the explorer's listing of them, and its scan for
  * broken links.
  */
module BalanceHistory {
  import opened Periods
  import opened StakeLock

  // ----- Writing

  /** A balance is written only when it changes. */
  function SetBalance(s: Stored, h: Height, amount: nat): Stored {
    if amount == s.current.amount then s else SetStake(s, h, amount)
  }

  /** Old nodes are deleted by range, up to a height the current entry has reached. */
  function Cleanup(s: Stored, below: Height): Stored {
    s.(nodes := map h | h in s.nodes && h >= below :: s.nodes[h])
  }

  // ----- Listing

  /** Following links from `start` reaches 0 in at most `n` steps. */
  predicate EndsBy(nodes: map<Height, StakeNode>, start: Height, n: nat)
    decreases n
  {
    start == 0 || (n > 0 && EndsBy(nodes, NodeAt(nodes, start).prevHeight, n - 1))
  }

  ghost predicate Ends(nodes: map<Height, StakeNode>, start: Height) {
    exists n: nat :: EndsBy(nodes, start, n)
  }

  /** The entries on the way, `n` of them at most. */
  function Followed(nodes: map<Height, StakeNode>, start: Height, n: nat): seq<Write>
    decreases n
  {
    if start == 0 || n == 0 then []
    else [Write(start, NodeAt(nodes, start).amount)] + Followed(nodes, NodeAt(nodes, start).prevHeight, n - 1)
  }

  function Reversed(writes: seq<Write>): seq<Write> {
    if writes == [] then [] else Reversed(writes[1..]) + [writes[0]]
  }

  lemma ReversedPrepend(entry: Write, writes: seq<Write>)
    ensures Reversed([entry] + writes) == Reversed(writes) + [entry]
  {
    assert ([entry] + writes)[1..] == writes;
  }

  lemma Regroup(a: seq<Write>, entry: Write, b: seq<Write>)
    ensures a + [entry] + b == a + ([entry] + b)
  {
  }

  lemma ListingStep(nodes: map<Height, StakeNode>, height: Height, n: nat, acc: seq<Write>)
    requires height > 0 && n > 0
    ensures Reversed([Write(height, NodeAt(nodes, height).amount)] + acc) + Followed(nodes, NodeAt(nodes, height).prevHeight, n - 1)
         == Reversed(acc) + Followed(nodes, height, n)
  {
    var node := NodeAt(nodes, height);
    var entry := Write(height, node.amount);
    assert Followed(nodes, height, n) == [entry] + Followed(nodes, node.prevHeight, n - 1);
    hide Followed, Reversed;
    ReversedPrepend(entry, acc);
    Regroup(Reversed(acc), entry, Followed(nodes, node.prevHeight, n - 1));
  }

  /** `loadBalanceHistory`: the current entry, then every node its links lead to, wherever following them ends. */
  method LoadBalanceHistory(s: Stored, ghost n: nat) returns (history: seq<Write>)
    requires EndsBy(s.nodes, s.current.prevHeight, n)
    ensures history == [Write(s.current.height, s.current.amount)] + Followed(s.nodes, s.current.prevHeight, n)
  {
    var height, acc: seq<Write> := s.current.prevHeight, [];
    ghost var left := n;
    while height > 0
      invariant EndsBy(s.nodes, height, left)
      invariant Reversed(acc) + Followed(s.nodes, height, left) == Followed(s.nodes, s.current.prevHeight, n)
      decreases left
    {
      var node := NodeAt(s.nodes, height);
      ListingStep(s.nodes, height, left, acc);
      hide Reversed, Followed;
      acc := [Write(height, node.amount)] + acc;
      height := node.prevHeight;
      left := left - 1;
    }
    history := [Write(s.current.height, s.current.amount)] + Reversed(acc);
  }

  ghost predicate Decreasing(nodes: map<Height, StakeNode>) {
    forall h :: h in nodes ==> nodes[h].prevHeight < h || nodes[h].prevHeight == 0
  }

  /** Where links go down, following them ends, and gives the walk down. */
  lemma {:induction false} DownEnds(nodes: map<Height, StakeNode>, start: Height, n: nat)
    requires Decreasing(nodes) && n >= start
    ensures EndsBy(nodes, start, n) && Followed(nodes, start, n) == Walk(nodes, start)
    decreases start
  {
    if start > 0 {
      DownEnds(nodes, NodeAt(nodes, start).prevHeight, n - 1);
    }
  }

  /** Writing keeps the record of all changes. */
  lemma SetBalanceRepresents(s: Stored, writes: seq<Write>, h: Height, amount: nat)
    requires Represents(s, writes) && h > s.current.height
    ensures Represents(SetBalance(s, h, amount), if amount == s.current.amount then writes else [Write(h, amount)] + writes)
  {
    if amount != s.current.amount {
      SetStakeRepresents(s, writes, h, amount);
    }
  }

  lemma {:induction false} LinksGoDown(nodes: map<Height, StakeNode>, start: Height, writes: seq<Write>, h: Height)
    requires Linked(nodes, start, writes) && Wrote(writes, h)
    ensures h in nodes && nodes[h].prevHeight < h
    decreases |writes|
  {
    if writes[0].height != h {
      var i :| 0 <= i < |writes| && writes[i].height == h;
      assert writes[1..][i - 1].height == h;
      LinksGoDown(nodes, nodes[start].prevHeight, writes[1..], h);
    }
  }

  /** So the listing ends on everything the node writes, cleaned up or not. */
  lemma WrittenLinksGoDown(s: Stored, writes: seq<Write>, below: Height)
    requires Represents(s, writes)
    ensures Decreasing(s.nodes) && Decreasing(Cleanup(s, below).nodes)
  {
    forall h | h in s.nodes ensures s.nodes[h].prevHeight < h {
      LinksGoDown(s.nodes, s.current.height, writes, h);
    }
  }

  /** The listing is every write, newest first. */
  lemma HistoryIsWrites(s: Stored, writes: seq<Write>)
    requires Represents(s, writes) && writes != []
    ensures [Write(s.current.height, s.current.amount)] + Walk(s.nodes, s.current.prevHeight) == writes
    ensures Descending(writes)
  {
    WalkIsWrites(s.nodes, s.current.height, writes);
    WritesDescend(s.nodes, s.current.height, writes);
    assert writes == [writes[0]] + writes[1..];
    WalkIsWrites(s.nodes, s.current.prevHeight, writes[1..]);
  }

  /** The writes a cleanup leaves, and what the listing then ends with: where an older write was deleted, its height with a
    * balance of zero.
    */
  function Survivors(writes: seq<Write>, below: Height): seq<Write> {
    if writes == [] then []
    else if writes[0].height >= below then [writes[0]] + Survivors(writes[1..], below)
    else [Write(writes[0].height, 0)]
  }

  lemma {:induction false} WalkAfterCleanup(nodes: map<Height, StakeNode>, left: map<Height, StakeNode>, start: Height,
                                            writes: seq<Write>, below: Height)
    requires Linked(nodes, start, writes)
    requires forall h :: h in left <==> h in nodes && h >= below
    requires forall h :: h in left ==> left[h] == nodes[h]
    ensures Walk(left, start) == Survivors(writes, below)
    decreases |writes|
  {
    if writes != [] && start >= below {
      WalkAfterCleanup(nodes, left, nodes[start].prevHeight, writes[1..], below);
    }
  }

  /** After a cleanup the listing is right down to the deleted part, and then shows one entry that was never written. */
  lemma HistoryAfterCleanup(s: Stored, writes: seq<Write>, below: Height)
    requires Represents(s, writes) && writes != [] && below <= s.current.height
    ensures var left := Cleanup(s, below);
            [Write(left.current.height, left.current.amount)] + Walk(left.nodes, left.current.prevHeight) == Survivors(writes, below)
  {
    WalkAfterCleanup(s.nodes, Cleanup(s, below).nodes, s.current.prevHeight, writes[1..], below);
  }

  // ----- Scanning

  /** A stored node under its key. */
  datatype Row = Row(address: nat, height: Height, node: StakeNode)

  /** Rows in key order. */
  ghost predicate Sorted(rows: seq<Row>) {
    forall i, j :: 0 <= i < j < |rows| ==>
      rows[i].address < rows[j].address || (rows[i].address == rows[j].address && rows[i].height < rows[j].height)
  }

  /** A row whose link is not the row before it. The oldest row of an address is not looked at, unless its id is 0. */
  predicate Broken(rows: seq<Row>, i: nat)
    requires i < |rows|
  {
    if i == 0 then rows[0].address == 0 && rows[0].node.prevHeight != 0
    else rows[i - 1].address == rows[i].address && rows[i].node.prevHeight != rows[i - 1].height
  }

  /** The scan for corruptions warns about exactly the broken rows. */
  method Scan(rows: seq<Row>) returns (warned: set<nat>, addressCount: nat)
    ensures forall i :: i in warned <==> 0 <= i < |rows| && Broken(rows, i)
  {
    warned, addressCount := {}, 0;
    var thisAddressId, prevHeight := 0, 0;
    for i := 0 to |rows|
      invariant forall k :: k in warned <==> 0 <= k < i && Broken(rows, k)
      invariant if i == 0 then thisAddressId == 0 && prevHeight == 0
                else thisAddressId == rows[i - 1].address && prevHeight == rows[i - 1].height
    {
      if rows[i].address != thisAddressId {
        thisAddressId := rows[i].address;
        addressCount := addressCount + 1;
      } else if rows[i].node.prevHeight != prevHeight {
        warned := warned + {i};
      }
      prevHeight := rows[i].height;
    }
  }

  /** The rows `from` to `until` are those of one address. */
  ghost predicate RowsOf(rows: seq<Row>, address: nat, from: nat, until: nat) {
    && from < until <= |rows|
    && forall i :: 0 <= i < |rows| ==> (rows[i].address == address <==> from <= i < until)
  }

  /** Looking up a node of that address by height. */
  ghost predicate Indexes(nodes: map<Height, StakeNode>, rows: seq<Row>, from: nat, until: nat)
    requires until <= |rows|
  {
    forall i :: from <= i < until ==> rows[i].height in nodes && nodes[rows[i].height] == rows[i].node
  }

  /** The first `n` heights that following links from `start` visits. */
  function Visits(nodes: map<Height, StakeNode>, start: Height, n: nat): (heights: seq<Height>)
    ensures |heights| == n
    decreases n
  {
    if n == 0 then [] else [start] + Visits(nodes, NodeAt(nodes, start).prevHeight, n - 1)
  }

  /** The heights of the `n` rows that end before `until`, newest first. */
  function Backwards(rows: seq<Row>, until: nat, n: nat): (heights: seq<Height>)
    requires n <= until <= |rows|
    ensures |heights| == n
    decreases n
  {
    if n == 0 then [] else [rows[until - 1].height] + Backwards(rows, until - 1, n - 1)
  }

  ghost predicate NoneBroken(rows: seq<Row>, from: nat, until: nat)
    requires until <= |rows|
  {
    forall i :: from < i < until ==> !Broken(rows, i)
  }

  /** An address has no broken link exactly when following links from its newest row visits all its rows, newest first. */
  lemma {:induction false} UnbrokenIffVisited(rows: seq<Row>, nodes: map<Height, StakeNode>, from: nat, until: nat)
    requires from < until <= |rows| && Indexes(nodes, rows, from, until)
    requires forall i :: from <= i < until ==> rows[i].address == rows[from].address
    ensures NoneBroken(rows, from, until) <==>
            Visits(nodes, rows[until - 1].height, until - from) == Backwards(rows, until, until - from)
    decreases until
  {
    var n := until - from;
    if n > 1 {
      UnbrokenIffVisited(rows, nodes, from, until - 1);
      var next := rows[until - 1].node.prevHeight;
      PrependSame(rows[until - 1].height, Visits(nodes, next, n - 1), Backwards(rows, until - 1, n - 1));
      BrokenStep(rows, from, until);
      assert Visits(nodes, next, n - 1)[0] == next && Backwards(rows, until - 1, n - 1)[0] == rows[until - 2].height;
      assert nodes[rows[until - 1].height] == rows[until - 1].node;
      hide NoneBroken, Indexes;
    }
  }

  lemma PrependSame(h: Height, a: seq<Height>, b: seq<Height>)
    ensures [h] + a == [h] + b <==> a == b
  {
    assert ([h] + a)[1..] == a && ([h] + b)[1..] == b;
  }

  lemma BrokenStep(rows: seq<Row>, from: nat, until: nat)
    requires from + 1 < until <= |rows| && rows[until - 2].address == rows[until - 1].address
    ensures NoneBroken(rows, from, until) <==>
            NoneBroken(rows, from, until - 1) && rows[until - 1].node.prevHeight == rows[until - 2].height
  {
    assert Broken(rows, until - 1) <==> rows[until - 1].node.prevHeight != rows[until - 2].height;
  }

  lemma {:induction false} BackwardsDescend(rows: seq<Row>, until: nat, n: nat)
    requires n <= until <= |rows| && Sorted(rows)
    requires forall i :: until - n <= i < until ==> rows[i].address == rows[until - 1].address
    ensures forall i :: 0 <= i < n ==> Backwards(rows, until, n)[i] == rows[until - 1 - i].height
    ensures forall i, j :: 0 <= i < j < n ==> Backwards(rows, until, n)[i] > Backwards(rows, until, n)[j]
    decreases n
  {
    if n > 0 {
      BackwardsDescend(rows, until - 1, n - 1);
    }
  }

  /** If the scan is silent, then for every address following links from its newest row visits all its rows, in strictly
    * descending height.
    */
  lemma SilentScan(rows: seq<Row>, address: nat, nodes: map<Height, StakeNode>, from: nat, until: nat)
    requires Sorted(rows) && RowsOf(rows, address, from, until) && Indexes(nodes, rows, from, until)
    requires forall i :: 0 <= i < |rows| ==> !Broken(rows, i)
    ensures var visited := Visits(nodes, rows[until - 1].height, until - from);
            && (forall i :: 0 <= i < until - from ==> visited[i] == rows[until - 1 - i].height)
            && (forall i, j :: 0 <= i < j < until - from ==> visited[i] > visited[j])
  {
    UnbrokenIffVisited(rows, nodes, from, until);
    BackwardsDescend(rows, until, until - from);
  }

  // ----- Where the links end

  /** The address's rows are all the nodes there are for it. */
  ghost predicate Exactly(nodes: map<Height, StakeNode>, rows: seq<Row>, from: nat, until: nat)
    requires until <= |rows|
  {
    Indexes(nodes, rows, from, until) && forall h :: h in nodes ==> RowAt(rows, from, until, h)
  }

  ghost predicate RowAt(rows: seq<Row>, from: nat, until: nat, h: Height)
    requires until <= |rows|
  {
    exists i :: from <= i < until && rows[i].height == h
  }

  /** The address's entries, newest first. */
  function Entries(rows: seq<Row>, until: nat, n: nat): seq<Write>
    requires n <= until <= |rows|
    decreases n
  {
    if n == 0 then []
    else [Write(rows[until - 1].height, rows[until - 1].node.amount)] + Entries(rows, until - 1, n - 1)
  }

  /** Unbroken links lead through all rows and on to where the oldest one leads. */
  lemma {:induction false} ThroughRows(rows: seq<Row>, nodes: map<Height, StakeNode>, from: nat, until: nat, more: nat)
    requires from < until <= |rows| && Indexes(nodes, rows, from, until) && NoneBroken(rows, from, until)
    requires forall i :: from <= i < until ==> rows[i].address == rows[from].address && rows[i].height > 0
    ensures EndsBy(nodes, rows[until - 1].height, until - from + more) <==> EndsBy(nodes, rows[from].node.prevHeight, more)
    ensures Followed(nodes, rows[until - 1].height, until - from + more)
         == Entries(rows, until, until - from) + Followed(nodes, rows[from].node.prevHeight, more)
    decreases until
  {
    var n, last := until - from, rows[until - 1];
    assert NodeAt(nodes, last.height) == last.node;
    if n == 1 {
      assert Entries(rows, until, 1) == [Write(last.height, last.node.amount)] + [];
    } else {
      BrokenStep(rows, from, until);
      hide NoneBroken;
      ThroughRows(rows, nodes, from, until - 1, more);
    }
  }

  /** Where the oldest row leads back to a row, following links never leaves the rows. */
  lemma {:induction false} NeverEnds(rows: seq<Row>, nodes: map<Height, StakeNode>, from: nat, until: nat, i: nat, n: nat)
    requires from <= i < until <= |rows| && Indexes(nodes, rows, from, until) && NoneBroken(rows, from, until)
    requires forall k :: from <= k < until ==> rows[k].address == rows[from].address && rows[k].height > 0
    requires RowAt(rows, from, until, rows[from].node.prevHeight)
    ensures !EndsBy(nodes, rows[i].height, n)
    decreases n
  {
    assert NodeAt(nodes, rows[i].height) == rows[i].node;
    if n > 0 {
      var j: nat;
      if i == from {
        j :| from <= j < until && rows[j].height == rows[from].node.prevHeight;
      } else {
        assert !Broken(rows, i);
        j := i - 1;
      }
      NeverEnds(rows, nodes, from, until, j, n - 1);
    }
  }

  lemma HeightsPositive(rows: seq<Row>, address: nat, from: nat, until: nat)
    requires Sorted(rows) && RowsOf(rows, address, from, until) && rows[from].height > 0
    ensures forall k :: from <= k < until ==> rows[k].address == rows[from].address && rows[k].height > 0
  {
    forall k | from <= k < until ensures rows[k].height > 0 {
      assert k > from ==> rows[from].address == rows[k].address;
    }
  }

  /** After a silent scan, following links from an address's newest row ends if and only if the oldest row does not lead back
    * to one of the address's own rows.
    */
  lemma EndsExactly(rows: seq<Row>, address: nat, nodes: map<Height, StakeNode>, from: nat, until: nat)
    requires Sorted(rows) && RowsOf(rows, address, from, until) && Exactly(nodes, rows, from, until) && rows[from].height > 0
    requires forall i :: 0 <= i < |rows| ==> !Broken(rows, i)
    ensures Ends(nodes, rows[until - 1].height) <==> !RowAt(rows, from, until, rows[from].node.prevHeight)
  {
    HeightsPositive(rows, address, from, until);
    assert NoneBroken(rows, from, until);
    hide Broken, Sorted;
    var oldest, newest := rows[from].node.prevHeight, rows[until - 1].height;
    if RowAt(rows, from, until, oldest) {
      forall n: nat ensures !EndsBy(nodes, newest, n) {
        NeverEnds(rows, nodes, from, until, until - 1, n);
      }
    } else {
      ThroughRows(rows, nodes, from, until, 1);
      assert NodeAt(nodes, oldest) == StakeNode(0, 0);
      assert EndsBy(nodes, 0, 0);
      assert EndsBy(nodes, oldest, 1);
      assert EndsBy(nodes, newest, until - from + 1);
    }
  }

  /** The listing of such an address: its rows, newest first, and where the oldest one leads, if not to 0, with a balance of
    * zero.
    */
  lemma SilentListing(rows: seq<Row>, address: nat, nodes: map<Height, StakeNode>, from: nat, until: nat)
    requires Sorted(rows) && RowsOf(rows, address, from, until) && Exactly(nodes, rows, from, until) && rows[from].height > 0
    requires forall i :: 0 <= i < |rows| ==> !Broken(rows, i)
    requires !RowAt(rows, from, until, rows[from].node.prevHeight)
    ensures var oldest := rows[from].node.prevHeight;
            && EndsBy(nodes, rows[until - 1].height, until - from + 1)
            && Followed(nodes, rows[until - 1].height, until - from + 1)
            == Entries(rows, until, until - from) + if oldest == 0 then [] else [Write(oldest, 0)]
  {
    HeightsPositive(rows, address, from, until);
    assert NoneBroken(rows, from, until);
    hide Broken, Sorted;
    ThroughRows(rows, nodes, from, until, 1);
    var oldest := rows[from].node.prevHeight;
    assert NodeAt(nodes, oldest) == StakeNode(0, 0);
    assert EndsBy(nodes, 0, 0) && EndsBy(nodes, oldest, 1);
    assert Followed(nodes, 0, 0) == [];
    assert Followed(nodes, oldest, 1) == if oldest == 0 then [] else [Write(oldest, 0)] + [];
  }

  /** A store the scan is silent about and the listing never ends on: the oldest row leads back to the newest. */
  lemma OldestUnchecked()
    ensures var rows := [Row(1, 5, StakeNode(10, 7)), Row(1, 7, StakeNode(20, 5))];
            && Sorted(rows) && (forall i :: 0 <= i < |rows| ==> !Broken(rows, i))
            && !Ends(map[5 := rows[0].node, 7 := rows[1].node], 7)
  {
    var rows := [Row(1, 5, StakeNode(10, 7)), Row(1, 7, StakeNode(20, 5))];
    var nodes: map<Height, StakeNode> := map[5 := rows[0].node, 7 := rows[1].node];
    assert rows[1].height == 7 && rows[0].height == 5;
    assert RowAt(rows, 0, 2, 7) && RowAt(rows, 0, 2, 5);
    EndsExactly(rows, 1, nodes, 0, 2);
  }

  /** A climbing link alone does no harm: the listing ends with an entry that was never written. */
  lemma ClimbingEnds()
    ensures Followed(map[5 := StakeNode(10, 9), 7 := StakeNode(20, 5)], 7, 3) == [Write(7, 20), Write(5, 10), Write(9, 0)]
    ensures Ends(map[5 := StakeNode(10, 9), 7 := StakeNode(20, 5)], 7)
  {
    var nodes: map<Height, StakeNode> := map[5 := StakeNode(10, 9), 7 := StakeNode(20, 5)];
    assert Followed(nodes, 9, 1) == [Write(9, 0)] + [];
    assert Followed(nodes, 5, 2) == [Write(5, 10)] + Followed(nodes, 9, 1);
    assert EndsBy(nodes, 9, 1) && EndsBy(nodes, 5, 2) && EndsBy(nodes, 7, 3);
  }
}
