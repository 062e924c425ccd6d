/** A height-keyed ledger family on disk: a value per key and height, a newest-first list of heights per key, and the
  * keys touched per height. Appending a block writes it and trims the lists below the rollback horizon; rolling a
  * block back undoes its writes. The reference is the plain log of what each block wrote.
  */
module KeyedHistory {
  import opened Wrappers
  import opened Periods

  datatype Family<!K, V> = Family(
    values: map<(K, Height), V>,
    history: map<K, seq<Height>>,
    keysAt: map<Height, set<K>>)

  function Empty<K, V>(): Family<K, V> { Family(map[], map[], map[]) }

  function HistoryOf<K, V>(f: Family<K, V>, k: K): seq<Height> { if k in f.history then f.history[k] else [] }

  function KeysAt<K, V>(f: Family<K, V>, h: Height): set<K> { if h in f.keysAt then f.keysAt[h] else {} }

  /** The current value: the one at the newest height of the key's history. */
  function Read<K, V>(f: Family<K, V>, k: K): Option<V> {
    var heights := HistoryOf(f, k);
    if heights != [] && (k, heights[0]) in f.values then Some(f.values[(k, heights[0])]) else None
  }

  // ----- Writing and rolling back

  /** The heights from `threshold` on, and the newest one below it. */
  function Trim(heights: seq<Height>, threshold: int): seq<Height> {
    if heights == [] then []
    else if heights[0] < threshold then [heights[0]]
    else [heights[0]] + Trim(heights[1..], threshold)
  }

  function Without(heights: seq<Height>, h: Height): seq<Height> {
    if heights == [] then []
    else if heights[0] == h then Without(heights[1..], h)
    else [heights[0]] + Without(heights[1..], h)
  }

  function Write<K, V>(f: Family<K, V>, h: Height, threshold: int, entries: map<K, V>): Family<K, V> {
    Family(f.values + ValuesFor(h, entries, entries.Keys), f.history + HistoriesFor(f, h, threshold, entries.Keys),
           if entries == map[] then f.keysAt else f.keysAt[h := entries.Keys])
  }

  function ValuesFor<K, V>(h: Height, entries: map<K, V>, keys: set<K>): map<(K, Height), V>
    requires keys <= entries.Keys
  {
    map k | k in keys :: (k, h) := entries[k]
  }

  function HistoriesFor<K, V>(f: Family<K, V>, h: Height, threshold: int, keys: set<K>): map<K, seq<Height>> {
    map k | k in keys :: [h] + Trim(HistoryOf(f, k), threshold)
  }

  function Rollback<K, V>(f: Family<K, V>, h: Height): Family<K, V> {
    Family(f.values - ValuesAt(h, KeysAt(f, h)), HistoriesWithout(f, h, KeysAt(f, h)), f.keysAt - {h})
  }

  function ValuesAt<K>(h: Height, keys: set<K>): set<(K, Height)> { set k | k in keys :: (k, h) }

  /** The histories once those of `keys` have lost `h`; one with nothing left is gone. */
  function HistoriesWithout<K, V>(f: Family<K, V>, h: Height, keys: set<K>): map<K, seq<Height>> {
    map k | k in f.history && (k in keys ==> Without(f.history[k], h) != []) ::
      if k in keys then Without(f.history[k], h) else f.history[k]
  }

  lemma OneMoreValue<K, V>(h: Height, entries: map<K, V>, keys: set<K>, k: K)
    requires keys <= entries.Keys && k in entries && k !in keys
    ensures ValuesFor(h, entries, keys + {k}) == ValuesFor(h, entries, keys)[(k, h) := entries[k]]
  {
  }

  lemma OneMoreHistory<K, V>(f: Family<K, V>, h: Height, threshold: int, keys: set<K>, k: K)
    ensures HistoriesFor(f, h, threshold, keys + {k}) ==
            HistoriesFor(f, h, threshold, keys)[k := [h] + Trim(HistoryOf(f, k), threshold)]
  {
    hide Trim;
  }

  lemma UpdateOver<K, V>(a: map<K, V>, b: map<K, V>, k: K, v: V)
    ensures a + b[k := v] == (a + b)[k := v]
  {
  }

  lemma NothingWritten<K, V>(f: Family<K, V>, h: Height, threshold: int, entries: map<K, V>)
    ensures f.values + ValuesFor(h, entries, {}) == f.values && f.history + HistoriesFor(f, h, threshold, {}) == f.history
  {
  }

  lemma OneWritten<K, V>(f: Family<K, V>, h: Height, threshold: int, entries: map<K, V>, keys: set<K>, k: K)
    requires keys <= entries.Keys && k in entries && k !in keys
    ensures f.values + ValuesFor(h, entries, keys + {k}) == (f.values + ValuesFor(h, entries, keys))[(k, h) := entries[k]]
    ensures f.history + HistoriesFor(f, h, threshold, keys + {k})
         == (f.history + HistoriesFor(f, h, threshold, keys))[k := [h] + Trim(HistoryOf(f, k), threshold)]
  {
    hide Trim, ValuesFor, HistoriesFor;
    OneMoreValue(h, entries, keys, k);
    OneMoreHistory(f, h, threshold, keys, k);
    UpdateOver(f.values, ValuesFor(h, entries, keys), (k, h), entries[k]);
    UpdateOver(f.history, HistoriesFor(f, h, threshold, keys), k, [h] + Trim(HistoryOf(f, k), threshold));
  }

  /** `writeKeyed`: each entry's value and its key's history, then the keys of this height. All it reads is what was stored
    * before the block.
    */
  method WriteKeyed<K(==), V>(f: Family<K, V>, h: Height, threshold: int, entries: map<K, V>) returns (after: Family<K, V>)
    ensures after == Write(f, h, threshold, entries)
  {
    var values, history, left := f.values, f.history, entries.Keys;
    ghost var done: set<K> := {};
    NothingWritten(f, h, threshold, entries);
    hide Trim, ValuesFor, HistoriesFor;
    while left != {}
      invariant done !! left && done + left == entries.Keys
      invariant values == f.values + ValuesFor(h, entries, done)
      invariant history == f.history + HistoriesFor(f, h, threshold, done)
      decreases left
    {
      var k :| k in left;
      OneWritten(f, h, threshold, entries, done, k);
      values := values[(k, h) := entries[k]];
      history := history[k := [h] + Trim(HistoryOf(f, k), threshold)];
      left, done := left - {k}, done + {k};
    }
    assert done == entries.Keys;
    after := Family(values, history, if entries == map[] then f.keysAt else f.keysAt[h := entries.Keys]);
  }

  lemma NothingRemoved<K, V>(f: Family<K, V>, h: Height)
    ensures f.values - ValuesAt(h, {}) == f.values && HistoriesWithout(f, h, {}) == f.history
  {
  }

  lemma OneRemoved<K, V>(f: Family<K, V>, h: Height, keys: set<K>, k: K)
    requires k !in keys
    ensures f.values - ValuesAt(h, keys + {k}) == f.values - ValuesAt(h, keys) - {(k, h)}
    ensures var heights := Without(HistoryOf(f, k), h);
            HistoriesWithout(f, h, keys + {k}) ==
            if heights != [] then HistoriesWithout(f, h, keys)[k := heights] else HistoriesWithout(f, h, keys) - {k}
  {
    assert ValuesAt(h, keys + {k}) == ValuesAt(h, keys) + {(k, h)};
    assert k !in f.history ==> Without(HistoryOf(f, k), h) == [];
    hide Without;
  }

  /** `rollbackKeyed`: the values of this height go, and the height goes from their keys' histories. */
  method RollbackKeyed<K(==), V>(f: Family<K, V>, h: Height) returns (after: Family<K, V>)
    ensures after == Rollback(f, h)
  {
    var values, history, left := f.values, f.history, KeysAt(f, h);
    ghost var done: set<K> := {};
    NothingRemoved(f, h);
    hide Without, ValuesAt, HistoriesWithout;
    while left != {}
      invariant done !! left && done + left == KeysAt(f, h)
      invariant values == f.values - ValuesAt(h, done) && history == HistoriesWithout(f, h, done)
      decreases left
    {
      var k :| k in left;
      OneRemoved(f, h, done, k);
      var heights := Without(HistoryOf(f, k), h);
      values := values - {(k, h)};
      history := if heights != [] then history[k := heights] else history - {k};
      left, done := left - {k}, done + {k};
    }
    assert done == KeysAt(f, h);
    after := Family(values, history, f.keysAt - {h});
  }

  // ----- The log it stands for

  type Log<K, V> = seq<map<K, V>>

  /** The heights at which the log writes `k`, newest first. */
  function Heights<K, V>(log: Log<K, V>, k: K): seq<Height> {
    if log == [] then []
    else (if k in log[|log| - 1] then [|log|] else []) + Heights(log[..|log| - 1], k)
  }

  /** The value the log leaves `k` with. */
  function Latest<K, V>(log: Log<K, V>, k: K): Option<V> {
    if log == [] then None
    else if k in log[|log| - 1] then Some(log[|log| - 1][k])
    else Latest(log[..|log| - 1], k)
  }

  ghost predicate Descending(heights: seq<Height>) {
    forall i, j :: 0 <= i < j < |heights| ==> heights[i] > heights[j]
  }

  /** Block `h` wrote `k`. */
  ghost predicate WroteAt<K, V>(log: Log<K, V>, k: K, h: Height) {
    0 < h <= |log| && k in log[h - 1]
  }

  lemma HeightsSnoc<K, V>(log: Log<K, V>, entries: map<K, V>, k: K)
    ensures Heights(log + [entries], k) == (if k in entries then [|log| + 1] else []) + Heights(log, k)
  {
    assert (log + [entries])[..|log|] == log;
  }

  lemma {:induction false} HeightsDescend<K, V>(log: Log<K, V>, k: K)
    ensures forall i :: 0 <= i < |Heights(log, k)| ==> WroteAt(log, k, Heights(log, k)[i])
    ensures Descending(Heights(log, k))
  {
    if log != [] {
      var shorter := log[..|log| - 1];
      HeightsDescend(shorter, k);
      var hs, all := Heights(shorter, k), Heights(log, k);
      assert all == (if k in log[|log| - 1] then [|log|] else []) + hs;
      hide Heights;
      if k in log[|log| - 1] {
        forall i | 0 <= i < |all| ensures WroteAt(log, k, all[i]) && (0 < i ==> all[i] < |log|) {
          if 0 < i {
            assert all[i] == hs[i - 1] && WroteAt(shorter, k, hs[i - 1]);
          }
        }
        forall i, j | 0 <= i < j < |all| ensures all[i] > all[j] {
          assert all[j] == hs[j - 1] && (0 < i ==> all[i] == hs[i - 1]);
        }
      } else {
        assert all == hs;
        forall i | 0 <= i < |all| ensures WroteAt(log, k, all[i]) {
          assert WroteAt(shorter, k, hs[i]);
        }
      }
    }
  }

  lemma {:induction false} LatestAtFirstHeight<K, V>(log: Log<K, V>, k: K)
    ensures Heights(log, k) == [] ==> Latest(log, k) == None
    ensures Heights(log, k) != [] ==>
              var h := Heights(log, k)[0]; 0 < h <= |log| && k in log[h - 1] && Latest(log, k) == Some(log[h - 1][k])
  {
    if log != [] {
      LatestAtFirstHeight(log[..|log| - 1], k);
    }
  }

  ghost predicate Prefix(kept: seq<Height>, all: seq<Height>) {
    |kept| <= |all| && forall i :: 0 <= i < |kept| ==> kept[i] == all[i]
  }

  /** The kept heights are the newest of all; if some are gone, the oldest kept is below the horizon. */
  ghost predicate KeptWell(kept: seq<Height>, all: seq<Height>, safe: int) {
    Prefix(kept, all) && (|kept| < |all| ==> kept != [] && kept[|kept| - 1] < safe)
  }

  ghost predicate StoredAt<K, V>(f: Family<K, V>, log: Log<K, V>, k: K, h: Height) {
    WroteAt(log, k, h) && (k, h) in f.values && f.values[(k, h)] == log[h - 1][k]
  }

  ghost predicate Stored<K, V>(f: Family<K, V>, log: Log<K, V>, k: K, kept: seq<Height>) {
    forall i :: 0 <= i < |kept| ==> StoredAt(f, log, k, kept[i])
  }

  /** A key's stored heights are the log's, save that old ones may be gone below the rollback horizon `safe`. */
  ghost predicate HistoryValid<K, V>(f: Family<K, V>, log: Log<K, V>, safe: int, k: K) {
    KeptWell(HistoryOf(f, k), Heights(log, k), safe) && Stored(f, log, k, HistoryOf(f, k))
  }

  ghost predicate Valid<K(!new), V>(f: Family<K, V>, log: Log<K, V>, safe: int) {
    && (forall k :: HistoryValid(f, log, safe, k))
    && (forall h :: 0 < h <= |log| ==> KeysAt(f, h) == log[h - 1].Keys)
    && (forall h :: h in f.keysAt ==> h <= |log|)
  }

  /** Reading the family gives what the log says. */
  lemma ReadIsLatest<K(!new), V>(f: Family<K, V>, log: Log<K, V>, safe: int, k: K)
    requires Valid(f, log, safe)
    ensures Read(f, k) == Latest(log, k)
  {
    assert HistoryValid(f, log, safe, k);
    LatestAtFirstHeight(log, k);
    hide Valid, Heights, Latest;
    assert HistoryOf(f, k) != [] ==> StoredAt(f, log, k, HistoryOf(f, k)[0]);
  }

  lemma {:induction false} TrimKeepsPrefix(heights: seq<Height>, threshold: int)
    requires Descending(heights)
    ensures Prefix(Trim(heights, threshold), heights)
    ensures |Trim(heights, threshold)| < |heights| ==>
              Trim(heights, threshold) != [] && Trim(heights, threshold)[|Trim(heights, threshold)| - 1] < threshold
  {
    if heights != [] && heights[0] >= threshold {
      TrimKeepsPrefix(heights[1..], threshold);
    }
  }

  lemma {:induction false} WithoutNewest(heights: seq<Height>, h: Height)
    requires forall i :: 0 <= i < |heights| ==> heights[i] < h
    ensures Without(heights, h) == heights && Without([h] + heights, h) == heights
  {
    assert ([h] + heights)[1..] == heights;
    if heights != [] {
      WithoutNewest(heights[1..], h);
    }
  }

  function Max(a: int, b: int): int { if a >= b then a else b }

  lemma TrimKeepsWell(kept: seq<Height>, all: seq<Height>, safe: int, threshold: int, h: Height)
    requires KeptWell(kept, all, safe) && Descending(kept)
    ensures KeptWell([h] + Trim(kept, threshold), [h] + all, Max(safe, threshold))
    ensures Prefix(Trim(kept, threshold), kept)
  {
    TrimKeepsPrefix(kept, threshold);
    var trimmed := Trim(kept, threshold);
    hide Trim, Descending;
    var one, two := [h] + trimmed, [h] + all;
    forall i | 0 <= i < |one| ensures one[i] == two[i] {
      assert 0 < i ==> one[i] == trimmed[i - 1] && two[i] == all[i - 1];
    }
  }

  lemma WriteLookup<K, V>(f: Family<K, V>, h: Height, threshold: int, entries: map<K, V>, k: K)
    ensures HistoryOf(Write(f, h, threshold, entries), k) ==
            if k in entries then [h] + Trim(HistoryOf(f, k), threshold) else HistoryOf(f, k)
  {
  }

  /** Values below the new height are left alone, and the new ones are there. */
  lemma WriteStoredAt<K, V>(f: Family<K, V>, log: Log<K, V>, threshold: int, entries: map<K, V>, k: K, h: Height)
    requires if h == |log| + 1 then k in entries else StoredAt(f, log, k, h)
    ensures StoredAt(Write(f, |log| + 1, threshold, entries), log + [entries], k, h)
  {
  }

  lemma WriteKept<K, V>(f: Family<K, V>, log: Log<K, V>, safe: int, threshold: int, entries: map<K, V>, k: K)
    requires KeptWell(HistoryOf(f, k), Heights(log, k), safe)
    ensures KeptWell(HistoryOf(Write(f, |log| + 1, threshold, entries), k), Heights(log + [entries], k),
                     Max(safe, threshold))
  {
    var kept, all := HistoryOf(f, k), Heights(log, k);
    WriteLookup(f, |log| + 1, threshold, entries, k);
    HeightsDescend(log, k);
    HeightsSnoc(log, entries, k);
    PrefixDescends(kept, all);
    hide Write, Trim, Heights, HistoryOf, WroteAt, Descending, KeptWell;
    if k in entries {
      TrimKeepsWell(kept, all, safe, threshold, |log| + 1);
    } else {
      assert [] + all == all;
      KeptLonger(kept, all, safe, threshold);
    }
  }

  lemma PrefixDescends(kept: seq<Height>, all: seq<Height>)
    requires Prefix(kept, all) && Descending(all)
    ensures Descending(kept)
  {
  }

  lemma KeptLonger(kept: seq<Height>, all: seq<Height>, safe: int, threshold: int)
    requires KeptWell(kept, all, safe)
    ensures KeptWell(kept, all, Max(safe, threshold))
  {
  }

  lemma WriteStored<K, V>(f: Family<K, V>, log: Log<K, V>, threshold: int, entries: map<K, V>, k: K,
                          heights: seq<Height>)
    requires Stored(f, log, k, heights)
    ensures Stored(Write(f, |log| + 1, threshold, entries), log + [entries], k, heights)
    ensures k in entries ==> Stored(Write(f, |log| + 1, threshold, entries), log + [entries], k, [|log| + 1] + heights)
  {
    hide Write;
    var written, longer := Write(f, |log| + 1, threshold, entries), log + [entries];
    forall i | 0 <= i < |heights| ensures StoredAt(written, longer, k, heights[i]) {
      assert StoredAt(f, log, k, heights[i]);
      WriteStoredAt(f, log, threshold, entries, k, heights[i]);
    }
    if k in entries {
      WriteStoredAt(f, log, threshold, entries, k, |log| + 1);
    }
  }

  lemma StoredPrefix<K, V>(f: Family<K, V>, log: Log<K, V>, k: K, heights: seq<Height>, fewer: seq<Height>)
    requires Stored(f, log, k, heights) && Prefix(fewer, heights)
    ensures Stored(f, log, k, fewer)
  {
    forall i | 0 <= i < |fewer| ensures StoredAt(f, log, k, fewer[i]) {
      assert StoredAt(f, log, k, heights[i]);
    }
  }

  lemma WriteHistory<K, V>(f: Family<K, V>, log: Log<K, V>, safe: int, threshold: int, entries: map<K, V>, k: K)
    requires HistoryValid(f, log, safe, k)
    ensures HistoryValid(Write(f, |log| + 1, threshold, entries), log + [entries], Max(safe, threshold), k)
  {
    var kept := HistoryOf(f, k);
    WriteKept(f, log, safe, threshold, entries, k);
    WriteLookup(f, |log| + 1, threshold, entries, k);
    assert Descending(kept) by {
      HeightsDescend(log, k);
      hide Heights, HistoryOf;
      PrefixDescends(kept, Heights(log, k));
    }
    TrimKeepsPrefix(kept, threshold);
    hide Write, Trim, HistoryOf, Heights, KeptWell, Stored, Prefix, Descending;
    StoredPrefix(f, log, k, kept, Trim(kept, threshold));
    WriteStored(f, log, threshold, entries, k, if k in entries then Trim(kept, threshold) else kept);
  }

  /** At the threshold or above, or the newest one below. */
  ghost predicate Survives(heights: seq<Height>, threshold: int, h: Height) {
    h in heights && (h >= threshold || forall x :: x in heights && x < threshold ==> x <= h)
  }

  lemma SurvivesStep(heights: seq<Height>, threshold: int, h: Height)
    requires Descending(heights) && heights != []
    ensures heights[0] < threshold ==> (Survives(heights, threshold, h) <==> h == heights[0])
    ensures heights[0] >= threshold ==> (Survives(heights, threshold, h) <==> h == heights[0] || Survives(heights[1..], threshold, h))
  {
    var rest := heights[1..];
    assert heights == [heights[0]] + rest;
    assert forall x :: x in heights <==> x == heights[0] || x in rest;
    assert forall x :: x in rest ==> x < heights[0];
    hide Descending;
    if heights[0] >= threshold {
      if Survives(rest, threshold, h) && h < threshold {
        forall x | x in heights && x < threshold ensures x <= h {
          assert x in rest;
        }
      }
      if Survives(heights, threshold, h) && h < threshold {
        forall x | x in rest && x < threshold ensures x <= h {
          assert x in heights;
        }
        assert h in rest;
      }
    } else {
      assert heights[0] in heights;
    }
  }

  /** Exactly those survive trimming. */
  lemma {:induction false} TrimExactly(heights: seq<Height>, threshold: int, h: Height)
    requires Descending(heights)
    ensures h in Trim(heights, threshold) <==> Survives(heights, threshold, h)
    decreases |heights|
  {
    if heights != [] {
      SurvivesStep(heights, threshold, h);
      TrimExactly(heights[1..], threshold, h);
      hide Survives;
    }
  }

  /** What a block leaves of the history of a key it writes: its own height, those above the threshold, and one below. */
  lemma WriteTrims<K(!new), V>(f: Family<K, V>, log: Log<K, V>, safe: int, threshold: int, entries: map<K, V>, k: K, h: Height)
    requires Valid(f, log, safe) && k in entries
    ensures var before, after := HistoryOf(f, k), HistoryOf(Write(f, |log| + 1, threshold, entries), k);
            h in after <==> h == |log| + 1 || Survives(before, threshold, h)
  {
    assert HistoryValid(f, log, safe, k);
    HeightsDescend(log, k);
    PrefixDescends(HistoryOf(f, k), Heights(log, k));
    WriteLookup(f, |log| + 1, threshold, entries, k);
    hide Write, Trim, HistoryOf, Heights, Valid, Descending, HistoryValid;
    TrimExactly(HistoryOf(f, k), threshold, h);
  }

  /** A trimmed history is no longer than the stretch from the threshold up, and one more. */
  lemma {:induction false} TrimShortens(heights: seq<Height>, threshold: int, top: int)
    requires Descending(heights) && (heights != [] ==> heights[0] <= top) && threshold <= top + 1
    ensures |Trim(heights, threshold)| <= top - threshold + 2
    decreases |heights|
  {
    if heights != [] && heights[0] >= threshold {
      assert heights[1..] != [] ==> heights[1..][0] < heights[0];
      var newest: int := heights[0];
      TrimShortens(heights[1..], threshold, newest - 1);
    }
  }

  lemma WriteShortens<K(!new), V>(f: Family<K, V>, log: Log<K, V>, safe: int, threshold: int, entries: map<K, V>, k: K)
    requires Valid(f, log, safe) && k in entries && threshold <= |log| + 1
    ensures |HistoryOf(Write(f, |log| + 1, threshold, entries), k)| <= |log| + 1 - threshold + 2
  {
    assert HistoryValid(f, log, safe, k);
    HeightsDescend(log, k);
    PrefixDescends(HistoryOf(f, k), Heights(log, k));
    WriteLookup(f, |log| + 1, threshold, entries, k);
    var heights := HistoryOf(f, k);
    assert heights != [] ==> WroteAt(log, k, heights[0]);
    hide Write, Trim, HistoryOf, Heights, Valid, Descending, HistoryValid;
    TrimShortens(heights, threshold, |log|);
  }

  lemma {:induction false} WithoutShortens(heights: seq<Height>, h: Height)
    ensures |Without(heights, h)| <= |heights|
  {
    if heights != [] {
      WithoutShortens(heights[1..], h);
    }
  }

  lemma RollbackShortens<K, V>(f: Family<K, V>, h: Height, k: K)
    ensures |HistoryOf(Rollback(f, h), k)| <= |HistoryOf(f, k)|
  {
    WithoutShortens(HistoryOf(f, k), h);
    hide Without;
  }

  /** Appending a block's entries keeps the family faithful to the log. */
  lemma WriteValid<K(!new), V>(f: Family<K, V>, log: Log<K, V>, safe: int, threshold: int, entries: map<K, V>)
    requires Valid(f, log, safe)
    ensures Valid(Write(f, |log| + 1, threshold, entries), log + [entries], Max(safe, threshold))
  {
    var written, longer := Write(f, |log| + 1, threshold, entries), log + [entries];
    forall k ensures HistoryValid(written, longer, Max(safe, threshold), k) {
      assert HistoryValid(f, log, safe, k);
      WriteHistory(f, log, safe, threshold, entries, k);
    }
    forall h | 0 < h <= |longer| ensures KeysAt(written, h) == longer[h - 1].Keys {
      if h <= |log| {
        assert KeysAt(f, h) == log[h - 1].Keys;
      } else if entries == map[] {
        assert h !in f.keysAt;
      }
    }
  }

  lemma DropNewest(kept: seq<Height>, all: seq<Height>, safe: int, h: Height)
    requires KeptWell(kept, [h] + all, safe) && safe <= h
    requires forall i :: 0 <= i < |all| ==> all[i] < h
    ensures kept != [] && kept[0] == h && KeptWell(kept[1..], all, safe)
    ensures Without(kept, h) == kept[1..] && forall i :: 0 < i < |kept| ==> kept[i] < h
  {
    assert kept != [];
    assert kept[0] == h;
    forall i | 0 < i < |kept| ensures kept[i] == all[i - 1] && kept[i] < h {
      assert ([h] + all)[i] == all[i - 1];
    }
    assert kept == [h] + kept[1..];
    WithoutNewest(kept[1..], h);
  }

  lemma RollbackLookup<K, V>(f: Family<K, V>, h: Height, k: K)
    ensures HistoryOf(Rollback(f, h), k) ==
            if k in KeysAt(f, h) then Without(HistoryOf(f, k), h) else HistoryOf(f, k)
  {
  }

  lemma RollbackStored<K, V>(f: Family<K, V>, log: Log<K, V>, k: K, h: Height, n: nat)
    requires StoredAt(f, log, k, h) && h <= n < |log|
    ensures StoredAt(Rollback(f, n + 1), log[..n], k, h)
  {
  }

  lemma RollbackKept<K, V>(f: Family<K, V>, log: Log<K, V>, safe: int, k: K)
    requires log != [] && safe < |log| && KeysAt(f, |log|) == log[|log| - 1].Keys
    requires KeptWell(HistoryOf(f, k), Heights(log, k), safe)
    ensures var after := HistoryOf(Rollback(f, |log|), k);
            && KeptWell(after, Heights(log[..|log| - 1], k), safe)
            && after == (if k in log[|log| - 1] then HistoryOf(f, k)[1..] else HistoryOf(f, k))
            && forall i :: 0 <= i < |after| ==> after[i] < |log|
  {
    var n := |log| - 1;
    var kept, all := HistoryOf(f, k), Heights(log[..n], k);
    HeightsDescend(log[..n], k);
    RollbackLookup(f, |log|, k);
    assert Heights(log, k) == (if k in log[n] then [|log|] else []) + all;
    hide Heights, Rollback, HistoryOf;
    assert forall i :: 0 <= i < |all| ==> all[i] < |log| by {
      assert forall i :: 0 <= i < |all| ==> WroteAt(log[..n], k, all[i]);
    }
    hide Descending, WroteAt;
    if k in log[n] {
      DropNewest(kept, all, safe, |log|);
    } else {
      assert [] + all == all;
    }
  }

  lemma RollbackHistory<K, V>(f: Family<K, V>, log: Log<K, V>, safe: int, k: K)
    requires log != [] && safe < |log| && KeysAt(f, |log|) == log[|log| - 1].Keys
    requires HistoryValid(f, log, safe, k)
    ensures HistoryValid(Rollback(f, |log|), log[..|log| - 1], safe, k)
  {
    var n := |log| - 1;
    RollbackKept(f, log, safe, k);
    var kept, after := HistoryOf(f, k), HistoryOf(Rollback(f, |log|), k);
    hide HistoryOf, Rollback, Heights, KeptWell;
    forall i | 0 <= i < |after| ensures StoredAt(Rollback(f, |log|), log[..n], k, after[i]) {
      var j := if k in log[n] then i + 1 else i;
      assert after[i] == kept[j] && StoredAt(f, log, k, kept[j]);
      RollbackStored(f, log, k, kept[j], n);
    }
  }

  /** Rolling back the newest block restores the family to what the log said before it, as long as the block is above
    * the rollback horizon.
    */
  lemma RollbackValid<K(!new), V>(f: Family<K, V>, log: Log<K, V>, safe: int)
    requires Valid(f, log, safe) && log != [] && safe < |log|
    ensures Valid(Rollback(f, |log|), log[..|log| - 1], safe)
  {
    var undone, shorter := Rollback(f, |log|), log[..|log| - 1];
    forall k ensures HistoryValid(undone, shorter, safe, k) {
      assert HistoryValid(f, log, safe, k);
      RollbackHistory(f, log, safe, k);
    }
    forall h | 0 < h <= |shorter| ensures KeysAt(undone, h) == shorter[h - 1].Keys {
      assert KeysAt(f, h) == log[h - 1].Keys;
    }
  }
}
