/** InsertTreasureChunks: putting treasure chunks back among the others, in scan order. */
module TreasureMerge {
  import opened Core
  import opened SessionCursors

  /** The chunks by index; a later chunk replaces an earlier one with the same index. */
  function ByIdx(chunks: seq<ChunkData>): map<int, ChunkData> {
    if chunks == [] then map[] else
      var c := chunks[|chunks| - 1];
      ByIdx(chunks[..|chunks| - 1])[c.idx := c]
  }

  function EntryAt(m: map<int, ChunkData>, i: int): seq<ChunkData> {
    if i in m then [m[i]] else []
  }

  /** The entries met on `count` steps from `start`, a treasure before an ordinary chunk. */
  function MergeScan(t: SessionType, start: int, count: nat, treasures: map<int, ChunkData>,
                     others: map<int, ChunkData>)
    : seq<ChunkData>
  {
    if count == 0 then [] else
      var i := start + Along(t, count - 1);
      MergeScan(t, start, count - 1, treasures, others) + EntryAt(treasures, i) + EntryAt(others, i)
  }

  /** The scanned bounds always include 0. */
  function LowEnd(chunks: seq<ChunkData>): (lo: int)
    ensures lo <= 0 && forall c :: c in chunks ==> lo <= c.idx
  {
    assert chunks != [] ==> chunks == chunks[..|chunks| - 1] + [chunks[|chunks| - 1]];
    if chunks == [] then 0 else Min(LowEnd(chunks[..|chunks| - 1]), chunks[|chunks| - 1].idx)
  }

  function HighEnd(chunks: seq<ChunkData>): (hi: int)
    ensures 0 <= hi && forall c :: c in chunks ==> c.idx <= hi
  {
    assert chunks != [] ==> chunks == chunks[..|chunks| - 1] + [chunks[|chunks| - 1]];
    if chunks == [] then 0 else Max(HighEnd(chunks[..|chunks| - 1]), chunks[|chunks| - 1].idx)
  }

  /** InsertTreasureChunks. */
  function Inserted(t: SessionType, chunks: seq<ChunkData>, treasures: seq<ChunkData>): seq<ChunkData> {
    if treasures == [] then chunks
    else if chunks == [] then treasures
    else
      var lo, hi := Min(LowEnd(chunks), LowEnd(treasures)), Max(HighEnd(chunks), HighEnd(treasures));
      MergeScan(t, if t.Alpha? then lo else hi, hi - lo + 1, ByIdx(treasures), ByIdx(chunks))
  }

  method InsertTreasureChunks(t: SessionType, chunks: seq<ChunkData>, treasures: seq<ChunkData>)
      returns (r: seq<ChunkData>)
    ensures r == Inserted(t, chunks, treasures)
  {
    if |chunks| == 0 && |treasures| == 0 { return []; }
    if |treasures| == 0 { return chunks; }
    if |chunks| == 0 { return treasures; }
    var minIdx, maxIdx, others := Collect(chunks, 0, 0);
    var treasureMap;
    minIdx, maxIdx, treasureMap := Collect(treasures, minIdx, maxIdx);
    assert minIdx == Min(LowEnd(chunks), LowEnd(treasures)) && maxIdx == Max(HighEnd(chunks), HighEnd(treasures));
    r := MergeLoop(t, minIdx, maxIdx, treasureMap, others);
  }

  /** One list's part of the bounds, and its map. */
  method Collect(chunks: seq<ChunkData>, min: int, max: int)
      returns (minIdx: int, maxIdx: int, m: map<int, ChunkData>)
    requires min <= 0 <= max
    ensures minIdx == Min(min, LowEnd(chunks)) && maxIdx == Max(max, HighEnd(chunks)) && m == ByIdx(chunks)
  {
    minIdx, maxIdx, m := min, max, map[];
    for k := 0 to |chunks|
      invariant minIdx == Min(min, LowEnd(chunks[..k])) && maxIdx == Max(max, HighEnd(chunks[..k]))
      invariant m == ByIdx(chunks[..k])
    {
      assert chunks[..k + 1][..k] == chunks[..k];
      maxIdx := Max(maxIdx, chunks[k].idx);
      minIdx := Min(minIdx, chunks[k].idx);
      m := m[chunks[k].idx := chunks[k]];
    }
    assert chunks[..|chunks|] == chunks;
  }

  /** The scan itself: `i` meets its end exactly, in both directions. */
  method MergeLoop(t: SessionType, minIdx: int, maxIdx: int, treasures: map<int, ChunkData>,
                   others: map<int, ChunkData>)
      returns (r: seq<ChunkData>)
    requires minIdx <= maxIdx
    ensures r == MergeScan(t, if t.Alpha? then minIdx else maxIdx, maxIdx - minIdx + 1, treasures, others)
  {
    var startIdx, endIdx, step := minIdx, maxIdx, 1;
    if t.Beta? { startIdx, endIdx, step := maxIdx, minIdx, -1; }
    r := [];
    var i := startIdx;
    ghost var done: nat := 0;
    while i != endIdx + step
      invariant i == startIdx + Along(t, done) && done <= maxIdx - minIdx + 1
      invariant r == MergeScan(t, startIdx, done, treasures, others)
      decreases maxIdx - minIdx + 1 - done
    {
      ghost var before := r;
      if i in treasures { r := r + [treasures[i]]; }
      assert r == before + EntryAt(treasures, i);
      if i in others { r := r + [others[i]]; }
      assert r == before + EntryAt(treasures, i) + EntryAt(others, i);
      i := i + step;
      done := done + 1;
    }
  }

  // ---- The merge sorts ----

  ghost predicate DistinctIdxs(chunks: seq<ChunkData>) {
    forall j, k :: 0 <= j < k < |chunks| ==> chunks[j].idx != chunks[k].idx
  }

  /** Strictly ascending for alpha, strictly descending for beta. */
  ghost predicate InScanOrder(t: SessionType, chunks: seq<ChunkData>) {
    forall j, k :: 0 <= j < k < |chunks| ==> Before(t, chunks[j].idx, chunks[k].idx)
  }

  lemma {:induction false} ByIdxMember(chunks: seq<ChunkData>, i: int)
    ensures i in ByIdx(chunks) ==> ByIdx(chunks)[i] in chunks && ByIdx(chunks)[i].idx == i
    ensures (exists c :: c in chunks && c.idx == i) ==> i in ByIdx(chunks)
  {
    if chunks != [] {
      assert chunks == chunks[..|chunks| - 1] + [chunks[|chunks| - 1]];
      ByIdxMember(chunks[..|chunks| - 1], i);
    }
  }

  lemma ByIdxFinds(chunks: seq<ChunkData>, c: ChunkData)
    requires DistinctIdxs(chunks) && c in chunks
    ensures c.idx in ByIdx(chunks) && ByIdx(chunks)[c.idx] == c
  {
    ByIdxMember(chunks, c.idx);
    var d := ByIdx(chunks)[c.idx];
    var j :| 0 <= j < |chunks| && chunks[j] == c;
    var k :| 0 <= k < |chunks| && chunks[k] == d;
  }

  ghost predicate ValuesIndexed(m: map<int, ChunkData>) {
    forall i :: i in m ==> m[i].idx == i
  }

  lemma ByIdxIndexed(chunks: seq<ChunkData>)
    ensures ValuesIndexed(ByIdx(chunks))
  {
    forall i | i in ByIdx(chunks) ensures ByIdx(chunks)[i].idx == i {
      ByIdxMember(chunks, i);
    }
  }

  lemma {:induction false} MergeScanMember(t: SessionType, start: int, count: nat, treasures: map<int, ChunkData>,
                                           others: map<int, ChunkData>, c: ChunkData)
    requires ValuesIndexed(treasures) && ValuesIndexed(others)
    ensures c in MergeScan(t, start, count, treasures, others) <==>
              && 0 <= Distance(t, start, c.idx) < count
              && ((c.idx in treasures && treasures[c.idx] == c) || (c.idx in others && others[c.idx] == c))
    decreases count
  {
    if count > 0 {
      MergeScanMember(t, start, count - 1, treasures, others, c);
    }
  }

  lemma {:induction false} MergeScanOrdered(t: SessionType, start: int, count: nat, treasures: map<int, ChunkData>,
                                            others: map<int, ChunkData>)
    requires ValuesIndexed(treasures) && ValuesIndexed(others) && treasures.Keys !! others.Keys
    ensures InScanOrder(t, MergeScan(t, start, count, treasures, others))
    decreases count
  {
    if count > 0 {
      var rest := MergeScan(t, start, count - 1, treasures, others);
      MergeScanOrdered(t, start, count - 1, treasures, others);
      forall j | 0 <= j < |rest|
        ensures Distance(t, start, rest[j].idx) < count - 1
      {
        assert rest[j] in rest;
        MergeScanMember(t, start, count - 1, treasures, others, rest[j]);
      }
    }
  }

  lemma {:induction false} CountDistinct(chunks: seq<ChunkData>, c: ChunkData)
    requires DistinctIdxs(chunks)
    ensures multiset(chunks)[c] == if c in chunks then 1 else 0
  {
    if chunks != [] {
      var init, last := chunks[..|chunks| - 1], chunks[|chunks| - 1];
      CountDistinct(init, c);
      assert chunks == init + [last];
    }
  }

  lemma SameElements(a: seq<ChunkData>, b: seq<ChunkData>)
    requires DistinctIdxs(a) && DistinctIdxs(b)
    requires forall c :: c in a <==> c in b
    ensures multiset(a) == multiset(b)
  {
    forall c ensures multiset(a)[c] == multiset(b)[c] {
      CountDistinct(a, c);
      CountDistinct(b, c);
    }
  }

  lemma OrderedDistinct(t: SessionType, chunks: seq<ChunkData>)
    requires InScanOrder(t, chunks)
    ensures DistinctIdxs(chunks)
  {
    forall j, k | 0 <= j < k < |chunks| ensures chunks[j].idx != chunks[k].idx {
      assert Before(t, chunks[j].idx, chunks[k].idx);
    }
  }

  lemma JoinedDistinct(a: seq<ChunkData>, b: seq<ChunkData>)
    requires DistinctIdxs(a + b)
    ensures DistinctIdxs(a) && DistinctIdxs(b)
    ensures forall c, d :: c in a && d in b ==> c.idx != d.idx
  {
    var all := a + b;
    forall j, k | 0 <= j < k < |a| ensures a[j].idx != a[k].idx {
      assert all[j] == a[j] && all[k] == a[k];
    }
    forall j, k | 0 <= j < k < |b| ensures b[j].idx != b[k].idx {
      assert all[|a| + j] == b[j] && all[|a| + k] == b[k];
    }
    forall c, d | c in a && d in b ensures c.idx != d.idx {
      var j :| 0 <= j < |a| && a[j] == c;
      var k :| 0 <= k < |b| && b[k] == d;
      assert all[j] == c && all[|a| + k] == d;
    }
  }

  lemma InsertedFrom(t: SessionType, chunks: seq<ChunkData>, treasures: seq<ChunkData>, c: ChunkData)
    requires c in Inserted(t, chunks, treasures)
    ensures c in chunks || c in treasures
  {
    if chunks != [] && treasures != [] {
      var lo, hi := Min(LowEnd(chunks), LowEnd(treasures)), Max(HighEnd(chunks), HighEnd(treasures));
      ByIdxIndexed(chunks);
      ByIdxIndexed(treasures);
      MergeScanMember(t, if t.Alpha? then lo else hi, hi - lo + 1, ByIdx(treasures), ByIdx(chunks), c);
      ByIdxMember(chunks, c.idx);
      ByIdxMember(treasures, c.idx);
    }
  }

  lemma InsertedHas(t: SessionType, chunks: seq<ChunkData>, treasures: seq<ChunkData>, c: ChunkData)
    requires DistinctIdxs(chunks) && DistinctIdxs(treasures) && (c in chunks || c in treasures)
    ensures c in Inserted(t, chunks, treasures)
  {
    if chunks != [] && treasures != [] {
      var lo, hi := Min(LowEnd(chunks), LowEnd(treasures)), Max(HighEnd(chunks), HighEnd(treasures));
      ByIdxIndexed(chunks);
      ByIdxIndexed(treasures);
      if c in chunks { ByIdxFinds(chunks, c); } else { ByIdxFinds(treasures, c); }
      MergeScanMember(t, if t.Alpha? then lo else hi, hi - lo + 1, ByIdx(treasures), ByIdx(chunks), c);
    }
  }

  lemma MapsDisjoint(chunks: seq<ChunkData>, treasures: seq<ChunkData>)
    requires DistinctIdxs(chunks + treasures)
    ensures ByIdx(treasures).Keys !! ByIdx(chunks).Keys
  {
    JoinedDistinct(chunks, treasures);
    forall i | i in ByIdx(treasures) ensures i !in ByIdx(chunks) {
      ByIdxMember(chunks, i);
      ByIdxMember(treasures, i);
    }
  }

  lemma InsertedOrdered(t: SessionType, chunks: seq<ChunkData>, treasures: seq<ChunkData>)
    requires DistinctIdxs(chunks + treasures) && chunks != [] && treasures != []
    ensures InScanOrder(t, Inserted(t, chunks, treasures))
  {
    var lo, hi := Min(LowEnd(chunks), LowEnd(treasures)), Max(HighEnd(chunks), HighEnd(treasures));
    ScanOfListsOrdered(t, if t.Alpha? then lo else hi, hi - lo + 1, chunks, treasures);
  }

  lemma ScanOfListsOrdered(t: SessionType, start: int, count: nat, chunks: seq<ChunkData>, treasures: seq<ChunkData>)
    requires DistinctIdxs(chunks + treasures)
    ensures InScanOrder(t, MergeScan(t, start, count, ByIdx(treasures), ByIdx(chunks)))
  {
    ByIdxIndexed(chunks);
    ByIdxIndexed(treasures);
    MapsDisjoint(chunks, treasures);
    MergeScanOrdered(t, start, count, ByIdx(treasures), ByIdx(chunks));
  }

  /** With distinct indexes nothing is lost or doubled, whether or not one list is empty. */
  lemma InsertedIsPermutation(t: SessionType, chunks: seq<ChunkData>, treasures: seq<ChunkData>)
    requires DistinctIdxs(chunks + treasures)
    ensures multiset(Inserted(t, chunks, treasures)) == multiset(chunks) + multiset(treasures)
    ensures |Inserted(t, chunks, treasures)| == |chunks| + |treasures|
  {
    var r := Inserted(t, chunks, treasures);
    if chunks != [] && treasures != [] {
      InsertedOrdered(t, chunks, treasures);
      OrderedDistinct(t, r);
      JoinedDistinct(chunks, treasures);
      forall c ensures c in r <==> c in chunks + treasures {
        if c in r { InsertedFrom(t, chunks, treasures, c); }
        if c in chunks + treasures { InsertedHas(t, chunks, treasures, c); }
      }
      SameElements(r, chunks + treasures);
    }
    assert |multiset(r)| == |r|;
  }

  /** With both lists non-empty, the result is the sorted union exactly when all indexes differ. */
  lemma InsertSortsIffDistinct(t: SessionType, chunks: seq<ChunkData>, treasures: seq<ChunkData>)
    requires chunks != [] && treasures != []
    ensures var r := Inserted(t, chunks, treasures);
            (InScanOrder(t, r) && multiset(r) == multiset(chunks) + multiset(treasures))
            <==> DistinctIdxs(chunks + treasures)
  {
    var r, all := Inserted(t, chunks, treasures), chunks + treasures;
    if DistinctIdxs(all) {
      InsertedOrdered(t, chunks, treasures);
      InsertedIsPermutation(t, chunks, treasures);
    } else if InScanOrder(t, r) && multiset(r) == multiset(chunks) + multiset(treasures) {
      OrderedDistinct(t, r);
      PermutationOfDistinct(r, all);
    }
  }

  lemma CountedTwice(all: seq<ChunkData>, j: nat, k: nat)
    requires j < k < |all| && all[j] == all[k]
    ensures multiset(all)[all[j]] >= 2
  {
    var a, b := all[..k], all[k..];
    assert all == a + b && a[j] == all[j] && b[0] == all[j];
    assert multiset(a)[all[j]] >= 1 && multiset(b)[all[j]] >= 1;
  }

  lemma PermutationOfDistinct(r: seq<ChunkData>, all: seq<ChunkData>)
    requires DistinctIdxs(r) && multiset(r) == multiset(all)
    ensures DistinctIdxs(all)
  {
    forall j, k | 0 <= j < k < |all| ensures all[j].idx != all[k].idx {
      var c, d := all[j], all[k];
      assert c in multiset(all) && d in multiset(all);
      var p :| 0 <= p < |r| && r[p] == c;
      var q :| 0 <= q < |r| && r[q] == d;
      CountDistinct(r, c);
      if c == d { CountedTwice(all, j, k); }
    }
  }

  /** An empty list changes nothing, whatever the order of the other one. */
  lemma InsertedWithEmpty(t: SessionType, chunks: seq<ChunkData>)
    ensures Inserted(t, chunks, []) == chunks && Inserted(t, [], chunks) == chunks
  {
  }

  /** From lists in scan order comes a list in scan order, also when one of them is empty. */
  lemma InsertedKeepsOrder(t: SessionType, chunks: seq<ChunkData>, treasures: seq<ChunkData>)
    requires InScanOrder(t, chunks) && InScanOrder(t, treasures) && DistinctIdxs(chunks + treasures)
    ensures InScanOrder(t, Inserted(t, chunks, treasures))
  {
    if chunks != [] && treasures != [] { InsertSortsIffDistinct(t, chunks, treasures); }
  }
}
