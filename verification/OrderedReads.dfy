/** What bulk reads return: stored chunks, in the order of the keys that were asked for. */
module OrderedReads {
  import opened Core
  import opened SessionCursors
  import opened BadgerKeys
  import opened ChunkStores
  import opened ChunkDatabase
  import opened UploadSessions
  import opened TreasureMerge

  /** What a chunk shows is what the stores hold for it, with the address and message made from that. */
  ghost predicate StoredAs(db: ChunkDb, s: Stores, c: ChunkData) {
    && c.genesisHash == db.genesisHash
    && View(s, db.KeyOf(c)) == Some((c.hash, c.rawMessage))
    && c.address == db.addressOf(c.hash) && c.message == db.messageOf(c.rawMessage)
  }

  /** The list holds stored chunks with some of the given indexes, in the order given. */
  ghost predicate PickedFrom(db: ChunkDb, s: Stores, idxs: seq<int>, chunks: seq<ChunkData>)
    decreases |idxs|
  {
    if idxs == [] then chunks == []
    else
      || PickedFrom(db, s, idxs[..|idxs| - 1], chunks)
      || (chunks != []
          && chunks[|chunks| - 1].idx == idxs[|idxs| - 1]
          && StoredAs(db, s, chunks[|chunks| - 1])
          && PickedFrom(db, s, idxs[..|idxs| - 1], chunks[..|chunks| - 1]))
  }

  lemma KeysOfInit(genesisHash: string, idxs: seq<int>)
    requires idxs != []
    ensures var keys := KeysOf(genesisHash, idxs);
            keys[..|keys| - 1] == KeysOf(genesisHash, idxs[..|idxs| - 1])
            && keys[|keys| - 1] == GetBadgerKey(genesisHash, idxs[|idxs| - 1])
  {
  }

  lemma {:induction false} NothingPicked(db: ChunkDb, s: Stores, idxs: seq<int>)
    ensures PickedFrom(db, s, idxs, [])
    decreases |idxs|
  {
    if idxs != [] { NothingPicked(db, s, idxs[..|idxs| - 1]); }
  }

  lemma PickedNext(db: ChunkDb, s: Stores, idxs: seq<int>, rest: seq<ChunkData>, c: ChunkData)
    requires idxs != [] && PickedFrom(db, s, idxs[..|idxs| - 1], rest)
    ensures PickedFrom(db, s, idxs, rest)
    ensures c.idx == idxs[|idxs| - 1] && StoredAs(db, s, c) ==> PickedFrom(db, s, idxs, rest + [c])
  {
    assert (rest + [c])[..|rest|] == rest;
  }

  /** Both kinds of read pick chunks in key order. */
  lemma {:induction false} OneStorePicks(db: ChunkDb, s: Stores, p: Prefix, idxs: seq<int>)
    requires Agree(s)
    ensures PickedFrom(db, s, idxs, db.ChunksIn(s, p, KeysOf(db.genesisHash, idxs)))
    decreases |idxs|
  {
    if idxs != [] {
      var init, i := idxs[..|idxs| - 1], idxs[|idxs| - 1];
      var key, rest := GetBadgerKey(db.genesisHash, i), db.ChunksIn(s, p, KeysOf(db.genesisHash, init));
      KeysOfInit(db.genesisHash, idxs);
      OneStorePicks(db, s, p, init);
      if s.Holds(p, key) {
        HeldIsStored(db, s, p, i);
        PickedNext(db, s, idxs, rest, db.ChunkIn(s, p, key));
      }
    }
  }

  lemma HeldIsStored(db: ChunkDb, s: Stores, p: Prefix, i: int)
    requires Agree(s) && s.Holds(p, GetBadgerKey(db.genesisHash, i))
    ensures var c := db.ChunkIn(s, p, GetBadgerKey(db.genesisHash, i));
            StoredAs(db, s, c) && c.idx == i
  {
    KeyRoundTrip(db.genesisHash, i);
    AgreeView(s, GetBadgerKey(db.genesisHash, i));
  }

  lemma {:induction false} ViewPicks(db: ChunkDb, s: Stores, idxs: seq<int>)
    ensures PickedFrom(db, s, idxs, db.ViewedChunks(s, KeysOf(db.genesisHash, idxs)))
    decreases |idxs|
  {
    if idxs != [] {
      var init, i := idxs[..|idxs| - 1], idxs[|idxs| - 1];
      var key, rest := GetBadgerKey(db.genesisHash, i), db.ViewedChunks(s, KeysOf(db.genesisHash, init));
      KeysOfInit(db.genesisHash, idxs);
      ViewPicks(db, s, init);
      var chunk := db.ViewedChunk(s, key);
      if chunk.Some? {
        ViewedIsStored(db, s, i);
        PickedNext(db, s, idxs, rest, chunk.value);
      }
    }
  }

  lemma ViewedIsStored(db: ChunkDb, s: Stores, i: int)
    ensures var chunk := db.ViewedChunk(s, GetBadgerKey(db.genesisHash, i));
            chunk.Some? ==> StoredAs(db, s, chunk.value) && chunk.value.idx == i
  {
    KeyRoundTrip(db.genesisHash, i);
  }

  lemma {:induction false} PickedJoin(db: ChunkDb, s: Stores, a: seq<int>, b: seq<int>, x: seq<ChunkData>,
          y: seq<ChunkData>)
    requires PickedFrom(db, s, a, x) && PickedFrom(db, s, b, y)
    ensures PickedFrom(db, s, a + b, x + y)
    decreases |b|
  {
    if b == [] {
      assert a + b == a && x + y == x;
    } else {
      var init := b[..|b| - 1];
      assert (a + b)[..|a + b| - 1] == a + init;
      if PickedFrom(db, s, init, y) {
        PickedJoin(db, s, a, init, x, y);
      } else {
        PickedJoin(db, s, a, init, x, y[..|y| - 1]);
        assert (x + y)[..|x + y| - 1] == x + y[..|y| - 1];
      }
    }
  }

  /** Reading in pages is reading at once. */
  lemma {:induction false} ViewedJoin(db: ChunkDb, s: Stores, a: seq<string>, b: seq<string>)
    ensures db.ViewedChunks(s, a + b) == db.ViewedChunks(s, a) + db.ViewedChunks(s, b)
    decreases |b|
  {
    if b == [] {
      assert a + b == a;
    } else {
      assert (a + b)[..|a + b| - 1] == a + b[..|b| - 1];
      ViewedJoin(db, s, a, b[..|b| - 1]);
    }
  }

  /** Indexes one step apart, in scan order. */
  ghost predicate Consecutive(t: SessionType, start: int, idxs: seq<int>) {
    forall k :: 0 <= k < |idxs| ==> idxs[k] == start + Along(t, k)
  }

  lemma {:induction false} PickedOrdered(db: ChunkDb, s: Stores, t: SessionType, start: int, idxs: seq<int>,
          chunks: seq<ChunkData>)
    requires PickedFrom(db, s, idxs, chunks) && Consecutive(t, start, idxs)
    ensures InScanOrder(t, chunks)
    ensures forall c :: c in chunks ==> StoredAs(db, s, c) && 0 <= Distance(t, start, c.idx) < |idxs|
    decreases |idxs|
  {
    if idxs != [] {
      var init := idxs[..|idxs| - 1];
      if PickedFrom(db, s, init, chunks) {
        PickedOrdered(db, s, t, start, init, chunks);
      } else {
        var rest, last := chunks[..|chunks| - 1], chunks[|chunks| - 1];
        PickedOrdered(db, s, t, start, init, rest);
        LastInOrder(t, start, |init|, rest, last);
        assert chunks == rest + [last];
      }
    }
  }

  lemma {:induction false} PickedAll(db: ChunkDb, s: Stores, idxs: seq<int>, chunks: seq<ChunkData>)
    requires PickedFrom(db, s, idxs, chunks)
    ensures |chunks| <= |idxs|
    ensures |chunks| == |idxs| ==> forall k :: 0 <= k < |chunks| ==> chunks[k].idx == idxs[k]
    decreases |idxs|
  {
    if idxs != [] {
      var init := idxs[..|idxs| - 1];
      if PickedFrom(db, s, init, chunks) {
        PickedAll(db, s, init, chunks);
      } else {
        PickedAll(db, s, init, chunks[..|chunks| - 1]);
      }
    }
  }

  lemma LastInOrder(t: SessionType, start: int, n: nat, rest: seq<ChunkData>, last: ChunkData)
    requires InScanOrder(t, rest) && last.idx == start + Along(t, n)
    requires forall c :: c in rest ==> Distance(t, start, c.idx) < n
    ensures InScanOrder(t, rest + [last]) && Distance(t, start, last.idx) == n
  {
    var all := rest + [last];
    forall j, k | 0 <= j < k < |all| ensures Before(t, all[j].idx, all[k].idx) {
      if k < |rest| {
        assert Before(t, rest[j].idx, rest[k].idx);
      } else {
        assert rest[j] in rest;
      }
    }
  }

  /** A list read under consecutive indexes of the file is in scan order, in range and what the stores hold. */
  ghost predicate GoodRead(l: Layout, db: ChunkDb, s: Stores, chunks: seq<ChunkData>) {
    && InScanOrder(l.sessionType, chunks)
    && AllInRange(l, IdxsOf(chunks))
    && forall c :: c in chunks ==> StoredAs(db, s, c)
  }

  lemma PickedIsGood(l: Layout, db: ChunkDb, s: Stores, start: int, idxs: seq<int>, chunks: seq<ChunkData>)
    requires PickedFrom(db, s, idxs, chunks) && Consecutive(l.sessionType, start, idxs) && AllInRange(l, idxs)
    ensures GoodRead(l, db, s, chunks) && |chunks| <= |idxs|
  {
    PickedOrdered(db, s, l.sessionType, start, idxs, chunks);
    PickedAll(db, s, idxs, chunks);
    forall i | i in IdxsOf(chunks) ensures InRange(l, i) {
      var k :| 0 <= k < |chunks| && chunks[k].idx == i;
      assert chunks[k] in chunks;
      var j := Distance(l.sessionType, start, i);
      assert idxs[j] == i;
    }
  }

  /** What the attach job reads for a session on its list: consecutive indexes of the file, from the cursor on. */
  lemma FetchIsGood(l: Layout, c: Cursors, db: ChunkDb, s: Stores, offset: nat, fails: bool)
    requires ValidCursors(l, c) && NeedsAttaching(l, c) && Agree(s)
    ensures var keys := KeysOf(db.genesisHash, IdxRange(c.attach, FetchStop(l, c.attach, offset)));
            var chunks := db.ReadOf(s, InProgress, keys, fails);
            GoodRead(l, db, s, chunks) && |chunks| <= offset + 1
  {
    var range := IdxRange(c.attach, FetchStop(l, c.attach, offset));
    var chunks := db.ReadOf(s, InProgress, KeysOf(db.genesisHash, range), fails);
    OneStorePicks(db, s, InProgress, range);
    NothingPicked(db, s, range);
    PickedIsGood(l, db, s, c.attach, range, chunks);
    FetchAsksForOneMore(l, c.attach, offset);
  }
}
