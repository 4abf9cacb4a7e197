/**
 * Whole passes that nobody interrupts as runs of the cursor protocol. What is required of the lists and of
 * the states between batches or pages is what the passes ensure of them.
 */
module PassRuns {
  import opened Core
  import opened SessionCursors
  import opened CursorProtocol
  import opened BadgerKeys
  import opened ChunkStores
  import opened ChunkDatabase
  import opened UploadSessions
  import opened TangleCheck
  import opened TreasureMerge
  import opened OrderedReads
  import opened AttachJob
  import opened VerifyJob
  import opened StoreRuns
  import opened AttachRuns
  import opened VerifyRuns

  lemma GoodIsViewed(l: Layout, db: ChunkDb, s: Stores, read: seq<ChunkData>)
    requires GoodRead(l, db, s, read)
    ensures Viewed(db, s, read)
  {
    forall c | c in read ensures View(s, db.KeyOf(c)).Some? { assert StoredAs(db, s, c); }
  }

  /** Loading the row starts a pass of worker `w`. */
  lemma LoadRun(l: Layout, db: ChunkDb, w: nat, s: Stores, row: Cursors, st: State) returns (u: State)
    requires Shows(l, db, st, s) && st.row == Some(row)
    ensures Run(l, st, [Load(w)], u) && Represents(l, db, w, u, Snapshot(s, row, row))
  {
    u := Apply(l, st, Load(w));
    RunOne(l, st, Load(w));
  }

  lemma PageViewed(l: Layout, db: ChunkDb, s: Stores, chunks: seq<ChunkData>, k: nat)
    requires InScanOrder(l.sessionType, chunks) && AllInRange(l, IdxsOf(chunks)) && Viewed(db, s, chunks)
    ensures var page := PageOf(chunks, MAX_ADDRESSES, k);
            InScanOrder(l.sessionType, page) && AllInRange(l, IdxsOf(page)) && Viewed(db, s, page)
  {
    PageOrdered(l, chunks, k);
  }

  /** The event is one of the batch's: it moves a treasure found, or is one of its steps on the cursors. */
  ghost predicate OfBatch(w: nat, batches: seq<Batch>, powEnabled: bool, n: nat, e: Event) {
    exists k :: 0 <= k < n <= |batches|
      && (MoveOf(e, ToSet(IdxsOf(batches[k].moved))) || e in BatchEvents(w, batches[k], powEnabled))
  }

  lemma OfBatchLater(w: nat, batches: seq<Batch>, powEnabled: bool, n: nat, e: Event)
    requires OfBatch(w, batches, powEnabled, n, e) && n < |batches|
    ensures OfBatch(w, batches, powEnabled, n + 1, e)
  {
  }

  /** Whatever a pass records as matched or seen, the tangle answered so to one of its batches. */
  lemma AttachPassIsTruthful(p: Pass, w: nat, batches: seq<Batch>, handed: seq<seq<ChunkData>>, n: nat, e: Event)
    requires p.Proper() && p.DidFirst(batches, handed) && OfBatch(w, batches, p.powEnabled, n, e)
    ensures exists k :: 0 <= k < n <= |batches| && Truthful(p.Page(k), p.answers[k], p.lookup, e)
  {
    var k :| 0 <= k < n <= |batches|
      && (MoveOf(e, ToSet(IdxsOf(batches[k].moved))) || e in BatchEvents(w, batches[k], p.powEnabled));
    assert p.Did(batches, handed, k);
    PageOrdered(p.layout, p.chunks, k);
    BatchIsTruthful(p.layout, w, p.Page(k), p.lookup, p.answers[k], p.powEnabled, e);
  }

  /** Batch `k` of a pass. */
  lemma NextBatchRun(p: Pass, db: ChunkDb, w: nat, batches: seq<Batch>, handed: seq<seq<ChunkData>>,
                     trail: seq<Snapshot>, k: nat, st: State) returns (events: seq<Event>, u: State)
    requires p.Proper() && p.DidFirst(batches, handed) && k < |batches|
    requires BatchTrail(p.layout, db, batches, p.powEnabled, trail)
    requires Viewed(db, trail[0].stores, p.chunks) && SameView(trail[0].stores, trail[k].stores)
    requires Represents(p.layout, db, w, st, trail[k])
    ensures Run(p.layout, st, events, u) && Represents(p.layout, db, w, u, trail[k + 1])
    ensures forall e :: e in events ==> OfBatch(w, batches, p.powEnabled, k + 1, e)
    ensures SameView(trail[0].stores, trail[k + 1].stores)
  {
    assert p.Did(batches, handed, k) && StepAt(p.layout, db, batches, p.powEnabled, trail, k);
    ViewedLater(db, trail[0].stores, trail[k].stores, p.chunks);
    PageViewed(p.layout, db, trail[k].stores, p.chunks, k);
    var moves, o :=
      BatchIsRun(p.layout, db, w, p.Page(k), p.lookup, p.answers[k], p.powEnabled, trail[k], trail[k + 1], st);
    SameViewTrans(trail[0].stores, trail[k].stores, trail[k + 1].stores);
    events, u := moves + BatchEvents(w, batches[k], p.powEnabled), o;
    forall e | e in events ensures OfBatch(w, batches, p.powEnabled, k + 1, e) {
      assert MoveOf(e, ToSet(IdxsOf(batches[k].moved))) || e in BatchEvents(w, batches[k], p.powEnabled);
    }
  }

  /** The first `n` batches of a pass. */
  lemma {:induction false} BatchesRun(p: Pass, db: ChunkDb, w: nat, batches: seq<Batch>, handed: seq<seq<ChunkData>>,
                                      trail: seq<Snapshot>, n: nat, st: State)
      returns (events: seq<Event>, u: State)
    requires p.Proper() && p.DidFirst(batches, handed) && n <= |batches|
    requires BatchTrail(p.layout, db, batches, p.powEnabled, trail)
    requires Viewed(db, trail[0].stores, p.chunks) && Represents(p.layout, db, w, st, trail[0])
    ensures Run(p.layout, st, events, u) && Represents(p.layout, db, w, u, trail[n])
    ensures forall e :: e in events ==> OfBatch(w, batches, p.powEnabled, n, e)
    ensures SameView(trail[0].stores, trail[n].stores)
  {
    events, u := [], st;
    if n > 0 {
      var a, m := BatchesRun(p, db, w, batches, handed, trail, n - 1, st);
      var c, o := NextBatchRun(p, db, w, batches, handed, trail, n - 1, m);
      RunJoin(p.layout, st, a, m, c, o);
      events, u := a + c, o;
      forall e | e in a ensures OfBatch(w, batches, p.powEnabled, n, e) {
        OfBatchLater(w, batches, p.powEnabled, n - 1, e);
      }
    }
  }

  /** A whole pass of the attach job is a run, from any state in which the row was as the pass found it. */
  lemma AttachPassIsRun(p: Pass, db: ChunkDb, w: nat, batches: seq<Batch>, handed: seq<seq<ChunkData>>,
                        trail: seq<Snapshot>, s: Stores, row: Cursors, st: State)
      returns (events: seq<Event>, u: State)
    requires p.Proper() && p.DidFirst(batches, handed) && BatchTrail(p.layout, db, batches, p.powEnabled, trail)
    requires Viewed(db, s, p.chunks) && trail[0] == Snapshot(s, row, row)
    requires Shows(p.layout, db, st, s) && st.row == Some(row)
    ensures Run(p.layout, st, events, u) && Represents(p.layout, db, w, u, trail[|batches|])
    ensures forall e :: e in events ==> e == Load(w) || OfBatch(w, batches, p.powEnabled, |batches|, e)
    ensures Reachable(p.layout, st) ==> Reachable(p.layout, u)
  {
    var loaded := LoadRun(p.layout, db, w, s, row, st);
    var a, n := BatchesRun(p, db, w, batches, handed, trail, |batches|, loaded);
    u := n;
    RunJoin(p.layout, st, [Load(w)], loaded, a, u);
    events := [Load(w)] + a;
    RunReaches(p.layout, st, events, u);
  }

  ghost predicate OfPage(l: Layout, w: nat, read: seq<ChunkData>, answers: seq<TangleAnswer>, n: nat, e: Event) {
    exists k :: 0 <= k < n <= |answers|
      && (MoveOf(e, ToSet(IdxsOf(CheckOf(l, read, answers, k).treasures)))
          || e in PageEvents(w, CheckOf(l, read, answers, k)))
  }

  lemma OfPageLater(l: Layout, w: nat, read: seq<ChunkData>, answers: seq<TangleAnswer>, n: nat, e: Event)
    requires OfPage(l, w, read, answers, n, e) && n < |answers|
    ensures OfPage(l, w, read, answers, n + 1, e)
  {
  }

  /** Whatever a pass records as matched or seen, the tangle answered so to one of its pages. */
  lemma SessionCheckIsTruthful(l: Layout, w: nat, read: seq<ChunkData>, answers: seq<TangleAnswer>, n: nat, e: Event)
    requires OfPage(l, w, read, answers, n, e)
    ensures exists k :: 0 <= k < n <= |answers|
                        && Truthful(PageOf(read, MAX_ADDRESSES, k), answers[k], NO_LOOKUPS, e)
  {
    var k :| 0 <= k < n <= |answers|
      && (MoveOf(e, ToSet(IdxsOf(CheckOf(l, read, answers, k).treasures)))
          || e in PageEvents(w, CheckOf(l, read, answers, k)));
    PageIsTruthful(l, w, PageOf(read, MAX_ADDRESSES, k), answers[k], e);
  }

  /** Page `k` of a pass. */
  lemma NextPageRun(l: Layout, db: ChunkDb, w: nat, read: seq<ChunkData>, answers: seq<TangleAnswer>,
                    trail: seq<Snapshot>, k: nat, st: State) returns (events: seq<Event>, u: State)
    requires PageTrail(l, db, read, answers, trail) && k + 1 < |trail|
    requires InScanOrder(l.sessionType, read) && AllInRange(l, IdxsOf(read)) && Viewed(db, trail[0].stores, read)
    requires SameView(trail[0].stores, trail[k].stores) && Represents(l, db, w, st, trail[k])
    ensures Run(l, st, events, u) && Represents(l, db, w, u, trail[k + 1])
    ensures forall e :: e in events ==> OfPage(l, w, read, answers, k + 1, e)
    ensures SameView(trail[0].stores, trail[k + 1].stores)
  {
    assert PageStep(l, db, read, answers, trail, k);
    ViewedLater(db, trail[0].stores, trail[k].stores, read);
    PageViewed(l, db, trail[k].stores, read, k);
    var moves, o := PageIsRun(l, db, w, PageOf(read, MAX_ADDRESSES, k), answers[k], trail[k], trail[k + 1], st);
    SameViewTrans(trail[0].stores, trail[k].stores, trail[k + 1].stores);
    var check := CheckOf(l, read, answers, k);
    events, u := moves + PageEvents(w, check), o;
    forall e | e in events ensures OfPage(l, w, read, answers, k + 1, e) {
      assert MoveOf(e, ToSet(IdxsOf(check.treasures))) || e in PageEvents(w, check);
    }
  }

  /** The first `n` pages of a pass. */
  lemma {:induction false} PagesRun(l: Layout, db: ChunkDb, w: nat, read: seq<ChunkData>, answers: seq<TangleAnswer>,
                                    trail: seq<Snapshot>, n: nat, st: State)
      returns (events: seq<Event>, u: State)
    requires PageTrail(l, db, read, answers, trail) && n < |trail|
    requires InScanOrder(l.sessionType, read) && AllInRange(l, IdxsOf(read)) && Viewed(db, trail[0].stores, read)
    requires Represents(l, db, w, st, trail[0])
    ensures Run(l, st, events, u) && Represents(l, db, w, u, trail[n])
    ensures forall e :: e in events ==> OfPage(l, w, read, answers, n, e)
    ensures SameView(trail[0].stores, trail[n].stores)
  {
    events, u := [], st;
    if n > 0 {
      var a, m := PagesRun(l, db, w, read, answers, trail, n - 1, st);
      var c, o := NextPageRun(l, db, w, read, answers, trail, n - 1, m);
      RunJoin(l, st, a, m, c, o);
      events, u := a + c, o;
      forall e | e in a ensures OfPage(l, w, read, answers, n, e) {
        OfPageLater(l, w, read, answers, n - 1, e);
      }
    }
  }

  /** When the job finds nothing to attach, no chunk of the next fetch is complete in the in-progress store. */
  lemma NothingFetchedIsEnabled(db: ChunkDb, s: Stores, l: Layout, attach: int, i: int)
    requires db.ChunksIn(s, InProgress, KeysOf(db.genesisHash, IdxRange(attach, FetchStop(l, attach, 1)))) == []
    requires s.Holds(InProgress, GetBadgerKey(db.genesisHash, i))
    ensures !InFetchRange(l, attach, 1, i)
  {
    var range := IdxRange(attach, FetchStop(l, attach, 1));
    var keys := KeysOf(db.genesisHash, range);
    if InFetchRange(l, attach, 1, i) {
      FetchedIdxs(l, attach, 1, i);
      var k :| 0 <= k < |range| && range[k] == i;
      assert keys[k] == GetBadgerKey(db.genesisHash, i);
      db.ChunksInHas(s, InProgress, keys, keys[k]);
    }
  }

  /** adjustIndexes is no step, or the step that declares the attachment finished. */
  lemma AdjustRun(l: Layout, db: ChunkDb, w: nat, s: Stores, row: Cursors, readFails: bool, st: State)
      returns (events: seq<Event>, u: State)
    requires Represents(l, db, w, st, Snapshot(s, row, row))
    ensures var start := Adjusted(l, db, s, row, readFails);
            Run(l, st, events, u) && Represents(l, db, w, u, Snapshot(s, start, start))
    ensures forall e :: e in events ==> e == AdjustIndexes(w, readFails)
  {
    events, u := [], st;
    if NothingLeft(l, db, s, row, readFails) {
      var e := AdjustIndexes(w, readFails);
      forall i | !readFails && i in st.inProgress ensures !InFetchRange(l, row.attach, 1, i) {
        NothingFetchedIsEnabled(db, s, l, row.attach, i);
      }
      RunOne(l, st, e);
      events, u := [e], Apply(l, st, e);
    }
  }

  lemma LoadAndAdjustRun(l: Layout, db: ChunkDb, w: nat, s: Stores, row: Cursors, readFails: bool, st: State)
      returns (events: seq<Event>, u: State)
    requires Shows(l, db, st, s) && st.row == Some(row)
    ensures var start := Adjusted(l, db, s, row, readFails);
            Run(l, st, events, u) && Represents(l, db, w, u, Snapshot(s, start, start))
    ensures forall e :: e in events ==> e == Load(w) || e == AdjustIndexes(w, readFails)
  {
    var loaded := LoadRun(l, db, w, s, row, st);
    var a, m := AdjustRun(l, db, w, s, row, readFails, loaded);
    RunJoin(l, st, [Load(w)], loaded, a, m);
    events, u := [Load(w)] + a, m;
  }

  /**
   * A whole pass of the verify job is a run: loading the row, perhaps declaring the attachment finished,
   * and every page with its moves. What is required of `start`, `read` and `trail` is what the pass ensures.
   */
  lemma SessionCheckIsRun(l: Layout, db: ChunkDb, w: nat, s: Stores, row: Cursors, adjustFails: bool, start: Cursors,
                          read: seq<ChunkData>, answers: seq<TangleAnswer>, trail: seq<Snapshot>, st: State)
      returns (events: seq<Event>, u: State)
    requires start == Adjusted(l, db, s, row, adjustFails) && GoodRead(l, db, s, read)
    requires PageTrail(l, db, read, answers, trail) && trail[0] == Snapshot(s, start, start)
    requires Shows(l, db, st, s) && st.row == Some(row)
    ensures Run(l, st, events, u) && Represents(l, db, w, u, trail[|trail| - 1])
    ensures forall e :: e in events ==>
              e == Load(w) || e == AdjustIndexes(w, adjustFails) || OfPage(l, w, read, answers, |trail| - 1, e)
    ensures Reachable(l, st) ==> Reachable(l, u)
  {
    var a, m := LoadAndAdjustRun(l, db, w, s, row, adjustFails, st);
    GoodIsViewed(l, db, s, read);
    var c, n := PagesRun(l, db, w, read, answers, trail, |trail| - 1, m);
    RunJoin(l, st, a, m, c, n);
    events, u := a + c, n;
    RunReaches(l, st, events, u);
  }
}
