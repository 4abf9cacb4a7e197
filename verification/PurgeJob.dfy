/**
 * The job that purges completed sessions. A session is on its list only when both halves of every chunk
 * have come together, so no reader notices the move that comes before the deletion.
 */
module PurgeJob {
  import opened Core
  import opened SessionCursors
  import opened CursorProtocol
  import opened BadgerKeys
  import opened ChunkStores
  import opened ChunkDatabase
  import opened HashChain
  import opened AttachJob
  import opened StoreRuns

  /** Every chunk of the file is held whole by one of the stores. */
  ghost predicate FileHeld(l: Layout, db: ChunkDb, s: Stores) {
    forall i :: InRange(l, i) ==> View(s, GetBadgerKey(db.genesisHash, i)).Some?
  }

  /** A session whose row looks completed has all its chunks, and none of them is split between the stores. */
  lemma CompletedIsHeld(l: Layout, db: ChunkDb, st: State, s: Stores)
    requires Reachable(l, st) && Shows(l, db, st, s)
    requires st.row.Some? && LooksCompleted(l, st.row.value)
    ensures FileHeld(l, db, s) && Settled(s, db.AllKeys(l.numChunks))
  {
    ReachableIsGood(l, st);
    forall i | InRange(l, i) ensures View(s, GetBadgerKey(db.genesisHash, i)).Some? {
      assert Confirmed(st, i);
      assert i in st.inProgress + st.completed;
    }
    forall key | key in db.AllKeys(l.numChunks) ensures SettledAt(s, key) {
      var i :| 0 <= i < l.numChunks && db.FirstKeys(l.numChunks)[i] == key;
      assert InRange(l, i) && View(s, GetBadgerKey(db.genesisHash, i)).Some?;
    }
  }

  // ---- A move of the file as a run ----

  /** A move of the file that no reader notices: finished, or broken off anywhere. */
  ghost predicate FileMove(l: Layout, db: ChunkDb, s: Stores, t: Stores) {
    && Agree(s) && Agree(t) && SameView(s, t)
    && MoveOnTrack(s, t) && MovesOnly(s, t, db.AllKeys(l.numChunks))
    && HashedInside(t, db.genesisHash, l.numChunks)
  }

  /** A successful move of a whole file, as MoveAllChunksToCompleted ensures it. */
  ghost predicate FileMoved(l: Layout, db: ChunkDb, s: Stores, t: Stores) {
    && FileMove(l, db, s, t)
    && forall kind: Kind ::
         t.Get(Completed, kind) == s.Get(Completed, kind) + EntriesUnder(s, kind, db.FirstKeys(l.numChunks))
  }

  lemma FileMoveAt(l: Layout, db: ChunkDb, s: Stores, t: Stores, i: int)
    requires FileMove(l, db, s, t) && Settled(s, db.AllKeys(l.numChunks)) && InRange(l, i)
    ensures var key := GetBadgerKey(db.genesisHash, i);
            && (s.Holds(Completed, key) ==> t.Holds(Completed, key))
            && (t.Holds(Completed, key) ==> s.Holds(Completed, key) || s.Holds(InProgress, key))
            && (t.Holds(InProgress, key) ==> s.Holds(InProgress, key))
            && (s.Holds(InProgress, key) && !t.Holds(InProgress, key) ==> t.Holds(Completed, key))
            && (HashData(s, Completed, db.genesisHash, i) != "" ==>
                  HashData(t, Completed, db.genesisHash, i) == HashData(s, Completed, db.genesisHash, i))
  {
    var key := GetBadgerKey(db.genesisHash, i);
    assert db.FirstKeys(l.numChunks)[i] == key;
    assert SettledAt(s, key) && View(s, key) == View(t, key);
    forall kind: Kind
      ensures key in s.Get(Completed, kind) ==>
                Lookup(t.Get(Completed, kind), key) == Lookup(s.Get(Completed, kind), key)
      ensures key in t.Get(InProgress, kind) ==> key in s.Get(InProgress, kind)
    {
      assert MoveInStep(s, t, kind, key);
    }
    AgreeView(s, key);
    AgreeView(t, key);
  }

  lemma FileMoveSets(l: Layout, db: ChunkDb, s: Stores, t: Stores)
    requires FileMove(l, db, s, t) && Settled(s, db.AllKeys(l.numChunks))
    ensures HeldIdxs(l, db, s, Completed) <= HeldIdxs(l, db, t, Completed)
    ensures HeldIdxs(l, db, t, Completed) <= HeldIdxs(l, db, s, Completed) + HeldIdxs(l, db, s, InProgress)
    ensures HeldIdxs(l, db, t, InProgress) <= HeldIdxs(l, db, s, InProgress)
    ensures HeldIdxs(l, db, s, InProgress) - HeldIdxs(l, db, t, InProgress) <= HeldIdxs(l, db, t, Completed)
    ensures HashedIdxs(l, db, s) <= HashedIdxs(l, db, t)
  {
    forall i | InRange(l, i)
      ensures i in HeldIdxs(l, db, s, Completed) ==> i in HeldIdxs(l, db, t, Completed)
      ensures i in HeldIdxs(l, db, t, Completed) ==>
                i in HeldIdxs(l, db, s, Completed) || i in HeldIdxs(l, db, s, InProgress)
      ensures i in HeldIdxs(l, db, t, InProgress) ==> i in HeldIdxs(l, db, s, InProgress)
      ensures i in HeldIdxs(l, db, s, InProgress) && i !in HeldIdxs(l, db, t, InProgress) ==>
                i in HeldIdxs(l, db, t, Completed)
      ensures i in HashedIdxs(l, db, s) ==> i in HashedIdxs(l, db, t)
    {
      FileMoveAt(l, db, s, t, i);
    }
  }

  lemma FinishedAt(l: Layout, db: ChunkDb, s: Stores, t: Stores, kind: Kind, i: int)
    requires FileMoved(l, db, s, t) && InRange(l, i)
    ensures var key := GetBadgerKey(db.genesisHash, i);
            key in s.Get(InProgress, kind) ==> key in t.Get(Completed, kind)
  {
    var key := GetBadgerKey(db.genesisHash, i);
    assert db.FirstKeys(l.numChunks)[i] == key;
    assert key in s.Get(InProgress, kind) ==> key in EntriesUnder(s, kind, db.FirstKeys(l.numChunks));
  }

  /** A finished move has brought everything in progress to the completed store. */
  lemma FinishedSets(l: Layout, db: ChunkDb, s: Stores, t: Stores)
    requires FileMoved(l, db, s, t)
    ensures HeldIdxs(l, db, s, InProgress) <= HeldIdxs(l, db, t, Completed)
  {
    forall i | i in HeldIdxs(l, db, s, InProgress) ensures i in HeldIdxs(l, db, t, Completed) {
      FinishedAt(l, db, s, t, Hash, i);
      FinishedAt(l, db, s, t, Message, i);
    }
  }

  function FileIdxs(l: Layout): (idxs: set<int>)
    ensures forall i :: i in idxs <==> InRange(l, i)
  {
    set i | 0 <= i < l.numChunks && InRange(l, i)
  }

  /** The event is the purge's. `DropChunk` stands for the windows it dropped before it broke off. */
  predicate PurgeStep(e: Event) {
    || e.ListCompleted? || e.ReadWindow? || e.CopyWindow? || e.DropWindow? || e.PurgeFails? || e.DropChunk?
    || e.DeleteRow?
  }

  /** All windows of a purge at once: the file is read and copied, as far as `copied` and `hashes` go. */
  lemma CopyRun(l: Layout, st: State, hashes: set<int>, copied: set<int>, ok: bool)
      returns (events: seq<Event>, u: State)
    requires st.purge == Moving(0) && l.numChunks > 0 && hashes <= FileIdxs(l)
    requires st.inProgress <= FileIdxs(l) && copied <= st.inProgress && (ok ==> copied == st.inProgress)
    ensures Run(l, st, events, u) && forall e :: e in events ==> PurgeStep(e)
    ensures u == st.(hashed := st.hashed + hashes, completed := st.completed + copied,
                     purge := if ok then Dropping(0, l.numChunks) else Idle)
  {
    var st1 := Apply(l, st, ReadWindow(l.numChunks));
    assert st1.purge.read == st.inProgress;
    RunOne(l, st, ReadWindow(l.numChunks));
    OneMore(l, st, [ReadWindow(l.numChunks)], st1, CopyWindow(hashes, copied, ok));
    events := [ReadWindow(l.numChunks)] + [CopyWindow(hashes, copied, ok)];
    u := Apply(l, st1, CopyWindow(hashes, copied, ok));
  }

  lemma WindowsRun(l: Layout, st: State, hashes: set<int>, gone: set<int>) returns (events: seq<Event>, u: State)
    requires st.purge == Moving(0) && gone <= st.inProgress
    requires st.inProgress <= FileIdxs(l) && hashes <= FileIdxs(l)
    ensures Run(l, st, events, u)
    ensures u == st.(hashed := st.hashed + hashes, completed := st.completed + st.inProgress,
                     inProgress := st.inProgress - gone, purge := Moving(l.numChunks))
    ensures forall e :: e in events ==> PurgeStep(e)
  {
    if l.numChunks == 0 {
      events, u := [], st;
      assert FileIdxs(l) == {};
      assert st.inProgress == {} && hashes == {} && gone == {};
    } else {
      var a, m := CopyRun(l, st, hashes, st.inProgress, true);
      OneMore(l, st, a, m, DropWindow(gone));
      events, u := a + [DropWindow(gone)], Apply(l, m, DropWindow(gone));
    }
  }

  /** Purging a completed session, once its chunks were moved, is a run that ends without the row. */
  lemma PurgeIsRun(l: Layout, db: ChunkDb, s: Stores, t: Stores, st: State) returns (events: seq<Event>, u: State)
    requires FileMoved(l, db, s, t) && Settled(s, db.AllKeys(l.numChunks)) && Shows(l, db, st, s)
    requires st.row.Some? && LooksCompleted(l, st.row.value) && st.purge.Idle?
    ensures Run(l, st, events, u) && Shows(l, db, u, t) && u.row.None? && u.purge.Idle?
    ensures forall e :: e in events ==> PurgeStep(e)
  {
    FileMoveSets(l, db, s, t);
    FinishedSets(l, db, s, t);
    var listed := Apply(l, st, ListCompleted);
    RunOne(l, st, ListCompleted);
    var a, m := WindowsRun(l, listed, HashedIdxs(l, db, t) - st.hashed, st.inProgress - HeldIdxs(l, db, t, InProgress));
    RunJoin(l, st, [ListCompleted], listed, a, m);
    OneMore(l, st, [ListCompleted] + a, m, DeleteRow);
    events, u := [ListCompleted] + a + [DeleteRow], Apply(l, m, DeleteRow);
    assert u.hashed == HashedIdxs(l, db, t) && u.completed == HeldIdxs(l, db, t, Completed);
    assert u.inProgress == HeldIdxs(l, db, t, InProgress);
  }

  /** The purge lists the session, reads the file and copies a part of it. */
  lemma ListAndCopyRun(l: Layout, st: State, hashes: set<int>, copied: set<int>) returns (events: seq<Event>, u: State)
    requires l.numChunks > 0 && hashes <= FileIdxs(l) && copied <= st.inProgress <= FileIdxs(l)
    requires st.row.Some? && LooksCompleted(l, st.row.value) && st.purge.Idle?
    ensures Run(l, st, events, u) && forall e :: e in events ==> PurgeStep(e)
    ensures u == st.(hashed := st.hashed + hashes, completed := st.completed + copied)
  {
    var listed := Apply(l, st, ListCompleted);
    RunOne(l, st, ListCompleted);
    var a, m := CopyRun(l, listed, hashes, copied, false);
    RunJoin(l, st, [ListCompleted], listed, a, m);
    events, u := [ListCompleted] + a, m;
  }

  /** Then it drops some of what is completed, and breaks off. */
  lemma BreakOffRun(l: Layout, st: State, hashes: set<int>, copied: set<int>, gone: set<int>)
      returns (events: seq<Event>, u: State)
    requires l.numChunks > 0 && hashes <= FileIdxs(l) && copied <= st.inProgress <= FileIdxs(l)
    requires st.row.Some? && LooksCompleted(l, st.row.value) && st.purge.Idle?
    requires gone <= st.completed + copied
    ensures Run(l, st, events, u) && forall e :: e in events ==> PurgeStep(e)
    ensures u == st.(hashed := st.hashed + hashes, completed := st.completed + copied,
                     inProgress := st.inProgress - gone)
  {
    var a, m := ListAndCopyRun(l, st, hashes, copied);
    var b := StepsRun(l, m, DropStep, gone);
    u := Stepped(m, DropStep, gone);
    RunJoin(l, st, a, m, b, u);
    events := a + b;
    forall e | e in b ensures PurgeStep(e) { StepIsMove(e, DropStep, gone); }
  }

  lemma Gained(a: set<int>, b: set<int>)
    requires a <= b
    ensures a + (b - a) == b && b - (b - a) == a
  {
  }

  /** A purge that breaks off anywhere in its move is a run that leaves the row. */
  lemma BrokenPurgeIsRun(l: Layout, db: ChunkDb, s: Stores, t: Stores, st: State) returns (events: seq<Event>, u: State)
    requires FileMove(l, db, s, t) && Settled(s, db.AllKeys(l.numChunks)) && Shows(l, db, st, s)
    requires st.row.Some? && LooksCompleted(l, st.row.value) && st.purge.Idle?
    ensures Run(l, st, events, u) && Shows(l, db, u, t) && u.row == st.row && u.purge.Idle?
    ensures forall e :: e in events ==> PurgeStep(e)
  {
    var hashes, copied := HashedIdxs(l, db, t) - st.hashed, HeldIdxs(l, db, t, Completed) - st.completed;
    var gone := st.inProgress - HeldIdxs(l, db, t, InProgress);
    FileMoveSets(l, db, s, t);
    Gained(st.hashed, HashedIdxs(l, db, t));
    Gained(st.completed, HeldIdxs(l, db, t, Completed));
    Gained(HeldIdxs(l, db, t, InProgress), st.inProgress);
    if l.numChunks == 0 {
      events, u := [], st;
      assert HashedIdxs(l, db, t) == {} && HeldIdxs(l, db, t, InProgress) == {} == HeldIdxs(l, db, t, Completed);
    } else {
      events, u := BreakOffRun(l, st, hashes, copied, gone);
    }
  }

  // ---- The job ----

  /** A purge whose move finished may still not delete the row; then only the move has happened. */
  lemma UndeletedPurgeIsRun(l: Layout, db: ChunkDb, s: Stores, t: Stores, deleted: bool, st: State)
      returns (u: State)
    requires Reachable(l, st) && Shows(l, db, st, s) && st.purge.Idle?
    requires st.row.Some? && LooksCompleted(l, st.row.value)
    requires FileMove(l, db, s, t) && (deleted ==> FileMoved(l, db, s, t))
    ensures Reachable(l, u) && Shows(l, db, u, t) && u.purge.Idle?
    ensures u.row == if deleted then None else st.row
  {
    CompletedIsHeld(l, db, st, s);
    var events;
    if deleted {
      events, u := PurgeIsRun(l, db, s, t, st);
    } else {
      events, u := BrokenPurgeIsRun(l, db, s, t, st);
    }
    RunReaches(l, st, events, u);
  }

  /**
   * purgeSessions for one session that was on the list of completed ones: its chunks are moved, then the row
   * is deleted unless the move fails, or the entry in the table of completed uploads, or the deletion itself;
   * `recorded` says whether these two work. `st` is any state of the
   * protocol that the stores are in, `after` one they are left in.
   */
  method PurgeSession(l: Layout, db: ChunkDb, recorded: bool, ghost st: State)
      returns (deleted: bool, ghost after: State)
    requires Agree(db.stores) && Reachable(l, st) && Shows(l, db, st, db.stores) && st.purge.Idle?
    requires st.row.Some? && LooksCompleted(l, st.row.value)
    modifies db
    ensures Reachable(l, after) && Shows(l, db, after, db.stores) && after.purge.Idle?
    ensures after.row == if deleted then None else st.row
    ensures db.UnseenSince(old(db.history), old(db.stores), true)
    ensures FileHeld(l, db, db.stores)
    ensures deleted ==> recorded
    ensures !db.mayFail ==>
              && (recorded ==> deleted)
              && forall kind: Kind, key :: key in db.AllKeys(l.numChunks) ==> key !in db.stores.Get(InProgress, kind)
    ensures deleted ==> forall i :: InRange(l, i) ==> db.stores.Holds(Completed, GetBadgerKey(db.genesisHash, i))
  {
    ghost var s := db.stores;
    CompletedIsHeld(l, db, st, s);
    var ok, dropped := db.MoveAllChunksToCompleted(l.numChunks);
    deleted := ok && recorded;
    FileKeysInside(l, db, s, db.stores);
    after := UndeletedPurgeIsRun(l, db, s, db.stores, deleted, st);
    forall i | InRange(l, i)
      ensures View(db.stores, GetBadgerKey(db.genesisHash, i)).Some?
      ensures deleted ==> db.stores.Holds(Completed, GetBadgerKey(db.genesisHash, i))
    {
      assert View(s, GetBadgerKey(db.genesisHash, i)) == View(db.stores, GetBadgerKey(db.genesisHash, i));
      if deleted { DeletedHolds(l, after, i); }
    }
  }

  lemma DeletedHolds(l: Layout, st: State, i: int)
    requires Reachable(l, st) && st.row.None? && InRange(l, i)
    ensures i in st.completed
  {
    ReachableIsGood(l, st);
  }

  lemma FileKeysInside(l: Layout, db: ChunkDb, s: Stores, t: Stores)
    requires MovesOnly(s, t, db.AllKeys(l.numChunks)) && HashedInside(s, db.genesisHash, l.numChunks)
    ensures HashedInside(t, db.genesisHash, l.numChunks)
  {
    forall i | GetBadgerKey(db.genesisHash, i) in db.AllKeys(l.numChunks) ensures 0 <= i < l.numChunks {
      var j :| 0 <= j < l.numChunks && db.FirstKeys(l.numChunks)[j] == GetBadgerKey(db.genesisHash, i);
      KeyInjective(db.genesisHash, i, j);
    }
    MovingKeepsInside(s, t, db.AllKeys(l.numChunks), db.genesisHash, l.numChunks);
  }
}
