/**
 * One upload session: a row in the database, and objects that hold a private copy of the row and
 * write all of it back.
 */
module UploadSessions {
  import opened Core
  import opened SessionCursors
  import opened BadgerKeys
  import opened ChunkStores
  import opened ChunkDatabase
  import opened HashChain

  /** The treasure indexes whose hash can be read from the completed store. */
  function FilledTreasures(l: Layout, s: Stores, genesisHash: string): (filled: set<int>)
    ensures filled <= l.treasures
    ensures forall i :: i in filled <==> i in l.treasures && HashData(s, Completed, genesisHash, i) != ""
  {
    set i | i in l.treasures && HashData(s, Completed, genesisHash, i) != ""
  }

  /** With no hash completed outside the file, a cursor cannot be carried out of it by a misplaced treasure. */
  lemma FilledInside(l: Layout, s: Stores, genesisHash: string)
    requires HashedInside(s, genesisHash, l.numChunks)
    ensures Inside(l, FilledTreasures(l, s, genesisHash))
  {
  }

  /** Where GetUnassignedChunksBySession stops reading. */
  function FetchStop(l: Layout, attach: int, offset: nat): int {
    if l.sessionType.Alpha? then Min(attach + offset, l.numChunks - 1) else Max(attach - offset, 0)
  }

  /** The keys asked for are exactly the fetch range, whose both ends are included. */
  lemma FetchedIdxs(l: Layout, attach: int, offset: nat, i: int)
    ensures i in IdxRange(attach, FetchStop(l, attach, offset)) <==> InFetchRange(l, attach, offset, i)
  {
    var stop := FetchStop(l, attach, offset);
    var range := IdxRange(attach, stop);
    if InFetchRange(l, attach, offset, i) {
      assert range[if attach <= stop then i - attach else attach - i] == i;
    }
  }

  /** One chunk more is asked for than the caller has room for, except at the end of the file. */
  lemma FetchAsksForOneMore(l: Layout, attach: int, offset: nat)
    requires InRange(l, attach)
    ensures |IdxRange(attach, FetchStop(l, attach, offset))| ==
              Min(offset, l.numChunks - 1 - Rank(l, attach)) + 1
  {
  }

  /** What one worker's turn starts from or leaves: the stores, the row, and its own copy of the row. */
  datatype Snapshot = Snapshot(stores: Stores, row: Cursors, copy: Cursors)

  class SessionRow {
    var cursors: Cursors

    constructor (cursors: Cursors)
      ensures this.cursors == cursors
    {
      this.cursors := cursors;
    }
  }

  class UploadSession {
    const layout: Layout
    const row: SessionRow
    const db: ChunkDb
    var nextIdxToAttach: int
    var nextIdxToVerify: int

    /** DB.Find: a new copy of the row. */
    constructor Find(layout: Layout, row: SessionRow, db: ChunkDb)
      ensures this.layout == layout && this.row == row && this.db == db
      ensures Copy() == row.cursors
    {
      this.layout, this.row, this.db := layout, row, db;
      nextIdxToAttach, nextIdxToVerify := row.cursors.attach, row.cursors.verify;
    }

    function Copy(): Cursors
      reads this
    {
      Cursors(nextIdxToAttach, nextIdxToVerify)
    }

    function Now(): Snapshot
      reads this, row, db
    {
      Snapshot(db.stores, row.cursors, Copy())
    }

    function Filled(): set<int>
      reads this, db
    {
      FilledTreasures(layout, db.stores, db.genesisHash)
    }

    /** DB.ValidateAndUpdate: the whole row is overwritten. */
    method Save()
      modifies row
      ensures row.cursors == Copy()
    {
      row.cursors := Copy();
    }

    function FetchKeys(offset: nat): seq<string>
      reads this
    {
      KeysOf(db.genesisHash, IdxRange(nextIdxToAttach, FetchStop(layout, nextIdxToAttach, offset)))
    }

    method GetUnassignedChunksBySession(offset: nat, fails: bool) returns (chunks: seq<ChunkData>)
      ensures chunks == if fails then [] else db.ChunksIn(db.stores, InProgress, FetchKeys(offset))
    {
      var stopChunkIdx;
      if layout.sessionType.Alpha? {
        stopChunkIdx := nextIdxToAttach + offset;
        if stopChunkIdx > layout.numChunks - 1 { stopChunkIdx := layout.numChunks - 1; }
      } else {
        stopChunkIdx := nextIdxToAttach - offset;
        if stopChunkIdx < 0 { stopChunkIdx := 0; }
      }
      assert stopChunkIdx == FetchStop(layout, nextIdxToAttach, offset);
      var keys := GenerateBulkKeys(db.genesisHash, nextIdxToAttach, stopChunkIdx);
      assert keys == FetchKeys(offset);
      chunks := db.GetBulkChunkData(InProgress, keys, fails);
    }

    /** The loop both advances share: walk from `start` while the index is listed or a filled treasure. */
    method Scan(start: int, chunks: seq<ChunkData>) returns (next: int)
      ensures next == ScanFrom(layout.sessionType, start, |chunks|, ToSet(IdxsOf(chunks)) + Filled())
    {
      var idxMap: set<int> := {};
      for k := 0 to |chunks|
        invariant idxMap == set j | 0 <= j < k :: chunks[j].idx
      {
        idxMap := idxMap + {chunks[k].idx};
      }
      ghost var hit := ToSet(IdxsOf(chunks)) + Filled();
      assert idxMap == ToSet(IdxsOf(chunks)) by { ListedIdxs(chunks, idxMap); }
      var step := if layout.sessionType.Beta? then -1 else 1;
      var stop := if layout.sessionType.Beta? then start - |chunks| else start + |chunks|;
      next := start;
      var i := start;
      ghost var left := |chunks|;
      while i != stop
        invariant next == i && i == start + Along(layout.sessionType, |chunks| - left) && 0 <= left
        invariant ScanFrom(layout.sessionType, start, |chunks|, hit) == ScanFrom(layout.sessionType, i, left, hit)
        decreases left
      {
        if i !in idxMap {
          if i !in layout.treasures { break; }
          if HashData(db.stores, Completed, db.genesisHash, i) == "" { break; }
        }
        next := i + step;
        i := i + step;
        left := left - 1;
      }
    }

    static lemma ListedIdxs(chunks: seq<ChunkData>, idxMap: set<int>)
      requires idxMap == set j | 0 <= j < |chunks| :: chunks[j].idx
      ensures idxMap == ToSet(IdxsOf(chunks))
    {
      forall i ensures i in idxMap <==> i in IdxsOf(chunks) {
        if i in idxMap {
          var j :| 0 <= j < |chunks| && chunks[j].idx == i;
          assert IdxsOf(chunks)[j] == i;
        }
      }
    }

    method UpdateIndexWithVerifiedChunks(chunks: seq<ChunkData>)
      modifies this, row
      ensures Copy() == VerifyAdvanced(layout, old(Copy()), IdxsOf(chunks), Filled())
      ensures row.cursors == Copy()
    {
      var next := Scan(nextIdxToVerify, chunks);
      if layout.sessionType.Alpha? {
        nextIdxToVerify := if next <= nextIdxToAttach then next else nextIdxToAttach;
      } else {
        nextIdxToVerify := if next >= nextIdxToAttach then next else nextIdxToAttach;
      }
      Save();
    }

    method UpdateIndexWithAttachedChunks(chunks: seq<ChunkData>)
      modifies this, row
      ensures Copy() == AttachAdvanced(layout, old(Copy()), IdxsOf(chunks), Filled())
      ensures row.cursors == Copy()
    {
      nextIdxToAttach := Scan(nextIdxToAttach, chunks);
      Save();
    }

    static method Bounds(chunks: seq<ChunkData>) returns (minIdx: int, maxIdx: int)
      requires chunks != []
      ensures minIdx == LeastOf(IdxsOf(chunks)) && maxIdx == GreatestOf(IdxsOf(chunks))
    {
      maxIdx, minIdx := chunks[0].idx, chunks[0].idx;
      ghost var idxs := IdxsOf(chunks);
      assert idxs[..1] == [chunks[0].idx];
      for k := 0 to |chunks|
        invariant k == 0 ==> minIdx == maxIdx == chunks[0].idx
        invariant k > 0 ==> minIdx == LeastOf(idxs[..k]) && maxIdx == GreatestOf(idxs[..k])
      {
        assert idxs[..k + 1] == idxs[..k] + [chunks[k].idx];
        if k > 0 { BoundsSnoc(idxs[..k], chunks[k].idx); }
        if maxIdx < chunks[k].idx { maxIdx := chunks[k].idx; }
        if chunks[k].idx < minIdx { minIdx := chunks[k].idx; }
      }
      assert idxs[..|chunks|] == idxs;
    }

    /** The row is written only when there is something to report. */
    method DownGradeIndexesOnUnattachedChunks(chunks: seq<ChunkData>)
      modifies this, row
      ensures Copy() == Downgraded(layout, old(Copy()), IdxsOf(chunks))
      ensures row.cursors == if chunks == [] then old(row.cursors) else Copy()
    {
      if |chunks| == 0 { return; }
      var minIdx, maxIdx := Bounds(chunks);
      if layout.sessionType.Alpha? {
        nextIdxToAttach := if minIdx <= nextIdxToAttach then minIdx else nextIdxToAttach;
        nextIdxToVerify := if minIdx <= nextIdxToVerify then minIdx else nextIdxToVerify;
      } else {
        nextIdxToAttach := if maxIdx >= nextIdxToAttach then maxIdx else nextIdxToAttach;
        nextIdxToVerify := if maxIdx >= nextIdxToVerify then maxIdx else nextIdxToVerify;
      }
      Save();
    }
  }

  // ---- Lists of sessions ----

  datatype Loaded = Loaded(layout: Layout, cursors: Cursors)

  predicate Ready(s: Loaded) {
    NeedsAttaching(s.layout, s.cursors)
  }

  predicate Verifiable(s: Loaded) {
    NeedsVerifying(s.layout, s.cursors)
  }

  predicate CompletedSession(s: Loaded) {
    LooksCompleted(s.layout, s.cursors)
  }

  method GetReadySessions(sessions: seq<Loaded>) returns (r: seq<Loaded>)
    ensures r == Filter(sessions, Ready)
  {
    r := [];
    for i := 0 to |sessions|
      invariant r == Filter(sessions[..i], Ready)
    {
      assert sessions[..i + 1][..i] == sessions[..i];
      var s := sessions[i];
      if s.layout.sessionType.Beta? && s.cursors.attach != -1 {
        r := r + [s];
      } else if s.layout.sessionType.Alpha? && s.cursors.attach < s.layout.numChunks {
        r := r + [s];
      }
    }
    assert sessions[..|sessions|] == sessions;
  }

  method GetVerifiableSessions(sessions: seq<Loaded>) returns (r: seq<Loaded>)
    ensures r == Filter(sessions, Verifiable)
  {
    r := [];
    for i := 0 to |sessions|
      invariant r == Filter(sessions[..i], Verifiable)
    {
      assert sessions[..i + 1][..i] == sessions[..i];
      var s := sessions[i];
      var c := s.cursors;
      if s.layout.sessionType.Beta? && c.attach == -1 && c.verify != c.attach {
        r := r + [s];
      } else if s.layout.sessionType.Alpha? && c.attach == s.layout.numChunks && c.verify != c.attach {
        r := r + [s];
      }
    }
    assert sessions[..|sessions|] == sessions;
  }

  method GetCompletedSessions(sessions: seq<Loaded>) returns (r: seq<Loaded>)
    ensures r == Filter(sessions, CompletedSession)
  {
    r := [];
    for i := 0 to |sessions|
      invariant r == Filter(sessions[..i], CompletedSession)
    {
      assert sessions[..i + 1][..i] == sessions[..i];
      var stop: int := sessions[i].layout.numChunks;
      if sessions[i].layout.sessionType.Beta? { stop := -1; }
      if sessions[i].cursors.verify == stop { r := r + [sessions[i]]; }
    }
    assert sessions[..|sessions|] == sessions;
  }

  /** With cursors in order, every session is on exactly one of the three jobs' lists. */
  lemma ExactlyOneJob(sessions: seq<Loaded>, s: Loaded)
    requires s in sessions && ValidCursors(s.layout, s.cursors)
    ensures var ready, verifiable, done :=
              s in Filter(sessions, Ready), s in Filter(sessions, Verifiable), s in Filter(sessions, CompletedSession);
            (ready || verifiable || done) && !(ready && verifiable) && !(ready && done) && !(verifiable && done)
  {
    FilterMember(sessions, Ready, s);
    FilterMember(sessions, Verifiable, s);
    FilterMember(sessions, CompletedSession, s);
  }

  // ---- Handing a chunk to a webnode ----

  function MessageData(s: Stores, p: Prefix, genesis: string, idx: int): string {
    var key := GetBadgerKey(genesis, idx);
    if key in s.Get(p, Message) then s.Get(p, Message)[key] else ""
  }

  /** GetChunkData: one chunk, with empty parts where the store has none. */
  function SingleChunk(db: ChunkDb, s: Stores, p: Prefix, idx: int): ChunkData {
    var hash, raw := HashData(s, p, db.genesisHash, idx), MessageData(s, p, db.genesisHash, idx);
    var address := if hash == "" then "" else db.addressOf(hash);
    var message := if raw == "" then "" else db.messageOf(raw);
    ChunkData(address, hash, message, raw, idx, db.genesisHash)
  }

  /** Reading a chunk by itself and reading it in bulk agree where the store holds all of it. */
  lemma SingleReadAgrees(db: ChunkDb, s: Stores, p: Prefix, idx: int)
    requires var key := GetBadgerKey(db.genesisHash, idx);
             s.Holds(p, key) && s.Get(p, Hash)[key] != "" && s.Get(p, Message)[key] != ""
    ensures db.ChunksIn(s, p, KeysOf(db.genesisHash, [idx])) == [SingleChunk(db, s, p, idx)]
  {
    var keys := KeysOf(db.genesisHash, [idx]);
    KeyRoundTrip(db.genesisHash, idx);
    assert keys[..0] == [];
    assert db.ChunksIn(s, p, keys) == db.ChunksIn(s, p, keys[..0]) + [db.ChunkIn(s, p, keys[0])];
  }

  /** Reading sessions[0] of an empty list panics. */
  datatype PoWOutcome = PoWPanic | Handed(session: nat, chunk: ChunkData) | NothingToHand

  /**
   * GetChunkForWebnodePoW. The loop variable shadows the index used afterwards, so whichever session
   * gave the chunk, it is the first session's row that is written.
   */
  method GetChunkForWebnodePoW(sessions: seq<UploadSession>) returns (r: PoWOutcome)
    requires forall i, j :: 0 <= i < j < |sessions| ==> sessions[i] != sessions[j] && sessions[i].row != sessions[j].row
    modifies set s | s in sessions, set s | s in sessions :: s.row
    ensures r.PoWPanic? <==> sessions == []
    ensures r.NothingToHand? ==> forall i :: 0 <= i < |sessions| ==>
              !CanTakeForPoW(sessions[i].layout, old(sessions[i].Copy()))
    ensures r.Handed? ==>
      && r.session < |sessions|
      && CanTakeForPoW(sessions[r.session].layout, old(sessions[r.session].Copy()))
      && r.chunk == SingleChunk(sessions[r.session].db, sessions[r.session].db.stores, InProgress,
                                old(sessions[r.session].nextIdxToAttach))
      && (forall i :: 0 <= i < r.session ==> !CanTakeForPoW(sessions[i].layout, old(sessions[i].Copy())))
    ensures forall i :: 0 <= i < |sessions| ==>
      sessions[i].Copy() ==
        if r.Handed? && i == r.session
        then TakenForPoW(sessions[i].layout, old(sessions[i].Copy()))
        else old(sessions[i].Copy())
    ensures sessions != [] ==> sessions[0].row.cursors == sessions[0].Copy()
    ensures forall i :: 0 < i < |sessions| ==> sessions[i].row.cursors == old(sessions[i].row.cursors)
  {
    r := NothingToHand;
    for i := 0 to |sessions|
      invariant r.NothingToHand?
      invariant forall j :: 0 <= j < |sessions| ==> sessions[j].Copy() == old(sessions[j].Copy())
      invariant forall j :: 0 <= j < |sessions| ==> sessions[j].row.cursors == old(sessions[j].row.cursors)
      invariant forall j :: 0 <= j < i ==> !CanTakeForPoW(sessions[j].layout, old(sessions[j].Copy()))
    {
      var s := sessions[i];
      if s.layout.sessionType.Alpha? {
        if s.nextIdxToAttach != s.layout.numChunks - 1 {
          r := Handed(i, SingleChunk(s.db, s.db.stores, InProgress, s.nextIdxToAttach));
          s.nextIdxToAttach := s.nextIdxToAttach + 1;
          break;
        }
      } else {
        if s.nextIdxToAttach != 0 {
          r := Handed(i, SingleChunk(s.db, s.db.stores, InProgress, s.nextIdxToAttach));
          s.nextIdxToAttach := s.nextIdxToAttach - 1;
          break;
        }
      }
    }
    if sessions == [] { return PoWPanic; }
    sessions[0].Save();
  }
}
