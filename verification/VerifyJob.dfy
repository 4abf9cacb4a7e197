/** The job that checks a session whose chunks were all handed out: reads the pending ones and compares them. */
module VerifyJob {
  import opened Core
  import opened SessionCursors
  import opened BadgerKeys
  import opened ChunkStores
  import opened ChunkDatabase
  import opened HashChain
  import opened UploadSessions
  import opened TangleCheck
  import opened TreasureMerge
  import opened OrderedReads
  import opened AttachJob
  import Trytes

  function InTreasures(l: Layout): ChunkData -> bool {
    (c: ChunkData) => c.idx in l.treasures
  }

  function NotInTreasures(l: Layout): ChunkData -> bool {
    (c: ChunkData) => c.idx !in l.treasures
  }

  /** A comparison's lists, with treasure chunks told apart. */
  datatype Checked = Checked(
    treasures: seq<ChunkData>, noMatch: seq<ChunkData>, notAttached: seq<ChunkData>, matching: seq<ChunkData>,
    anyMatch: bool)

  function CheckedChunks(l: Layout, f: Filtered): Checked {
    Checked(Filter(f.mismatches, InTreasures(l)) + Filter(f.matches, InTreasures(l)),
            Filter(f.mismatches, NotInTreasures(l)),
            f.notAttached,
            Filter(f.matches, NotInTreasures(l)),
            f.matches != [])
  }

  /** The chunks that pull the cursors back. */
  function Bad(k: Checked): seq<ChunkData> {
    k.noMatch + k.notAttached
  }

  /** What CheckChunks does to the cursors. */
  function CheckedCursors(l: Layout, c: Cursors, k: Checked, filled: set<int>): Cursors {
    var d := Downgraded(l, Downgraded(l, c, IdxsOf(k.noMatch)), IdxsOf(k.notAttached));
    if k.anyMatch then VerifyAdvanced(l, d, IdxsOf(Inserted(l.sessionType, k.matching, k.treasures)), filled) else d
  }

  /** What one page does: the treasures seen are moved, the cursors fall back to bad chunks, then verify advances. */
  ghost predicate PageEffect(l: Layout, db: ChunkDb, k: Checked, before: Snapshot, after: Snapshot) {
    && Moves(db, before.stores, after.stores, k.treasures)
    && after.copy == CheckedCursors(l, before.copy, k, FilledTreasures(l, after.stores, db.genesisHash))
    && after.row == if Bad(k) != [] || k.anyMatch then after.copy else before.row
  }

  method CheckChunks(unverified: seq<ChunkData>, session: UploadSession, answer: TangleAnswer)
      returns (ghost k: Checked)
    requires StillStored(session.db, unverified)
    modifies session, session.row, session.db
    ensures k == CheckedChunks(session.layout, Compared(unverified, answer))
    ensures AllCheckedRight(session.layout, unverified, answer, k)
    ensures PageEffect(session.layout, session.db, k, old(session.Now()), session.Now())
    ensures !session.db.mayFail ==> forall c :: c in k.treasures && c.hash != "" ==> c.idx in session.Filled()
  {
    var l := session.layout;
    var f, failed := VerifyChunksMatchRecord(unverified, answer);
    k := CheckedChunks(l, f);
    AllCheckedMeans(l, unverified, answer);
    var treasures, noMatch, matching := SplitTreasures(l, f);
    NothingMoves(session.db, session.db.stores);
    if |treasures| > 0 {
      forall c | c in treasures ensures c in unverified { TreasureIsChunk(l, unverified, answer, c); }
      MoveTreasures(session.db, treasures);
    }
    session.DownGradeIndexesOnUnattachedChunks(noMatch);
    session.DownGradeIndexesOnUnattachedChunks(f.notAttached);
    if |f.matches| > 0 {
      var chunks := InsertTreasureChunks(l.sessionType, matching, treasures);
      session.UpdateIndexWithVerifiedChunks(chunks);
    }
    ghost var s := old(session.db.stores);
    forall c | c in k.treasures && c.hash != "" && !session.db.mayFail ensures c.idx in session.Filled() {
      TreasureIsChunk(l, unverified, answer, c);
      MovedAreFilled(l, session.db, s, session.db.stores, k.treasures, c);
    }
  }

  method SplitTreasures(l: Layout, f: Filtered)
      returns (treasures: seq<ChunkData>, noMatch: seq<ChunkData>, matching: seq<ChunkData>)
    ensures var k := CheckedChunks(l, f);
            treasures == k.treasures && noMatch == k.noMatch && matching == k.matching
  {
    treasures, noMatch, matching := [], [], [];
    for i := 0 to |f.mismatches|
      invariant treasures == Filter(f.mismatches[..i], InTreasures(l))
      invariant noMatch == Filter(f.mismatches[..i], NotInTreasures(l))
    {
      var c := f.mismatches[i];
      assert f.mismatches[..i + 1][..i] == f.mismatches[..i];
      if c.idx in l.treasures { treasures := treasures + [c]; } else { noMatch := noMatch + [c]; }
    }
    assert f.mismatches[..|f.mismatches|] == f.mismatches;
    for i := 0 to |f.matches|
      invariant treasures == Filter(f.mismatches, InTreasures(l)) + Filter(f.matches[..i], InTreasures(l))
      invariant matching == Filter(f.matches[..i], NotInTreasures(l))
    {
      var c := f.matches[i];
      assert f.matches[..i + 1][..i] == f.matches[..i];
      if c.idx in l.treasures { treasures := treasures + [c]; } else { matching := matching + [c]; }
    }
    assert f.matches[..|f.matches|] == f.matches;
  }

  lemma TreasureIsChunk(l: Layout, chunks: seq<ChunkData>, answer: TangleAnswer, c: ChunkData)
    requires c in CheckedChunks(l, Compared(chunks, answer)).treasures
    ensures c in chunks && c.idx in l.treasures
  {
    var f := Compared(chunks, answer);
    FilterMember(f.mismatches, InTreasures(l), c);
    FilterMember(f.matches, InTreasures(l), c);
    ComparedMembers(chunks, answer, c);
  }

  // ---- What a check means ----

  /** In which lists a chunk of the page is, told by the answer of the tangle alone. */
  ghost predicate CheckedRight(l: Layout, page: seq<ChunkData>, answer: TangleAnswer, k: Checked, c: ChunkData) {
    var proper := c in page && Trytes.IsTrytes(c.address);
    && (c in k.matching <==> proper && c.idx !in l.treasures && Heard(answer, c))
    && (c in k.noMatch <==> proper && c.idx !in l.treasures && Seen(answer, c) && !Heard(answer, c))
    && (c in k.treasures <==> proper && c.idx in l.treasures && Seen(answer, c))
    && (proper ==> (c in k.notAttached <==> answer.Found? && !Seen(answer, c)))
    && (k.anyMatch <==> exists d :: d in page && Trytes.IsTrytes(d.address) && Heard(answer, d))
  }

  ghost predicate AllCheckedRight(l: Layout, page: seq<ChunkData>, answer: TangleAnswer, k: Checked) {
    forall c :: CheckedRight(l, page, answer, k, c)
  }

  lemma AllCheckedMeans(l: Layout, page: seq<ChunkData>, answer: TangleAnswer)
    ensures AllCheckedRight(l, page, answer, CheckedChunks(l, Compared(page, answer)))
  {
    forall c { CheckedMeans(l, page, answer, c); }
  }

  lemma CheckedMeans(l: Layout, page: seq<ChunkData>, answer: TangleAnswer, c: ChunkData)
    ensures CheckedRight(l, page, answer, CheckedChunks(l, Compared(page, answer)), c)
  {
    var f := Compared(page, answer);
    ComparedMeans(page, answer, c);
    HeardIsOnTangle(answer, c);
    FilterMember(f.mismatches, InTreasures(l), c);
    FilterMember(f.mismatches, NotInTreasures(l), c);
    FilterMember(f.matches, InTreasures(l), c);
    FilterMember(f.matches, NotInTreasures(l), c);
    AnyMatchMeans(page, answer);
  }

  lemma AnyMatchMeans(page: seq<ChunkData>, answer: TangleAnswer)
    ensures Compared(page, answer).matches != [] <==>
              exists d :: d in page && Trytes.IsTrytes(d.address) && Heard(answer, d)
  {
    var matches := Compared(page, answer).matches;
    forall d ensures d in matches <==> d in page && Trytes.IsTrytes(d.address) && Heard(answer, d) {
      ComparedMeans(page, answer, d);
    }
    if matches != [] { assert matches[0] in matches; }
  }

  /** The tangle does not have what it should have: nothing is at the address, or not the message of a data chunk. */
  ghost predicate Wrong(l: Layout, answer: TangleAnswer, c: ChunkData) {
    answer.Found? && (!Seen(answer, c) || (c.idx !in l.treasures && !Heard(answer, c)))
  }

  /** Exactly these chunks of a page pull the cursors back; in particular those no transaction carries. */
  lemma WrongIsBad(l: Layout, page: seq<ChunkData>, answer: TangleAnswer, c: ChunkData)
    requires c in page && Trytes.IsTrytes(c.address)
    ensures c in Bad(CheckedChunks(l, Compared(page, answer))) <==> Wrong(l, answer, c)
    ensures answer.Found? && c.idx !in l.treasures && !OnTangle(answer, c) ==> Wrong(l, answer, c)
  {
    CheckedMeans(l, page, answer, c);
    HeardIsOnTangle(answer, c);
  }

  /** Every chunk of the page was found, data chunks with their message, and some chunk was. */
  ghost predicate AllWell(l: Layout, page: seq<ChunkData>, answer: TangleAnswer) {
    && (exists c :: c in page && Heard(answer, c))
    && forall c :: c in page ==> Trytes.IsTrytes(c.address) && Seen(answer, c) && !Wrong(l, answer, c)
  }

  // ---- Which chunks are read ----

  /** The cursors are equal and the next fetch is empty; a failed read counts as empty. */
  predicate NothingLeft(l: Layout, db: ChunkDb, s: Stores, c: Cursors, readFails: bool) {
    var keys := KeysOf(db.genesisHash, IdxRange(c.attach, FetchStop(l, c.attach, 1)));
    c.attach == c.verify && db.ReadOf(s, InProgress, keys, readFails) == []
  }

  function Adjusted(l: Layout, db: ChunkDb, s: Stores, c: Cursors, readFails: bool): Cursors {
    if NothingLeft(l, db, s, c, readFails) then c.(attach := StopIdx(l)) else c
  }

  /** adjustIndexes: with nothing left to attach, attaching is declared finished. */
  method AdjustIndexes(session: UploadSession, readFails: bool)
    modifies session, session.row
    ensures session.Copy() == Adjusted(session.layout, session.db, session.db.stores, old(session.Copy()), readFails)
    ensures session.row.cursors ==
              if NothingLeft(session.layout, session.db, session.db.stores, old(session.Copy()), readFails)
              then session.Copy() else old(session.row.cursors)
  {
    if session.nextIdxToAttach == session.nextIdxToVerify {
      var chunks := session.GetUnassignedChunksBySession(1, readFails);
      if |chunks| == 0 {
        if session.layout.sessionType.Alpha? {
          session.nextIdxToAttach := session.layout.numChunks;
        } else {
          session.nextIdxToAttach := -1;
        }
        session.Save();
      }
    }
  }

  /** No chunk of the next fetch can be read: the read fails, or none of them is whole in progress. */
  ghost predicate NothingToFetch(l: Layout, db: ChunkDb, s: Stores, attach: int, readFails: bool) {
    readFails || forall i :: InFetchRange(l, attach, 1, i) ==> !s.Holds(InProgress, GetBadgerKey(db.genesisHash, i))
  }

  /** Exactly when attaching is declared finished, told by the stores. */
  lemma AdjustedIff(l: Layout, db: ChunkDb, s: Stores, c: Cursors, readFails: bool)
    ensures Adjusted(l, db, s, c, readFails) ==
              if c.attach == c.verify && NothingToFetch(l, db, s, c.attach, readFails)
              then Cursors(StopIdx(l), c.verify) else c
  {
    var range := IdxRange(c.attach, FetchStop(l, c.attach, 1));
    var keys := KeysOf(db.genesisHash, range);
    forall k | 0 <= k < |keys| ensures keys[k] != "" { KeyRoundTrip(db.genesisHash, range[k]); }
    db.ChunksInLength(s, InProgress, keys);
    forall i | InFetchRange(l, c.attach, 1, i) ensures GetBadgerKey(db.genesisHash, i) in keys {
      FetchedIdxs(l, c.attach, 1, i);
      var k :| 0 <= k < |range| && range[k] == i;
      assert keys[k] == GetBadgerKey(db.genesisHash, i);
    }
    if !readFails && NothingToFetch(l, db, s, c.attach, readFails) {
      forall k | 0 <= k < |keys| ensures !s.Holds(InProgress, keys[k]) { FetchedIdxs(l, c.attach, 1, range[k]); }
      NothingHeld(db, s, keys);
    }
  }

  lemma {:induction false} NothingHeld(db: ChunkDb, s: Stores, keys: seq<string>)
    requires forall k :: 0 <= k < |keys| ==> !s.Holds(InProgress, keys[k])
    ensures db.ChunksIn(s, InProgress, keys) == []
  {
    if keys != [] { NothingHeld(db, s, keys[..|keys| - 1]); }
  }

  /** The keys of the chunks between the two cursors, in scan order. */
  function PendingKeys(l: Layout, genesisHash: string, c: Cursors): seq<string> {
    KeysOf(genesisHash, IdxRange(c.verify, c.attach - Step(l.sessionType)))
  }

  /** The pending keys are exactly those between the cursors, and each comes once. */
  lemma PendingExactly(l: Layout, genesisHash: string, c: Cursors, i: int)
    requires ValidCursors(l, c) && c.attach != c.verify
    ensures GetBadgerKey(genesisHash, i) in PendingKeys(l, genesisHash, c)
            <==> Rank(l, c.verify) <= Rank(l, i) < Rank(l, c.attach)
    ensures |PendingKeys(l, genesisHash, c)| == Rank(l, c.attach) - Rank(l, c.verify)
  {
    var range := IdxRange(c.verify, c.attach - Step(l.sessionType));
    var keys := PendingKeys(l, genesisHash, c);
    if Rank(l, c.verify) <= Rank(l, i) < Rank(l, c.attach) {
      var k := Rank(l, i) - Rank(l, c.verify);
      assert range[k] == i && keys[k] == GetBadgerKey(genesisHash, i);
    } else if GetBadgerKey(genesisHash, i) in keys {
      var k :| 0 <= k < |keys| && keys[k] == GetBadgerKey(genesisHash, i);
      KeyInjective(genesisHash, range[k], i);
    }
  }

  function PendingIdxs(l: Layout, c: Cursors): seq<int> {
    IdxRange(c.verify, c.attach - Step(l.sessionType))
  }

  lemma PendingConsecutive(l: Layout, c: Cursors)
    requires ValidCursors(l, c) && c.attach != c.verify
    ensures Consecutive(l.sessionType, c.verify, PendingIdxs(l, c))
    ensures |PendingIdxs(l, c)| == Rank(l, c.attach) - Rank(l, c.verify)
  {
  }

  /** One page of a read; either store may fail to answer. */
  method ReadPage(session: UploadSession, ghost idxs: seq<int>, keys: seq<string>, faults: bool)
      returns (chunks: seq<ChunkData>)
    requires Agree(session.db.stores) && keys == KeysOf(session.db.genesisHash, idxs)
    ensures !faults ==> chunks == session.db.ViewedChunks(session.db.stores, keys)
    ensures PickedFrom(session.db, session.db.stores, idxs, chunks)
  {
    var inFails: bool, doneFails: bool := *, *;
    inFails, doneFails := inFails && faults, doneFails && faults;
    forall key | key in keys ensures session.db.Canonical(key) {
      var k :| 0 <= k < |keys| && keys[k] == key;
      KeyRoundTrip(session.db.genesisHash, idxs[k]);
    }
    chunks := session.db.GetMultiChunkDataFromAnyDB(keys, inFails, doneFails);
    OneStorePicks(session.db, session.db.stores, InProgress, idxs);
    OneStorePicks(session.db, session.db.stores, Completed, idxs);
    ViewPicks(session.db, session.db.stores, idxs);
    NothingPicked(session.db, session.db.stores, idxs);
  }

  method GetChunksToVerify(session: UploadSession, faults: bool) returns (chunks: seq<ChunkData>)
    requires Agree(session.db.stores) && ValidCursors(session.layout, session.Copy())
    requires session.nextIdxToAttach != session.nextIdxToVerify
    ensures var keys := PendingKeys(session.layout, session.db.genesisHash, session.Copy());
            !faults ==> chunks == session.db.ViewedChunks(session.db.stores, keys)
    ensures PickedFrom(session.db, session.db.stores, PendingIdxs(session.layout, session.Copy()), chunks)
  {
    var offset := if session.layout.sessionType.Alpha? then -1 else 1;
    var keys := GenerateBulkKeys(session.db.genesisHash, session.nextIdxToVerify, session.nextIdxToAttach + offset);
    chunks := ReadPages(session, PendingIdxs(session.layout, session.Copy()), keys, faults);
  }

  lemma KeysOfSlice(genesisHash: string, idxs: seq<int>, lo: nat, hi: nat)
    requires lo <= hi <= |idxs|
    ensures KeysOf(genesisHash, idxs)[lo..hi] == KeysOf(genesisHash, idxs[lo..hi])
  {
  }

  method ReadPages(session: UploadSession, ghost idxs: seq<int>, keys: seq<string>, faults: bool)
      returns (chunks: seq<ChunkData>)
    requires Agree(session.db.stores) && keys == KeysOf(session.db.genesisHash, idxs)
    ensures !faults ==> chunks == session.db.ViewedChunks(session.db.stores, keys)
    ensures PickedFrom(session.db, session.db.stores, idxs, chunks)
  {
    var db := session.db;
    chunks := [];
    var i := 0;
    assert idxs[..0] == [] && keys[..0] == [];
    while i < |keys|
      invariant ReadSoFar(db, db.stores, idxs, keys, Clip(i, |keys|), faults, chunks)
    {
      var end := i + MAX_ADDRESSES;
      if end > |keys| { end := |keys|; }
      KeysOfSlice(db.genesisHash, idxs, i, end);
      var page := ReadPage(session, idxs[i..end], keys[i..end], faults);
      ReadNext(db, db.stores, idxs, keys, i, end, faults, chunks, page);
      chunks := chunks + page;
      i := i + MAX_ADDRESSES;
    }
    assert Clip(i, |keys|) == |keys| && keys[..|keys|] == keys && idxs[..|keys|] == idxs;
  }

  /** After `n` keys: everything a reader is entitled to, or a part of it when reads may fail. */
  ghost predicate ReadSoFar(db: ChunkDb, s: Stores, idxs: seq<int>, keys: seq<string>, n: nat, faults: bool,
          chunks: seq<ChunkData>)
    requires n <= |keys| == |idxs|
  {
    && (!faults ==> chunks == db.ViewedChunks(s, keys[..n]))
    && PickedFrom(db, s, idxs[..n], chunks)
  }

  lemma ReadNext(db: ChunkDb, s: Stores, idxs: seq<int>, keys: seq<string>, i: nat, end: nat, faults: bool,
                 chunks: seq<ChunkData>, page: seq<ChunkData>)
    requires i <= end <= |keys| == |idxs| && ReadSoFar(db, s, idxs, keys, i, faults, chunks)
    requires !faults ==> page == db.ViewedChunks(s, keys[i..end])
    requires PickedFrom(db, s, idxs[i..end], page)
    ensures ReadSoFar(db, s, idxs, keys, end, faults, chunks + page)
  {
    assert keys[..end] == keys[..i] + keys[i..end] && idxs[..end] == idxs[..i] + idxs[i..end];
    ViewedJoin(db, s, keys[..i], keys[i..end]);
    PickedJoin(db, s, idxs[..i], idxs[i..end], chunks, page);
  }

  // ---- One pass ----

  /** The comparison could judge every chunk, and none pulls the cursors back. */
  ghost predicate Fine(l: Layout, page: seq<ChunkData>, answer: TangleAnswer) {
    var k := CheckedChunks(l, Compared(page, answer));
    Unjudged(page, answer) == [] && Bad(k) == [] && k.anyMatch
  }

  lemma FineChunk(l: Layout, page: seq<ChunkData>, answer: TangleAnswer, c: ChunkData)
    requires Fine(l, page, answer) && c in page
    ensures Trytes.IsTrytes(c.address) && Seen(answer, c) && !Wrong(l, answer, c)
  {
    var k := CheckedChunks(l, Compared(page, answer));
    CheckedMeans(l, page, answer, c);
    UnjudgedIff(page, answer);
    ComparedMeans(page, answer, c);
    assert forall d :: d in k.notAttached ==> d in Bad(k);
    if Trytes.IsTrytes(c.address) { WrongIsBad(l, page, answer, c); }
  }

  lemma WellIsFine(l: Layout, page: seq<ChunkData>, answer: TangleAnswer)
    requires AllWell(l, page, answer)
    ensures Fine(l, page, answer)
  {
    var k := CheckedChunks(l, Compared(page, answer));
    AnyMatchMeans(page, answer);
    AnyAddressableIff(page);
    UnjudgedIff(page, answer);
    forall c ensures c !in Bad(k) {
      if c in page { WrongIsBad(l, page, answer, c); }
      CheckedFrom(l, page, answer, c);
    }
    NoneBad(Bad(k));
    HeardNeedsPages(page, answer);
  }

  lemma NoneBad(bad: seq<ChunkData>)
    ensures (forall c :: c !in bad) ==> bad == []
  {
    if bad != [] { assert bad[0] in bad; }
  }

  lemma HeardNeedsPages(page: seq<ChunkData>, answer: TangleAnswer)
    requires exists c :: c in page && Heard(answer, c)
    ensures answer.Found? && answer.pages != []
  {
    var c :| c in page && Heard(answer, c);
    assert LastPageWith([], c.address) == [];
  }

  /** Exactly which pages are fine, told by the answer of the tangle alone. */
  lemma FineIff(l: Layout, page: seq<ChunkData>, answer: TangleAnswer)
    ensures Fine(l, page, answer) <==> AllWell(l, page, answer)
  {
    if AllWell(l, page, answer) { WellIsFine(l, page, answer); }
    if Fine(l, page, answer) {
      AnyMatchMeans(page, answer);
      forall c | c in page ensures Trytes.IsTrytes(c.address) && Seen(answer, c) && !Wrong(l, answer, c) {
        FineChunk(l, page, answer, c);
      }
    }
  }

  /** A page on which only treasures are on the tangle, all with other messages, leaves the cursors alone. */
  lemma TreasuresAloneStall(l: Layout, c: Cursors, f: Filtered, filled: set<int>)
    requires f.matches == [] && f.notAttached == [] && forall d :: d in f.mismatches ==> d.idx in l.treasures
    ensures CheckedCursors(l, c, CheckedChunks(l, f), filled) == c
  {
    FilterNone(f.mismatches, NotInTreasures(l));
  }

  /** When nothing is bad, the chunks given to the verify advance are the page again. */
  lemma GoodListsComeBack(l: Layout, f: Filtered, page: seq<ChunkData>)
    requires InScanOrder(l.sessionType, page) && Bad(CheckedChunks(l, f)) == []
    requires multiset(f.matches) + multiset(f.mismatches) == multiset(page)
    ensures var k := CheckedChunks(l, f);
            multiset(Inserted(l.sessionType, k.matching, k.treasures)) == multiset(page)
  {
    var k := CheckedChunks(l, f);
    var t, u := Filter(f.mismatches, InTreasures(l)), Filter(f.matches, InTreasures(l));
    assert k.noMatch == [] by { assert |Bad(k)| == |k.noMatch| + |k.notAttached|; }
    FilterTwo(f.mismatches, InTreasures(l), NotInTreasures(l));
    FilterTwo(f.matches, InTreasures(l), NotInTreasures(l));
    assert multiset(k.matching + (t + u)) == multiset(k.matching) + (multiset(t) + multiset(u));
    OrderedDistinct(l.sessionType, page);
    SubDistinct(k.matching + k.treasures, page);
    InsertedIsPermutation(l.sessionType, k.matching, k.treasures);
  }

  lemma FinePageComesBack(l: Layout, page: seq<ChunkData>, answer: TangleAnswer)
    requires Fine(l, page, answer) && InScanOrder(l.sessionType, page)
    ensures var k := CheckedChunks(l, Compared(page, answer));
            multiset(Inserted(l.sessionType, k.matching, k.treasures)) == multiset(page)
  {
    var f := Compared(page, answer);
    ComparedWithUnjudged(page, answer);
    assert |Bad(CheckedChunks(l, f))| >= |f.notAttached|;
    GoodListsComeBack(l, f, page);
  }

  /** Without bad chunks the cursors are not pulled back. */
  lemma NothingBadCursors(l: Layout, c: Cursors, k: Checked, filled: set<int>)
    requires Bad(k) == [] && k.anyMatch
    ensures CheckedCursors(l, c, k, filled)
         == VerifyAdvanced(l, c, IdxsOf(Inserted(l.sessionType, k.matching, k.treasures)), filled)
  {
    assert |Bad(k)| == |k.noMatch| + |k.notAttached|;
  }

  /** A fine page of the chunks right behind the verify cursor moves it by the whole page. */
  lemma FinePageAdvances(l: Layout, c: Cursors, page: seq<ChunkData>, k: Checked, filled: set<int>)
    requires Bad(k) == [] && k.anyMatch && ValidCursors(l, c)
    requires multiset(Inserted(l.sessionType, k.matching, k.treasures)) == multiset(page)
    requires forall j :: 0 <= j < |page| ==> page[j].idx == c.verify + Along(l.sessionType, j)
    requires Rank(l, c.verify) + |page| <= Rank(l, c.attach)
    ensures CheckedCursors(l, c, k, filled) == c.(verify := c.verify + Along(l.sessionType, |page|))
  {
    var chunks := Inserted(l.sessionType, k.matching, k.treasures);
    NothingBadCursors(l, c, k, filled);
    SameIdxs(l.sessionType, c.verify, page, chunks);
    AdvanceOver(l, c, IdxsOf(chunks), filled);
  }

  lemma SameIdxs(t: SessionType, start: int, page: seq<ChunkData>, chunks: seq<ChunkData>)
    requires multiset(chunks) == multiset(page)
    requires forall j :: 0 <= j < |page| ==> page[j].idx == start + Along(t, j)
    ensures |chunks| == |page|
    ensures forall j :: 0 <= j < |page| ==> start + Along(t, j) in IdxsOf(chunks)
  {
    assert |multiset(chunks)| == |chunks| && |multiset(page)| == |page|;
    forall j | 0 <= j < |page| ensures start + Along(t, j) in IdxsOf(chunks) {
      assert page[j] in multiset(page);
      var m :| 0 <= m < |chunks| && chunks[m] == page[j];
      assert IdxsOf(chunks)[m] == page[j].idx;
    }
  }

  lemma AdvanceOver(l: Layout, c: Cursors, idxs: seq<int>, filled: set<int>)
    requires ValidCursors(l, c) && Rank(l, c.verify) + |idxs| <= Rank(l, c.attach)
    requires forall j :: 0 <= j < |idxs| ==> c.verify + Along(l.sessionType, j) in idxs
    ensures VerifyAdvanced(l, c, idxs, filled) == c.(verify := c.verify + Along(l.sessionType, |idxs|))
  {
    ScanFromFull(l.sessionType, c.verify, |idxs|, ToSet(idxs) + filled);
  }

  /** What a page does to the cursors in any case: in order, never forward for attach, and not past a bad chunk. */
  lemma CheckedStaysBehind(l: Layout, c: Cursors, k: Checked, filled: set<int>)
    requires ValidCursors(l, c) && Inside(l, filled)
    requires AllInRange(l, IdxsOf(k.noMatch)) && AllInRange(l, IdxsOf(k.notAttached))
    requires AllInRange(l, IdxsOf(Inserted(l.sessionType, k.matching, k.treasures)))
    ensures var d := CheckedCursors(l, c, k, filled);
            ValidCursors(l, d) && Rank(l, d.attach) <= Rank(l, c.attach)
            && forall b :: b in Bad(k) ==> Rank(l, d.attach) <= Rank(l, b.idx)
  {
    var d1 := Downgraded(l, c, IdxsOf(k.noMatch));
    var d2 := Downgraded(l, d1, IdxsOf(k.notAttached));
    DowngradeKeepsValid(l, c, IdxsOf(k.noMatch));
    DowngradeKeepsValid(l, d1, IdxsOf(k.notAttached));
    AdvancesKeepValid(l, d2, IdxsOf(Inserted(l.sessionType, k.matching, k.treasures)), filled);
    forall b | b in Bad(k) ensures Rank(l, d2.attach) <= Rank(l, b.idx) {
      if b in k.noMatch {
        var j :| 0 <= j < |k.noMatch| && k.noMatch[j] == b;
        assert IdxsOf(k.noMatch)[j] == b.idx;
      } else {
        var j :| 0 <= j < |k.notAttached| && k.notAttached[j] == b;
        assert IdxsOf(k.notAttached)[j] == b.idx;
      }
    }
  }

  function CheckOf(l: Layout, read: seq<ChunkData>, answers: seq<TangleAnswer>, k: nat): Checked
    requires k < |answers|
  {
    CheckedChunks(l, Compared(PageOf(read, MAX_ADDRESSES, k), answers[k]))
  }

  /** Every chunk the first `n` pages report unattached, or mismatched and not a treasure. */
  function AllBad(l: Layout, read: seq<ChunkData>, answers: seq<TangleAnswer>, n: nat): seq<ChunkData>
    requires n <= |answers|
  {
    if n == 0 then [] else AllBad(l, read, answers, n - 1) + Bad(CheckOf(l, read, answers, n - 1))
  }

  ghost predicate AllFine(l: Layout, read: seq<ChunkData>, answers: seq<TangleAnswer>, n: nat)
    requires n <= |answers|
  {
    forall k :: 0 <= k < n ==> Fine(l, PageOf(read, MAX_ADDRESSES, k), answers[k])
  }

  /** The list is all that was pending at `start`. */
  ghost predicate AllPending(l: Layout, start: Cursors, read: seq<ChunkData>) {
    && |read| == Rank(l, start.attach) - Rank(l, start.verify)
    && forall k :: 0 <= k < |read| ==> read[k].idx == start.verify + Along(l.sessionType, k)
  }

  /** No bad chunk of the first `n` pages has been passed. */
  ghost predicate BehindBad(l: Layout, read: seq<ChunkData>, answers: seq<TangleAnswer>, n: nat, c: Cursors)
    requires n <= |answers|
  {
    forall b :: b in AllBad(l, read, answers, n) ==> Rank(l, c.attach) <= Rank(l, b.idx)
  }

  /** The same, told by the answers of the tangle: no chunk that was found wrong has been passed. */
  ghost predicate BehindWrong(l: Layout, read: seq<ChunkData>, answers: seq<TangleAnswer>, n: nat, c: Cursors)
    requires n <= |answers|
  {
    forall k, d :: 0 <= k < n && d in PageOf(read, MAX_ADDRESSES, k) && Trytes.IsTrytes(d.address)
                   && Wrong(l, answers[k], d) ==>
      Rank(l, c.verify) <= Rank(l, c.attach) <= Rank(l, d.idx)
  }

  ghost predicate AllPagesWell(l: Layout, read: seq<ChunkData>, answers: seq<TangleAnswer>, n: nat)
    requires n <= |answers|
  {
    forall k :: 0 <= k < n ==> AllWell(l, PageOf(read, MAX_ADDRESSES, k), answers[k])
  }

  lemma {:induction false} BadOfPage(l: Layout, read: seq<ChunkData>, answers: seq<TangleAnswer>, n: nat, k: nat,
                                     bad: seq<ChunkData>, d: ChunkData)
    requires k < n <= |answers| && bad == Bad(CheckOf(l, read, answers, k)) && d in bad
    ensures d in AllBad(l, read, answers, n)
  {
    var rest, last := AllBad(l, read, answers, n - 1), Bad(CheckOf(l, read, answers, n - 1));
    if k < n - 1 { BadOfPage(l, read, answers, n - 1, k, bad, d); }
    assert d in rest || d in last;
    assert AllBad(l, read, answers, n) == rest + last;
  }

  lemma BehindBadIsBehindWrong(l: Layout, read: seq<ChunkData>, answers: seq<TangleAnswer>, n: nat, c: Cursors)
    requires n <= |answers| && BehindBad(l, read, answers, n, c) && ValidCursors(l, c)
    ensures BehindWrong(l, read, answers, n, c)
  {
    forall k, d | 0 <= k < n && d in PageOf(read, MAX_ADDRESSES, k) && Trytes.IsTrytes(d.address)
                  && Wrong(l, answers[k], d)
      ensures Rank(l, c.verify) <= Rank(l, c.attach) <= Rank(l, d.idx)
    {
      WrongIsBad(l, PageOf(read, MAX_ADDRESSES, k), answers[k], d);
      BadOfPage(l, read, answers, n, k, Bad(CheckOf(l, read, answers, k)), d);
    }
  }

  /** If everything was read and is fine so far, the verify cursor has walked over it all. */
  ghost predicate WalkedOver(l: Layout, start: Cursors, read: seq<ChunkData>, answers: seq<TangleAnswer>, n: nat,
          c: Cursors)
    requires n <= |answers|
  {
    AllPending(l, start, read) && AllFine(l, read, answers, n) ==>
      c == start.(verify := start.verify + Along(l.sessionType, Clip(Times(MAX_ADDRESSES, n), |read|)))
  }

  /** What holds of the cursors after the first `n` pages. */
  ghost predicate PassState(l: Layout, start: Cursors, read: seq<ChunkData>, answers: seq<TangleAnswer>, n: nat,
          c: Cursors)
    requires n <= |answers|
  {
    && ValidCursors(l, c)
    && Rank(l, c.attach) <= Rank(l, start.attach)
    && BehindBad(l, read, answers, n, c)
    && WalkedOver(l, start, read, answers, n, c)
  }

  lemma CheckedFrom(l: Layout, page: seq<ChunkData>, answer: TangleAnswer, c: ChunkData)
    ensures var k := CheckedChunks(l, Compared(page, answer));
            c in k.noMatch || c in k.notAttached || c in k.matching || c in k.treasures ==> c in page
  {
    var f := Compared(page, answer);
    var k := CheckedChunks(l, f);
    FilterMember(f.mismatches, NotInTreasures(l), c);
    FilterMember(f.matches, NotInTreasures(l), c);
    if c in k.treasures { TreasureIsChunk(l, page, answer, c); }
    ComparedMembers(page, answer, c);
  }

  lemma CheckedInRange(l: Layout, page: seq<ChunkData>, answer: TangleAnswer)
    requires AllInRange(l, IdxsOf(page))
    ensures var k := CheckedChunks(l, Compared(page, answer));
            && AllInRange(l, IdxsOf(k.noMatch)) && AllInRange(l, IdxsOf(k.notAttached))
            && AllInRange(l, IdxsOf(k.matching)) && AllInRange(l, IdxsOf(k.treasures))
            && AllInRange(l, IdxsOf(Inserted(l.sessionType, k.matching, k.treasures)))
  {
    var k := CheckedChunks(l, Compared(page, answer));
    forall c | c in k.noMatch || c in k.notAttached || c in k.matching || c in k.treasures ensures c in page {
      CheckedFrom(l, page, answer, c);
    }
    var inserted := Inserted(l.sessionType, k.matching, k.treasures);
    forall c | c in inserted ensures c in page { InsertedFrom(l.sessionType, k.matching, k.treasures, c); }
    PartInRange(l, k.noMatch, page);
    PartInRange(l, k.notAttached, page);
    PartInRange(l, k.matching, page);
    PartInRange(l, k.treasures, page);
    PartInRange(l, inserted, page);
  }

  lemma PartInRange(l: Layout, part: seq<ChunkData>, page: seq<ChunkData>)
    requires AllInRange(l, IdxsOf(page)) && forall c :: c in part ==> c in page
    ensures AllInRange(l, IdxsOf(part))
  {
    forall i | i in IdxsOf(part) ensures InRange(l, i) {
      var j :| 0 <= j < |part| && part[j].idx == i;
      assert part[j] in page;
      var m :| 0 <= m < |page| && page[m] == part[j];
      assert IdxsOf(page)[m] == i;
    }
  }

  lemma PassNext(l: Layout, start: Cursors, read: seq<ChunkData>, answers: seq<TangleAnswer>, n: nat, c: Cursors,
          filled: set<int>)
    requires n < |answers| && Inside(l, filled)
    requires InScanOrder(l.sessionType, read) && AllInRange(l, IdxsOf(read))
    requires PassState(l, start, read, answers, n, c)
    ensures PassState(l, start, read, answers, n + 1, CheckedCursors(l, c, CheckOf(l, read, answers, n), filled))
  {
    var page := PageOf(read, MAX_ADDRESSES, n);
    PageOrdered(l, read, n);
    CheckedInRange(l, page, answers[n]);
    CheckedStaysBehind(l, c, CheckOf(l, read, answers, n), filled);
    WalkNext(l, start, read, answers, n, c, filled);
  }

  lemma WalkNext(l: Layout, start: Cursors, read: seq<ChunkData>, answers: seq<TangleAnswer>, n: nat, c: Cursors,
          filled: set<int>)
    requires n < |answers| && ValidCursors(l, c) && WalkedOver(l, start, read, answers, n, c)
    requires InScanOrder(l.sessionType, PageOf(read, MAX_ADDRESSES, n))
    ensures WalkedOver(l, start, read, answers, n + 1, CheckedCursors(l, c, CheckOf(l, read, answers, n), filled))
  {
    if AllPending(l, start, read) && AllFine(l, read, answers, n + 1) {
      assert AllFine(l, read, answers, n);
      var page := PageOf(read, MAX_ADDRESSES, n);
      PendingPage(l, start, read, n);
      FinePageComesBack(l, page, answers[n]);
      FinePageAdvances(l, c, page, CheckOf(l, read, answers, n), filled);
    }
  }

  /** The chunks of a page of all that is pending lie one step apart, behind those of the earlier pages. */
  lemma PendingPage(l: Layout, start: Cursors, read: seq<ChunkData>, n: nat)
    requires AllPending(l, start, read)
    ensures var lo, page := Clip(Times(MAX_ADDRESSES, n), |read|), PageOf(read, MAX_ADDRESSES, n);
            && lo + |page| == Clip(Times(MAX_ADDRESSES, n + 1), |read|)
            && forall j :: 0 <= j < |page| ==>
                 page[j].idx == start.verify + Along(l.sessionType, lo) + Along(l.sessionType, j)
  {
    var lo, page := Clip(Times(MAX_ADDRESSES, n), |read|), PageOf(read, MAX_ADDRESSES, n);
    forall j | 0 <= j < |page|
      ensures page[j].idx == start.verify + Along(l.sessionType, lo) + Along(l.sessionType, j)
    {
      assert page[j] == read[lo + j];
    }
  }

  ghost predicate PageStep(l: Layout, db: ChunkDb, read: seq<ChunkData>, answers: seq<TangleAnswer>,
                           trail: seq<Snapshot>, k: nat)
    requires k + 1 < |trail| <= |answers| + 1
  {
    PageEffect(l, db, CheckOf(l, read, answers, k), trail[k], trail[k + 1])
  }

  /** The states between the pages of a pass; each page leads from one to the next. */
  ghost predicate PageTrail(l: Layout, db: ChunkDb, read: seq<ChunkData>, answers: seq<TangleAnswer>,
                            trail: seq<Snapshot>)
  {
    0 < |trail| <= |answers| + 1 && forall k :: 0 <= k < |trail| - 1 ==> PageStep(l, db, read, answers, trail, k)
  }

  lemma PageTrailNext(l: Layout, db: ChunkDb, read: seq<ChunkData>, answers: seq<TangleAnswer>,
                      trail: seq<Snapshot>, next: Snapshot)
    requires PageTrail(l, db, read, answers, trail) && |trail| <= |answers|
    requires PageEffect(l, db, CheckOf(l, read, answers, |trail| - 1), trail[|trail| - 1], next)
    ensures PageTrail(l, db, read, answers, trail + [next])
  {
    forall k | 0 <= k < |trail| ensures PageStep(l, db, read, answers, trail + [next], k) {
      if k < |trail| - 1 { assert PageStep(l, db, read, answers, trail, k); }
    }
  }

  /** One page of the pass. */
  method CheckPage(read: seq<ChunkData>, k: nat, session: UploadSession, answers: seq<TangleAnswer>,
                   ghost start: Cursors, ghost s: Stores)
    requires k < |answers| && InPass(session, s, read)
    requires InScanOrder(session.layout.sessionType, read) && AllInRange(session.layout, IdxsOf(read))
    requires PassState(session.layout, start, read, answers, k, session.Copy())
    modifies session, session.row, session.db
    ensures PassState(session.layout, start, read, answers, k + 1, session.Copy())
    ensures PageEffect(session.layout, session.db, CheckOf(session.layout, read, answers, k),
                       old(session.Now()), session.Now())
    ensures InPass(session, s, read)
  {
    ghost var c, t := session.Copy(), session.db.stores;
    var page := PageOf(read, MAX_ADDRESSES, k);
    var check := CheckChunks(page, session, answers[k]);
    PageOrdered(session.layout, read, k);
    CheckedInRange(session.layout, page, answers[k]);
    InPassLater(session, s, t, read, check.treasures);
    PassNext(session.layout, start, read, answers, k, c, session.Filled());
  }

  /** What the read of the pending chunks gives, as the pass needs it. */
  lemma ReadIsOrdered(l: Layout, c: Cursors, db: ChunkDb, read: seq<ChunkData>)
    requires ValidCursors(l, c) && c.attach != c.verify && Agree(db.stores)
    requires PickedFrom(db, db.stores, PendingIdxs(l, c), read)
    ensures GoodRead(l, db, db.stores, read) && StillStored(db, read)
    ensures |read| <= Rank(l, c.attach) - Rank(l, c.verify)
    ensures |read| == Rank(l, c.attach) - Rank(l, c.verify) ==> AllPending(l, c, read)
  {
    PendingConsecutive(l, c);
    PickedIsGood(l, db, db.stores, c.verify, PendingIdxs(l, c), read);
    PickedAll(db, db.stores, PendingIdxs(l, c), read);
    StoredChunks(db, read);
  }

  /** What the state after all pages means for the row. */
  lemma PassResult(l: Layout, start: Cursors, read: seq<ChunkData>, answers: seq<TangleAnswer>, n: nat, c: Cursors)
    requires n <= |answers| && |read| <= Times(MAX_ADDRESSES, n) && PassState(l, start, read, answers, n, c)
    requires |read| == Rank(l, start.attach) - Rank(l, start.verify) ==> AllPending(l, start, read)
    ensures BehindWrong(l, read, answers, n, c)
    ensures |read| == Rank(l, start.attach) - Rank(l, start.verify) && AllPagesWell(l, read, answers, n) ==>
              c == Cursors(start.attach, start.attach)
  {
    BehindBadIsBehindWrong(l, read, answers, n, c);
    if AllPagesWell(l, read, answers, n) {
      forall k | 0 <= k < n ensures Fine(l, PageOf(read, MAX_ADDRESSES, k), answers[k]) {
        FineIff(l, PageOf(read, MAX_ADDRESSES, k), answers[k]);
      }
    }
  }

  /** The read of a pass, with what the pass needs to know of it. */
  method ReadPending(session: UploadSession, faults: bool) returns (read: seq<ChunkData>)
    requires ValidCursors(session.layout, session.Copy()) && Agree(session.db.stores)
    requires session.nextIdxToAttach != session.nextIdxToVerify
    ensures var keys := PendingKeys(session.layout, session.db.genesisHash, session.Copy());
            !faults ==> read == session.db.ViewedChunks(session.db.stores, keys)
    ensures GoodRead(session.layout, session.db, session.db.stores, read) && StillStored(session.db, read)
    ensures var pending := Rank(session.layout, session.Copy().attach) - Rank(session.layout, session.Copy().verify);
            |read| <= pending && (|read| == pending ==> AllPending(session.layout, session.Copy(), read))
  {
    read := GetChunksToVerify(session, faults);
    ReadIsOrdered(session.layout, session.Copy(), session.db, read);
  }

  /**
   * checkSessionChunks: one pass over a session, with one answer of the tangle for every page. It reads
   * the pending interval, never ends past a chunk the tangle does not have as it should, and ends with nothing
   * pending when every pending chunk was read and is on the tangle. `trail` has the state before each page
   * and at the end.
   */
  method CheckSessionChunks(l: Layout, row: SessionRow, db: ChunkDb, adjustFails: bool, faults: bool,
          answers: seq<TangleAnswer>)
      returns (ghost start: Cursors, ghost read: seq<ChunkData>, ghost pages: nat, ghost trail: seq<Snapshot>)
    requires ValidCursors(l, row.cursors) && Agree(db.stores) && HashedInside(db.stores, db.genesisHash, l.numChunks)
    requires l.numChunks <= Times(MAX_ADDRESSES, |answers|)
    modifies row, db
    ensures start == Adjusted(l, db, old(db.stores), old(row.cursors), adjustFails)
    ensures !faults && start.attach != start.verify ==>
              read == old(db.ViewedChunks(db.stores, PendingKeys(l, db.genesisHash, start)))
    ensures pages <= |answers| && |read| <= Times(MAX_ADDRESSES, pages)
    ensures ValidCursors(l, row.cursors) && Rank(l, row.cursors.attach) <= Rank(l, start.attach)
    ensures BehindWrong(l, read, answers, pages, row.cursors)
    ensures |read| == Rank(l, start.attach) - Rank(l, start.verify) && AllPagesWell(l, read, answers, pages) ==>
              row.cursors == Cursors(start.attach, start.attach)
    ensures Agree(db.stores) && SameView(old(db.stores), db.stores)
    ensures HashedInside(db.stores, db.genesisHash, l.numChunks)
    ensures GoodRead(l, db, old(db.stores), read)
    ensures |trail| == pages + 1 && PageTrail(l, db, read, answers, trail)
    ensures trail[0] == Snapshot(old(db.stores), start, start)
    ensures trail[pages] == Snapshot(db.stores, row.cursors, row.cursors)
  {
    var session := new UploadSession.Find(l, row, db);
    AdjustIndexes(session, adjustFails);
    start, read, pages, trail := session.Copy(), [], 0, [session.Now()];
    if session.nextIdxToAttach == session.nextIdxToVerify { return; }
    var chunkData := ReadPending(session, faults);
    read := chunkData;
    pages, trail := CheckAll(chunkData, session, answers, start);
    PassResult(l, start, read, answers, pages, row.cursors);
  }

  method CheckAll(read: seq<ChunkData>, session: UploadSession, answers: seq<TangleAnswer>, ghost start: Cursors)
      returns (ghost pages: nat, ghost trail: seq<Snapshot>)
    requires InPass(session, session.db.stores, read)
    requires InScanOrder(session.layout.sessionType, read) && AllInRange(session.layout, IdxsOf(read))
    requires PassState(session.layout, start, read, answers, 0, session.Copy())
    requires |read| <= Times(MAX_ADDRESSES, |answers|)
    modifies session, session.row, session.db
    ensures |read| <= Times(MAX_ADDRESSES, pages) && pages <= |answers|
    ensures PassState(session.layout, start, read, answers, pages, session.Copy())
    ensures InPass(session, old(session.db.stores), read)
    ensures |trail| == pages + 1 && PageTrail(session.layout, session.db, read, answers, trail)
    ensures trail[0] == old(session.Now()) && trail[pages] == session.Now()
  {
    ghost var s := session.db.stores;
    trail := [session.Now()];
    var i, k := 0, 0;
    while i < |read|
      invariant i == Times(MAX_ADDRESSES, k) && k <= |answers| && i <= Times(MAX_ADDRESSES, |answers|)
      invariant PassState(session.layout, start, read, answers, k, session.Copy())
      invariant InPass(session, s, read)
      invariant |trail| == k + 1 && PageTrail(session.layout, session.db, read, answers, trail)
      invariant trail[0] == old(session.Now()) && trail[k] == session.Now()
    {
      ManyAnswers(k, |answers|, |read|);
      CheckPage(read, k, session, answers, start, s);
      PageTrailNext(session.layout, session.db, read, answers, trail, session.Now());
      trail := trail + [session.Now()];
      i, k := i + MAX_ADDRESSES, k + 1;
    }
    pages := k;
  }
}
