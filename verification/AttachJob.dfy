/** The job that takes a session's unassigned chunks, sorts out what is on the tangle and sends the rest. */
module AttachJob {
  import opened Core
  import opened SessionCursors
  import opened BadgerKeys
  import opened ChunkStores
  import opened ChunkDatabase
  import opened HashChain
  import opened UploadSessions
  import opened TangleCheck
  import opened TreasureMerge
  import opened OrderedReads
  import Trytes

  const PERCENT_OF_CHUNKS_TO_SKIP_VERIFICATION: nat := 45
  const BUNDLE_SIZE: nat := 100
  const MAX_CHUNKS_PER_LAMBDA: nat := 300

  // ---- Windows that are not checked against the tangle ----

  function SkipLength(numChunks: nat): nat {
    numChunks * PERCENT_OF_CHUNKS_TO_SKIP_VERIFICATION / 100
  }

  function SkipLow(l: Layout): int {
    if l.sessionType.Alpha? then 0 else l.numChunks - SkipLength(l.numChunks)
  }

  function SkipHigh(l: Layout): int {
    if l.sessionType.Alpha? then SkipLength(l.numChunks) - 1 else l.numChunks - 1
  }

  function CheckLow(l: Layout): int {
    if l.sessionType.Alpha? then SkipLength(l.numChunks) else 0
  }

  function CheckHigh(l: Layout): int {
    if l.sessionType.Alpha? then l.numChunks - 1 else l.numChunks - SkipLength(l.numChunks) - 1
  }

  /** A window of one chunk is not worth the trouble and is checked after all. */
  predicate SkipsIdx(l: Layout, i: int) {
    SkipLow(l) <= i <= SkipHigh(l) && SkipLow(l) != SkipHigh(l)
  }

  function Skips(l: Layout): ChunkData -> bool {
    (c: ChunkData) => SkipsIdx(l, c.idx)
  }

  function Checks(l: Layout): ChunkData -> bool {
    (c: ChunkData) => !SkipsIdx(l, c.idx)
  }

  function FirstIdx(chunks: seq<ChunkData>): int
    requires chunks != []
  {
    Min(chunks[0].idx, chunks[|chunks| - 1].idx)
  }

  function LastIdx(chunks: seq<ChunkData>): int
    requires chunks != []
  {
    Max(chunks[0].idx, chunks[|chunks| - 1].idx)
  }

  /** The two ends of the list bound all of it. */
  ghost predicate EndsBound(chunks: seq<ChunkData>) {
    forall c :: c in chunks ==> chunks != [] && FirstIdx(chunks) <= c.idx <= LastIdx(chunks)
  }

  /** A list in scan order, which is how chunks are read. */
  lemma ScanOrderBound(t: SessionType, chunks: seq<ChunkData>)
    requires InScanOrder(t, chunks)
    ensures EndsBound(chunks)
  {
    forall c | c in chunks ensures FirstIdx(chunks) <= c.idx <= LastIdx(chunks) {
      var k :| 0 <= k < |chunks| && chunks[k] == c;
      if 0 < k { assert Before(t, chunks[0].idx, chunks[k].idx); }
      if k < |chunks| - 1 { assert Before(t, chunks[k].idx, chunks[|chunks| - 1].idx); }
    }
  }

  /** No chunk is skipped when the window is a single chunk, or both ends of the list lie outside it. */
  predicate SkipsNothing(l: Layout, chunks: seq<ChunkData>) {
    || chunks == []
    || SkipLow(l) == SkipHigh(l)
    || (CheckLow(l) <= FirstIdx(chunks) <= CheckHigh(l) && CheckLow(l) <= LastIdx(chunks) <= CheckHigh(l))
  }

  function SkippedOf(l: Layout, chunks: seq<ChunkData>): seq<ChunkData> {
    if SkipsNothing(l, chunks) then [] else Filter(chunks, Skips(l))
  }

  function CheckedOf(l: Layout, chunks: seq<ChunkData>): seq<ChunkData> {
    if SkipsNothing(l, chunks) then chunks else Filter(chunks, Checks(l))
  }

  method SkipVerificationOfFirstChunks(chunks: seq<ChunkData>, l: Layout)
      returns (skip: seq<ChunkData>, rest: seq<ChunkData>)
    ensures skip == SkippedOf(l, chunks) && rest == CheckedOf(l, chunks)
  {
    if |chunks| == 0 { return [], []; }
    var skipMin, skipMax, checkMin, checkMax;
    var toSkip := l.numChunks * PERCENT_OF_CHUNKS_TO_SKIP_VERIFICATION / 100;
    var toVerify := l.numChunks - toSkip;
    if l.sessionType.Alpha? {
      skipMin, skipMax, checkMin, checkMax := 0, toSkip - 1, toSkip, l.numChunks - 1;
    } else {
      skipMin, skipMax, checkMin, checkMax := l.numChunks - toSkip, l.numChunks - 1, 0, toVerify - 1;
    }
    if skipMin == skipMax { return [], chunks; }
    var maxIdx, minIdx := LastIdx(chunks), FirstIdx(chunks);
    if checkMin <= minIdx <= checkMax && checkMin <= maxIdx <= checkMax { return [], chunks; }
    skip, rest := [], [];
    for i := 0 to |chunks|
      invariant skip == Filter(chunks[..i], Skips(l)) && rest == Filter(chunks[..i], Checks(l))
    {
      assert chunks[..i + 1][..i] == chunks[..i];
      if skipMin <= chunks[i].idx <= skipMax {
        skip := skip + [chunks[i]];
      } else {
        rest := rest + [chunks[i]];
      }
    }
    assert chunks[..|chunks|] == chunks;
  }

  /** The shortcut for the ends of the list changes nothing: exactly the window is skipped, in order. */
  lemma {:induction false} SkipsExactlyTheWindow(l: Layout, chunks: seq<ChunkData>)
    requires InScanOrder(l.sessionType, chunks)
    ensures SkippedOf(l, chunks) == Filter(chunks, Skips(l))
    ensures CheckedOf(l, chunks) == Filter(chunks, Checks(l))
    ensures multiset(SkippedOf(l, chunks)) + multiset(CheckedOf(l, chunks)) == multiset(chunks)
  {
    ScanOrderBound(l.sessionType, chunks);
    if SkipsNothing(l, chunks) {
      forall c | c in chunks ensures !SkipsIdx(l, c.idx) {
      }
      FilterNone(chunks, Skips(l));
      FilterAll(chunks, Checks(l));
    } else {
      FilterTwo(chunks, Skips(l), Checks(l));
    }
  }

  /** Whatever the file's size, every index is checked against the tangle by one of the two brokers. */
  lemma SkipWindowsDisjoint(numChunks: nat, alphaTreasures: set<int>, betaTreasures: set<int>, i: int)
    ensures !(SkipsIdx(Layout(Alpha, numChunks, alphaTreasures), i)
              && SkipsIdx(Layout(Beta, numChunks, betaTreasures), i))
    ensures SkipsIdx(Layout(Alpha, numChunks, alphaTreasures), i) <==>
              0 <= i < SkipLength(numChunks) && SkipLength(numChunks) != 1
    ensures SkipsIdx(Layout(Beta, numChunks, betaTreasures), i) <==>
              numChunks - SkipLength(numChunks) <= i < numChunks && SkipLength(numChunks) != 1
    ensures 100 * SkipLength(numChunks) <= 45 * numChunks < 100 * (SkipLength(numChunks) + 1)
  {
    var s := SkipLength(numChunks);
    assert 100 * s <= 45 * numChunks;
  }

  // ---- Treasure chunks ----

  datatype LookupAnswer = LookupFailed | Absent | Present

  /** What the tangle would say to a search for one address: it fails, finds a transaction, or finds none. */
  datatype Lookups = Lookups(failing: set<string>, present: set<string>) {
    function Answer(address: string): LookupAnswer {
      if address in failing then LookupFailed else if address in present then Present else Absent
    }
  }

  /** What FindTransactions says about a chunk's address; an improper address is an error too. */
  function Asked(lookup: Lookups, c: ChunkData): LookupAnswer {
    if Trytes.IsTrytes(c.address) then lookup.Answer(c.address) else LookupFailed
  }

  /** The job only looks for treasures between the two ends of the list. */
  predicate Treasured(l: Layout, chunks: seq<ChunkData>, c: ChunkData) {
    c.idx in l.treasures && chunks != [] && FirstIdx(chunks) <= c.idx <= LastIdx(chunks)
  }

  function Ordinary(l: Layout, chunks: seq<ChunkData>): ChunkData -> bool {
    (c: ChunkData) => !Treasured(l, chunks, c)
  }

  function TreasureThat(l: Layout, chunks: seq<ChunkData>, lookup: Lookups, answer: LookupAnswer)
    : ChunkData -> bool
  {
    (c: ChunkData) => Treasured(l, chunks, c) && Asked(lookup, c) == answer
  }

  /** The position of the first treasure whose lookup fails, or the length of the list. */
  function FirstFailure(chunks: seq<ChunkData>, failing: ChunkData -> bool): (n: nat)
    ensures n <= |chunks|
    ensures forall k :: 0 <= k < n ==> !failing(chunks[k])
    ensures n < |chunks| ==> failing(chunks[n])
  {
    if chunks == [] then 0 else
      var n := FirstFailure(chunks[..|chunks| - 1], failing);
      if n < |chunks| - 1 || failing(chunks[|chunks| - 1]) then n else n + 1
  }

  datatype Handled = Handled(toAttach: seq<ChunkData>, treasures: seq<ChunkData>, moved: seq<ChunkData>)

  /** HandleTreasureChunks. After a failed lookup all chunks are treated alike, but some may have moved. */
  function HandledChunks(l: Layout, chunks: seq<ChunkData>, lookup: Lookups): Handled {
    var n := FirstFailure(chunks, TreasureThat(l, chunks, lookup, LookupFailed));
    var moved := Filter(chunks[..n], TreasureThat(l, chunks, lookup, Present));
    if n < |chunks| then Handled(chunks, [], moved)
    else Handled(Filter(chunks, Ordinary(l, chunks)), Filter(chunks, TreasureThat(l, chunks, lookup, Absent)), moved)
  }

  /** The database still shows what the chunks were read from. */
  ghost predicate StillStored(db: ChunkDb, chunks: seq<ChunkData>)
    reads db
  {
    Agree(db.stores) && forall c :: c in chunks ==> View(db.stores, db.KeyOf(c)) == Some((c.hash, c.rawMessage))
  }

  lemma StoredChunks(db: ChunkDb, chunks: seq<ChunkData>)
    requires Agree(db.stores) && forall c :: c in chunks ==> StoredAs(db, db.stores, c)
    ensures StillStored(db, chunks)
  {
    forall c | c in chunks ensures View(db.stores, db.KeyOf(c)) == Some((c.hash, c.rawMessage)) {
      assert StoredAs(db, db.stores, c);
    }
  }

  lemma StillStoredLater(db: ChunkDb, chunks: seq<ChunkData>, s: Stores)
    requires Agree(db.stores) && SameView(s, db.stores)
    requires forall c :: c in chunks ==> View(s, db.KeyOf(c)) == Some((c.hash, c.rawMessage))
    ensures StillStored(db, chunks)
  {
    forall c | c in chunks ensures View(db.stores, db.KeyOf(c)) == Some((c.hash, c.rawMessage)) {
      assert View(s, db.KeyOf(c)) == View(db.stores, db.KeyOf(c));
    }
  }

  /**
   * From `s` to `t` some of these chunks were moved, and nothing else was touched. No reader of both
   * stores can tell; and when no write failed, all of them left the in-progress for the completed stores.
   */
  ghost predicate Moves(db: ChunkDb, s: Stores, t: Stores, moved: seq<ChunkData>) {
    && Agree(t) && SameView(s, t) && Forward(s, t) && MovesOnly(s, t, db.KeysOfChunks(moved))
    && (!db.mayFail ==> forall c :: c in moved ==> db.Arrived(t, c) && db.Departed(t, c))
  }

  lemma MovesJoin(db: ChunkDb, s: Stores, t: Stores, u: Stores, a: seq<ChunkData>, b: seq<ChunkData>)
    requires Moves(db, s, t, a) && Moves(db, t, u, b)
    ensures Moves(db, s, u, a + b)
  {
    SameViewTrans(s, t, u);
    ForwardTrans(s, t, u);
    MovesOnlyTrans(s, t, u, db.KeysOfChunks(a), db.KeysOfChunks(b), db.KeysOfChunks(a + b));
    if !db.mayFail {
      forall c | c in a ensures db.Arrived(u, c) && db.Departed(u, c) {
        db.DeliveredStays(t, u, c, Moved);
      }
    }
  }

  lemma NothingMoves(db: ChunkDb, s: Stores)
    requires Agree(s)
    ensures Moves(db, s, s, [])
  {
  }

  /** Moving chunks of the file completes no hash outside it. */
  lemma MovesKeepInside(l: Layout, db: ChunkDb, s: Stores, t: Stores, moved: seq<ChunkData>)
    requires Moves(db, s, t, moved) && AllInRange(l, IdxsOf(moved))
    requires HashedInside(s, db.genesisHash, l.numChunks)
    ensures HashedInside(t, db.genesisHash, l.numChunks)
  {
    forall i | GetBadgerKey(db.genesisHash, i) in db.KeysOfChunks(moved) ensures InRange(l, i) {
      var c :| c in moved && db.KeyOf(c) == GetBadgerKey(db.genesisHash, i);
      KeyInjective(db.genesisHash, c.idx, i);
      var k :| 0 <= k < |moved| && moved[k] == c;
      assert IdxsOf(moved)[k] == i;
    }
    MovingKeepsInside(s, t, db.KeysOfChunks(moved), db.genesisHash, l.numChunks);
  }

  /** Moves chunks that the database still shows. */
  method MoveTreasures(db: ChunkDb, chunks: seq<ChunkData>)
    requires StillStored(db, chunks)
    modifies db
    ensures Moves(db, old(db.stores), db.stores, chunks)
  {
    ghost var outcomes := db.MoveChunksToCompleted(chunks);
    forall c | !db.mayFail && c in chunks ensures db.Arrived(db.stores, c) && db.Departed(db.stores, c) {
      var k :| 0 <= k < |chunks| && chunks[k] == c;
      assert db.Delivered(db.stores, chunks[k], outcomes[k]);
    }
  }

  /** One more chunk of the list is moved. */
  method MoveOne(db: ChunkDb, chunks: seq<ChunkData>, c: ChunkData, ghost s: Stores, ghost moved: seq<ChunkData>)
    requires StillStored(db, chunks) && Moves(db, s, db.stores, moved) && c in chunks
    modifies db
    ensures StillStored(db, chunks) && Moves(db, s, db.stores, moved + [c])
  {
    ghost var t := db.stores;
    MoveTreasures(db, [c]);
    MovesJoin(db, s, t, db.stores, moved, [c]);
    StillStoredLater(db, chunks, t);
  }

  /** Without write failures the cursors can pass every treasure that was moved and has a hash. */
  lemma MovedAreFilled(l: Layout, db: ChunkDb, s: Stores, t: Stores, moved: seq<ChunkData>, c: ChunkData)
    requires Moves(db, s, t, moved) && !db.mayFail && c in moved && c.hash != "" && c.idx in l.treasures
    ensures c.idx in FilledTreasures(l, t, db.genesisHash)
  {
    assert db.Arrived(t, c);
  }

  /** The three lists after the chunks before position `i` have been handled. */
  ghost predicate HandledSoFar(l: Layout, chunks: seq<ChunkData>, lookup: Lookups, i: nat, h: Handled)
    requires i <= |chunks|
  {
    && h.toAttach == Filter(chunks[..i], Ordinary(l, chunks))
    && h.treasures == Filter(chunks[..i], TreasureThat(l, chunks, lookup, Absent))
    && h.moved == Filter(chunks[..i], TreasureThat(l, chunks, lookup, Present))
    && FirstFailure(chunks[..i], TreasureThat(l, chunks, lookup, LookupFailed)) == i
  }

  lemma FilterNext(chunks: seq<ChunkData>, i: nat, keep: ChunkData -> bool)
    requires i < |chunks|
    ensures Filter(chunks[..i + 1], keep) == Filter(chunks[..i], keep) + if keep(chunks[i]) then [chunks[i]] else []
  {
    assert chunks[..i + 1][..i] == chunks[..i];
  }

  lemma FailureFound(chunks: seq<ChunkData>, failing: ChunkData -> bool, i: nat)
    requires i < |chunks| && FirstFailure(chunks[..i], failing) == i && failing(chunks[i])
    ensures FirstFailure(chunks, failing) == i
  {
    var n := FirstFailure(chunks, failing);
    assert forall k :: 0 <= k < i ==> chunks[..i][k] == chunks[k];
  }

  lemma HandledNext(l: Layout, chunks: seq<ChunkData>, lookup: Lookups, i: nat, h: Handled)
    requires i < |chunks| && HandledSoFar(l, chunks, lookup, i, h)
    requires !TreasureThat(l, chunks, lookup, LookupFailed)(chunks[i])
    ensures var c := chunks[i];
            HandledSoFar(l, chunks, lookup, i + 1,
              if !Treasured(l, chunks, c) then h.(toAttach := h.toAttach + [c])
              else if Asked(lookup, c).Absent? then h.(treasures := h.treasures + [c])
              else h.(moved := h.moved + [c]))
  {
    FilterNext(chunks, i, Ordinary(l, chunks));
    FilterNext(chunks, i, TreasureThat(l, chunks, lookup, Absent));
    FilterNext(chunks, i, TreasureThat(l, chunks, lookup, Present));
    assert chunks[..i + 1][..i] == chunks[..i];
  }

  /** The tangle can answer for the chunk's address. */
  predicate Answered(lookup: Lookups, c: ChunkData) {
    Trytes.IsTrytes(c.address) && c.address !in lookup.failing
  }

  /** The lookup of some treasure of the list fails. */
  ghost predicate SearchFails(l: Layout, chunks: seq<ChunkData>, lookup: Lookups) {
    exists k :: 0 <= k < |chunks| && chunks[k].idx in l.treasures && !Answered(lookup, chunks[k])
  }

  /** The chunk is a treasure on the tangle, met before any lookup fails. */
  ghost predicate MetPresent(l: Layout, chunks: seq<ChunkData>, lookup: Lookups, c: ChunkData) {
    exists k :: 0 <= k < |chunks| && chunks[k] == c && c.idx in l.treasures && c.address in lookup.present
                && !SearchFails(l, chunks[..k + 1], lookup)
  }

  /** In which lists a chunk is, told by the lookups alone. */
  ghost predicate HandledRight(l: Layout, chunks: seq<ChunkData>, lookup: Lookups, h: Handled, c: ChunkData) {
    var failed, treasure := SearchFails(l, chunks, lookup), c in chunks && c.idx in l.treasures;
    && (c in h.moved <==> MetPresent(l, chunks, lookup, c))
    && (c in h.treasures <==> !failed && treasure && c.address !in lookup.present)
    && (c in h.toAttach <==> c in chunks && (failed || c.idx !in l.treasures))
  }

  ghost predicate AllHandledRight(l: Layout, chunks: seq<ChunkData>, lookup: Lookups, h: Handled) {
    forall c :: HandledRight(l, chunks, lookup, h, c)
  }

  lemma TreasuredIff(l: Layout, chunks: seq<ChunkData>, c: ChunkData)
    requires InScanOrder(l.sessionType, chunks) && c in chunks
    ensures Treasured(l, chunks, c) <==> c.idx in l.treasures
  {
    ScanOrderBound(l.sessionType, chunks);
  }

  /** A list is handled up to its first failing lookup. */
  lemma FailureMeans(l: Layout, chunks: seq<ChunkData>, lookup: Lookups, k: nat)
    requires InScanOrder(l.sessionType, chunks) && k <= |chunks|
    ensures SearchFails(l, chunks[..k], lookup) <==>
              FirstFailure(chunks, TreasureThat(l, chunks, lookup, LookupFailed)) < k
  {
    var failing := TreasureThat(l, chunks, lookup, LookupFailed);
    var n := FirstFailure(chunks, failing);
    forall j | 0 <= j < |chunks|
      ensures failing(chunks[j]) <==> chunks[j].idx in l.treasures && !Answered(lookup, chunks[j])
    {
      TreasuredIff(l, chunks, chunks[j]);
    }
    if n < k { assert chunks[..k][n] == chunks[n]; }
    if SearchFails(l, chunks[..k], lookup) {
      var j :| 0 <= j < k && chunks[..k][j].idx in l.treasures && !Answered(lookup, chunks[..k][j]);
      assert failing(chunks[j]);
    }
  }

  lemma MovedMeans(l: Layout, chunks: seq<ChunkData>, lookup: Lookups, c: ChunkData)
    requires InScanOrder(l.sessionType, chunks)
    ensures c in HandledChunks(l, chunks, lookup).moved <==> MetPresent(l, chunks, lookup, c)
  {
    var n := FirstFailure(chunks, TreasureThat(l, chunks, lookup, LookupFailed));
    var present := TreasureThat(l, chunks, lookup, Present);
    FilterMember(chunks[..n], present, c);
    forall k | 0 <= k < |chunks|
      ensures SearchFails(l, chunks[..k + 1], lookup) <==> n <= k
      ensures k < n ==>
                (present(chunks[k]) <==> chunks[k].idx in l.treasures && chunks[k].address in lookup.present)
    {
      FailureMeans(l, chunks, lookup, k + 1);
      TreasuredIff(l, chunks, chunks[k]);
    }
    if c in chunks[..n] {
      var k :| 0 <= k < n && chunks[..n][k] == c;
      assert chunks[k] == c;
    }
    if MetPresent(l, chunks, lookup, c) {
      var k :| 0 <= k < |chunks| && chunks[k] == c && c.idx in l.treasures && c.address in lookup.present
               && !SearchFails(l, chunks[..k + 1], lookup);
      assert chunks[..n][k] == c;
    }
  }

  /** Each list holds exactly the chunks it should. */
  lemma HandledMeans(l: Layout, chunks: seq<ChunkData>, lookup: Lookups, c: ChunkData)
    requires InScanOrder(l.sessionType, chunks)
    ensures HandledRight(l, chunks, lookup, HandledChunks(l, chunks, lookup), c)
  {
    MovedMeans(l, chunks, lookup, c);
    FailureMeans(l, chunks, lookup, |chunks|);
    assert chunks[..|chunks|] == chunks;
    FilterMember(chunks, Ordinary(l, chunks), c);
    FilterMember(chunks, TreasureThat(l, chunks, lookup, Absent), c);
    if c in chunks {
      TreasuredIff(l, chunks, c);
      var k :| 0 <= k < |chunks| && chunks[k] == c;
      if !SearchFails(l, chunks, lookup) { assert c.idx in l.treasures ==> Answered(lookup, chunks[k]); }
    }
  }

  lemma AllHandledMeans(l: Layout, chunks: seq<ChunkData>, lookup: Lookups)
    ensures InScanOrder(l.sessionType, chunks) ==>
              AllHandledRight(l, chunks, lookup, HandledChunks(l, chunks, lookup))
  {
    if InScanOrder(l.sessionType, chunks) { forall c { HandledMeans(l, chunks, lookup, c); } }
  }

  /** The loop over the chunks. */
  method SortOutTreasures(chunks: seq<ChunkData>, l: Layout, db: ChunkDb, lookup: Lookups)
      returns (toAttach: seq<ChunkData>, treasures: seq<ChunkData>, ghost moved: seq<ChunkData>)
    requires StillStored(db, chunks)
    modifies db
    ensures Handled(toAttach, treasures, moved) == HandledChunks(l, chunks, lookup)
    ensures StillStored(db, chunks) && Moves(db, old(db.stores), db.stores, moved)
  {
    toAttach, treasures, moved := [], [], [];
    NothingMoves(db, db.stores);
    ghost var s := db.stores;
    for i := 0 to |chunks|
      invariant HandledSoFar(l, chunks, lookup, i, Handled(toAttach, treasures, moved))
      invariant StillStored(db, chunks) && Moves(db, s, db.stores, moved)
    {
      var c := chunks[i];
      if c.idx in l.treasures && FirstIdx(chunks) <= c.idx <= LastIdx(chunks) {
        if !Trytes.IsTrytes(c.address) || lookup.Answer(c.address).LookupFailed? {
          FailureFound(chunks, TreasureThat(l, chunks, lookup, LookupFailed), i);
          return chunks, [], moved;
        }
        HandledNext(l, chunks, lookup, i, Handled(toAttach, treasures, moved));
        if lookup.Answer(c.address).Absent? {
          treasures := treasures + [c];
        } else {
          MoveOne(db, chunks, c, s, moved);
          moved := moved + [c];
        }
      } else {
        HandledNext(l, chunks, lookup, i, Handled(toAttach, treasures, moved));
        toAttach := toAttach + [c];
      }
    }
    assert chunks[..|chunks|] == chunks;
  }

  method HandleTreasureChunks(chunks: seq<ChunkData>, l: Layout, db: ChunkDb, lookup: Lookups)
      returns (toAttach: seq<ChunkData>, treasures: seq<ChunkData>, ghost moved: seq<ChunkData>)
    requires StillStored(db, chunks)
    modifies db
    ensures Handled(toAttach, treasures, moved) == HandledChunks(l, chunks, lookup)
    ensures InScanOrder(l.sessionType, chunks) ==>
              AllHandledRight(l, chunks, lookup, Handled(toAttach, treasures, moved))
    ensures StillStored(db, chunks) && Moves(db, old(db.stores), db.stores, moved)
  {
    AllHandledMeans(l, chunks, lookup);
    toAttach, treasures, moved := [], [], [];
    NothingMoves(db, db.stores);
    if |chunks| == 0 { return; }
    toAttach, treasures, moved := SortOutTreasures(chunks, l, db, lookup);
  }

  // ---- One batch ----

  /** What one batch of chunks turns into. `dropped` chunks get no further attention in this run. */
  datatype Batch = Batch(
    matches: seq<ChunkData>, toSend: seq<ChunkData>, moved: seq<ChunkData>, dropped: seq<ChunkData>)

  /** The chunks a comparison puts in none of its three lists. */
  function Unjudged(chunks: seq<ChunkData>, answer: TangleAnswer): seq<ChunkData> {
    if !AnyAddressable(chunks) || answer.FindFailed? then chunks
    else if answer.pages == [] then []
    else Filter(chunks, Judged(TxMap(answer.pages), Skipped))
  }

  function BatchOf(l: Layout, chunks: seq<ChunkData>, lookup: Lookups, answer: TangleAnswer): Batch {
    var h := HandledChunks(l, chunks, lookup);
    var skip, rest := SkippedOf(l, h.toAttach), CheckedOf(l, h.toAttach);
    var f := Compared(rest, answer);
    Batch(f.matches, Inserted(l.sessionType, skip + f.notAttached + f.mismatches, h.treasures), h.moved,
        Unjudged(rest, answer))
  }

  function MatchedCursors(l: Layout, c: Cursors, matches: seq<ChunkData>, filled: set<int>): Cursors {
    if matches == [] then c
    else VerifyAdvanced(l, AttachAdvanced(l, c, IdxsOf(matches), filled), IdxsOf(matches), filled)
  }

  function SentCursors(l: Layout, c: Cursors, sent: seq<ChunkData>, powEnabled: bool, filled: set<int>): Cursors {
    if powEnabled && sent != [] then AttachAdvanced(l, c, IdxsOf(sent), filled) else c
  }

  lemma {:induction false} FilterOrdered(t: SessionType, chunks: seq<ChunkData>, keep: ChunkData -> bool)
    requires InScanOrder(t, chunks)
    ensures InScanOrder(t, Filter(chunks, keep))
  {
    if chunks != [] {
      var init, last := chunks[..|chunks| - 1], chunks[|chunks| - 1];
      FilterOrdered(t, init, keep);
      var rest := Filter(init, keep);
      forall j | 0 <= j < |rest| ensures Before(t, rest[j].idx, last.idx) {
        FilterMember(init, keep, rest[j]);
        assert rest[j] in rest;
        var k :| 0 <= k < |init| && init[k] == rest[j];
        assert Before(t, chunks[k].idx, chunks[|chunks| - 1].idx);
      }
    }
  }

  /** What one batch does: the treasures found are moved, then the cursors advance over matches and sent chunks. */
  ghost predicate BatchEffect(l: Layout, db: ChunkDb, b: Batch, powEnabled: bool, before: Snapshot, after: Snapshot) {
    var filled := FilledTreasures(l, after.stores, db.genesisHash);
    && Moves(db, before.stores, after.stores, b.moved)
    && after.copy ==
         SentCursors(l, MatchedCursors(l, before.copy, b.matches, filled), b.toSend, powEnabled, filled)
    && after.row == if b.matches != [] || (powEnabled && b.toSend != []) then after.copy else before.row
  }

  /** In which lists a chunk of the batch is, told by what the tangle answers. */
  ghost predicate BatchRight(l: Layout, chunks: seq<ChunkData>, lookup: Lookups, answer: TangleAnswer, b: Batch,
                             c: ChunkData)
  {
    var failed := SearchFails(l, chunks, lookup);
    var ordinary := c in chunks && (failed || c.idx !in l.treasures);
    && (c in b.moved <==> MetPresent(l, chunks, lookup, c))
    && (c in b.matches <==> ordinary && !SkipsIdx(l, c.idx) && Trytes.IsTrytes(c.address) && Heard(answer, c))
    && (Trytes.IsTrytes(c.address) ==>
          (c in b.toSend <==>
            || (ordinary && (SkipsIdx(l, c.idx) || (answer.Found? && !Heard(answer, c))))
            || (c in chunks && !failed && c.idx in l.treasures && c.address !in lookup.present)))
  }

  ghost predicate AllBatchRight(l: Layout, chunks: seq<ChunkData>, lookup: Lookups, answer: TangleAnswer, b: Batch) {
    forall c :: BatchRight(l, chunks, lookup, answer, b, c)
  }

  lemma AllBatchMeans(l: Layout, chunks: seq<ChunkData>, lookup: Lookups, answer: TangleAnswer)
    ensures InScanOrder(l.sessionType, chunks) ==>
              AllBatchRight(l, chunks, lookup, answer, BatchOf(l, chunks, lookup, answer))
  {
    if InScanOrder(l.sessionType, chunks) { forall c { BatchMeans(l, chunks, lookup, answer, c); } }
  }

  /** Each list of a batch holds exactly the chunks it should; for a chunk at an improper address see DroppedIff. */
  lemma BatchMeans(l: Layout, chunks: seq<ChunkData>, lookup: Lookups, answer: TangleAnswer, c: ChunkData)
    requires InScanOrder(l.sessionType, chunks)
    ensures BatchRight(l, chunks, lookup, answer, BatchOf(l, chunks, lookup, answer), c)
  {
    var h := HandledChunks(l, chunks, lookup);
    var skip, rest := SkippedOf(l, h.toAttach), CheckedOf(l, h.toAttach);
    var f := Compared(rest, answer);
    var others := skip + f.notAttached + f.mismatches;
    HandledMeans(l, chunks, lookup, c);
    FilterOrdered(l.sessionType, chunks, Ordinary(l, chunks));
    SkipsExactlyTheWindow(l, h.toAttach);
    FilterMember(h.toAttach, Skips(l), c);
    FilterMember(h.toAttach, Checks(l), c);
    ComparedMeans(rest, answer, c);
    HeardIsOnTangle(answer, c);
    SentMeans(l, chunks, lookup, answer, c);
    assert c in others <==> c in skip || c in f.notAttached || c in f.mismatches;
  }

  /** What is sent is what the treasures were put among. */
  lemma SentMeans(l: Layout, chunks: seq<ChunkData>, lookup: Lookups, answer: TangleAnswer, c: ChunkData)
    requires InScanOrder(l.sessionType, chunks)
    ensures var h := HandledChunks(l, chunks, lookup);
            var skip, f := SkippedOf(l, h.toAttach), Compared(CheckedOf(l, h.toAttach), answer);
            var others := skip + f.notAttached + f.mismatches;
            c in BatchOf(l, chunks, lookup, answer).toSend <==> c in others || c in h.treasures
  {
    var h := HandledChunks(l, chunks, lookup);
    var skip, f := SkippedOf(l, h.toAttach), Compared(CheckedOf(l, h.toAttach), answer);
    var others := skip + f.notAttached + f.mismatches;
    SentDistinct(l, chunks, lookup, answer);
    InsertedIsPermutation(l.sessionType, others, h.treasures);
    var sent, all := Inserted(l.sessionType, others, h.treasures), others + h.treasures;
    assert c in all <==> c in multiset(all);
    assert c in sent <==> c in multiset(sent);
  }

  // ---- In which order chunks are sent ----

  /** Chunks that were not checked go first, then those not attached, then those with another message. */
  ghost function SendClass(l: Layout, answer: TangleAnswer, c: ChunkData): nat {
    if SkipsIdx(l, c.idx) then 0 else if !Seen(answer, c) then 1 else 2
  }

  ghost predicate InSendOrder(l: Layout, answer: TangleAnswer, sent: seq<ChunkData>) {
    forall j, k :: 0 <= j < k < |sent| ==>
      || SendClass(l, answer, sent[j]) < SendClass(l, answer, sent[k])
      || (SendClass(l, answer, sent[j]) == SendClass(l, answer, sent[k])
          && Before(l.sessionType, sent[j].idx, sent[k].idx))
  }

  ghost predicate AllOfClass(l: Layout, answer: TangleAnswer, chunks: seq<ChunkData>, n: nat) {
    forall j :: 0 <= j < |chunks| ==> SendClass(l, answer, chunks[j]) == n
  }

  lemma ThreeInSendOrder(l: Layout, answer: TangleAnswer, a: seq<ChunkData>, b: seq<ChunkData>, c: seq<ChunkData>)
    requires InScanOrder(l.sessionType, a) && InScanOrder(l.sessionType, b) && InScanOrder(l.sessionType, c)
    requires AllOfClass(l, answer, a, 0) && AllOfClass(l, answer, b, 1) && AllOfClass(l, answer, c, 2)
    ensures InSendOrder(l, answer, a + b + c)
  {
    var sent := a + b + c;
    forall j | 0 <= j < |sent|
      ensures sent[j] == if j < |a| then a[j] else if j < |a| + |b| then b[j - |a|] else c[j - |a| - |b|]
    {
    }
  }

  lemma ComparedOrdered(t: SessionType, chunks: seq<ChunkData>, answer: TangleAnswer)
    requires InScanOrder(t, chunks)
    ensures var f := Compared(chunks, answer);
            InScanOrder(t, f.matches) && InScanOrder(t, f.mismatches) && InScanOrder(t, f.notAttached)
  {
    if answer.Found? {
      var m := TxMap(answer.pages);
      FilterOrdered(t, chunks, Judged(m, Matches));
      FilterOrdered(t, chunks, Judged(m, Mismatch));
      FilterOrdered(t, chunks, Judged(m, NotAttached));
    }
  }

  /** The order matters because the channels take only the first chunks. A treasure that is sent sorts the list. */
  lemma SendOrder(l: Layout, chunks: seq<ChunkData>, lookup: Lookups, answer: TangleAnswer)
    requires InScanOrder(l.sessionType, chunks)
    ensures var b := BatchOf(l, chunks, lookup, answer);
            if HandledChunks(l, chunks, lookup).treasures == [] then InSendOrder(l, answer, b.toSend)
            else InScanOrder(l.sessionType, b.toSend)
  {
    var h := HandledChunks(l, chunks, lookup);
    var skip, rest := SkippedOf(l, h.toAttach), CheckedOf(l, h.toAttach);
    var f := Compared(rest, answer);
    var others := skip + f.notAttached + f.mismatches;
    FilterOrdered(l.sessionType, chunks, Ordinary(l, chunks));
    SkipsExactlyTheWindow(l, h.toAttach);
    FilterOrdered(l.sessionType, h.toAttach, Skips(l));
    FilterOrdered(l.sessionType, h.toAttach, Checks(l));
    ComparedOrdered(l.sessionType, rest, answer);
    ClassesOfOthers(l, h.toAttach, answer);
    ThreeInSendOrder(l, answer, skip, f.notAttached, f.mismatches);
    if h.treasures != [] {
      FilterOrdered(l.sessionType, chunks, TreasureThat(l, chunks, lookup, Absent));
      SentDistinct(l, chunks, lookup, answer);
      if others != [] { InsertSortsIffDistinct(l.sessionType, others, h.treasures); }
    }
  }

  lemma ClassesOfOthers(l: Layout, chunks: seq<ChunkData>, answer: TangleAnswer)
    requires InScanOrder(l.sessionType, chunks)
    ensures var skip, f := SkippedOf(l, chunks), Compared(CheckedOf(l, chunks), answer);
            AllOfClass(l, answer, skip, 0) && AllOfClass(l, answer, f.notAttached, 1)
            && AllOfClass(l, answer, f.mismatches, 2)
  {
    var rest := CheckedOf(l, chunks);
    var skip, f := SkippedOf(l, chunks), Compared(rest, answer);
    SkipsExactlyTheWindow(l, chunks);
    forall c
      ensures c in skip ==> SendClass(l, answer, c) == 0
      ensures c in f.notAttached ==> SendClass(l, answer, c) == 1
      ensures c in f.mismatches ==> SendClass(l, answer, c) == 2
    {
      FilterMember(chunks, Skips(l), c);
      FilterMember(chunks, Checks(l), c);
      ComparedMeans(rest, answer, c);
    }
  }

  // ---- The batch as a method ----

  /** One batch of the attach job, after PoW has been enabled or not. */
  method ProcessBatch(chunks: seq<ChunkData>, session: UploadSession, lookup: Lookups,
                      answer: TangleAnswer, powEnabled: bool)
      returns (sent: seq<ChunkData>, ghost b: Batch)
    requires StillStored(session.db, chunks)
    modifies session, session.row, session.db
    ensures b == BatchOf(session.layout, chunks, lookup, answer)
    ensures InScanOrder(session.layout.sessionType, chunks) ==>
              AllBatchRight(session.layout, chunks, lookup, answer, b)
    ensures sent == if powEnabled then b.toSend else []
    ensures BatchEffect(session.layout, session.db, b, powEnabled, old(session.Now()), session.Now())
    ensures !session.db.mayFail ==> forall c :: c in b.moved && c.hash != "" ==> c.idx in session.Filled()
  {
    var l := session.layout;
    b := BatchOf(l, chunks, lookup, answer);
    AllBatchMeans(l, chunks, lookup, answer);
    var toAttach, treasures, moved := HandleTreasureChunks(chunks, l, session.db, lookup);
    var skip, rest := SkipVerificationOfFirstChunks(toAttach, l);
    var f, failed := VerifyChunksMatchRecord(rest, answer);
    if |f.matches| > 0 {
      session.UpdateIndexWithAttachedChunks(f.matches);
      session.UpdateIndexWithVerifiedChunks(f.matches);
    }
    var others := skip + f.notAttached + f.mismatches;
    var all := InsertTreasureChunks(l.sessionType, others, treasures);
    sent := [];
    if powEnabled && |all| > 0 {
      session.UpdateIndexWithAttachedChunks(all);
      sent := all;
    }
    ghost var s := old(session.db.stores);
    forall c | c in b.moved && c.hash != "" && !session.db.mayFail ensures c.idx in session.Filled() {
      MovedIsTreasure(l, chunks, lookup, c);
      MovedAreFilled(l, session.db, s, session.db.stores, b.moved, c);
    }
  }

  lemma MovedIsTreasure(l: Layout, chunks: seq<ChunkData>, lookup: Lookups, c: ChunkData)
    requires c in HandledChunks(l, chunks, lookup).moved
    ensures c in chunks && c.idx in l.treasures
  {
    var n := FirstFailure(chunks, TreasureThat(l, chunks, lookup, LookupFailed));
    FilterMember(chunks[..n], TreasureThat(l, chunks, lookup, Present), c);
  }

  // ---- The whole pass ----

  lemma MovedInRange(l: Layout, chunks: seq<ChunkData>, lookup: Lookups)
    requires AllInRange(l, IdxsOf(chunks))
    ensures AllInRange(l, IdxsOf(HandledChunks(l, chunks, lookup).moved))
  {
    var moved := HandledChunks(l, chunks, lookup).moved;
    forall i | i in IdxsOf(moved) ensures InRange(l, i) {
      var k :| 0 <= k < |moved| && moved[k].idx == i;
      MovedIsTreasure(l, chunks, lookup, moved[k]);
      var j :| 0 <= j < |chunks| && chunks[j] == moved[k];
      assert IdxsOf(chunks)[j] == i;
    }
  }

  lemma BatchInRange(l: Layout, chunks: seq<ChunkData>, lookup: Lookups, answer: TangleAnswer)
    requires InScanOrder(l.sessionType, chunks) && AllInRange(l, IdxsOf(chunks))
    ensures var b := BatchOf(l, chunks, lookup, answer);
            AllInRange(l, IdxsOf(b.matches)) && AllInRange(l, IdxsOf(b.toSend))
  {
    BatchPartitions(l, chunks, lookup, answer);
    var b := BatchOf(l, chunks, lookup, answer);
    MembersInRange(l, b.matches, chunks);
    MembersInRange(l, b.toSend, chunks);
  }

  lemma MembersInRange(l: Layout, part: seq<ChunkData>, chunks: seq<ChunkData>)
    requires multiset(part) <= multiset(chunks) && AllInRange(l, IdxsOf(chunks))
    ensures AllInRange(l, IdxsOf(part))
  {
    forall i | i in IdxsOf(part) ensures InRange(l, i) {
      var k :| 0 <= k < |part| && part[k].idx == i;
      assert part[k] in multiset(part);
      var j :| 0 <= j < |chunks| && chunks[j] == part[k];
      assert IdxsOf(chunks)[j] == i;
    }
  }

  /** Part of a list in scan order, with indexes in range. */
  lemma SliceOrdered(l: Layout, chunks: seq<ChunkData>, lo: nat, hi: nat)
    requires lo <= hi <= |chunks| && InScanOrder(l.sessionType, chunks) && AllInRange(l, IdxsOf(chunks))
    ensures InScanOrder(l.sessionType, chunks[lo..hi]) && AllInRange(l, IdxsOf(chunks[lo..hi]))
  {
    var part := chunks[lo..hi];
    forall i | i in IdxsOf(part) ensures InRange(l, i) {
      var j :| 0 <= j < |part| && part[j].idx == i;
      assert IdxsOf(chunks)[lo + j] == i;
    }
    forall j, k | 0 <= j < k < |part| ensures Before(l.sessionType, part[j].idx, part[k].idx) {
      assert part[j] == chunks[lo + j] && part[k] == chunks[lo + k];
    }
  }

  lemma PageOrdered(l: Layout, chunks: seq<ChunkData>, k: nat)
    requires InScanOrder(l.sessionType, chunks) && AllInRange(l, IdxsOf(chunks))
    ensures var page := PageOf(chunks, MAX_ADDRESSES, k);
            InScanOrder(l.sessionType, page) && AllInRange(l, IdxsOf(page))
  {
    ClipMono(Times(MAX_ADDRESSES, k), Times(MAX_ADDRESSES, k + 1), |chunks|);
    SliceOrdered(l, chunks, Clip(Times(MAX_ADDRESSES, k), |chunks|), Clip(Times(MAX_ADDRESSES, k + 1), |chunks|));
  }

  /** Both cursors are in order, and neither has moved back. */
  ghost predicate OnlyForward(l: Layout, c: Cursors, d: Cursors) {
    ValidCursors(l, d) && Rank(l, c.verify) <= Rank(l, d.verify) && Rank(l, c.attach) <= Rank(l, d.attach)
  }

  lemma AttachForward(l: Layout, c: Cursors, idxs: seq<int>, filled: set<int>)
    requires ValidCursors(l, c) && Inside(l, filled) && AllInRange(l, idxs)
    ensures OnlyForward(l, c, AttachAdvanced(l, c, idxs, filled))
  {
    AdvancesKeepValid(l, c, idxs, filled);
    ScanFromMaximal(l.sessionType, c.attach, |idxs|, ToSet(idxs) + filled);
  }

  lemma VerifyForward(l: Layout, c: Cursors, idxs: seq<int>, filled: set<int>)
    requires ValidCursors(l, c) && Inside(l, filled) && AllInRange(l, idxs)
    ensures OnlyForward(l, c, VerifyAdvanced(l, c, idxs, filled))
  {
    AdvancesKeepValid(l, c, idxs, filled);
    ScanFromMaximal(l.sessionType, c.verify, |idxs|, ToSet(idxs) + filled);
  }

  lemma BatchForward(l: Layout, c: Cursors, matches: seq<ChunkData>, sent: seq<ChunkData>, powEnabled: bool,
          filled: set<int>)
    requires ValidCursors(l, c) && Inside(l, filled)
    requires AllInRange(l, IdxsOf(matches)) && AllInRange(l, IdxsOf(sent))
    ensures OnlyForward(l, c, SentCursors(l, MatchedCursors(l, c, matches, filled), sent, powEnabled, filled))
  {
    AttachForward(l, c, IdxsOf(matches), filled);
    VerifyForward(l, AttachAdvanced(l, c, IdxsOf(matches), filled), IdxsOf(matches), filled);
    AttachForward(l, MatchedCursors(l, c, matches, filled), IdxsOf(sent), filled);
  }

  /** What reaches a worker: channels have room for one bundle each. */
  function HandedOver(toSend: seq<ChunkData>, numChannels: nat, powEnabled: bool, toLambda: bool): seq<ChunkData> {
    if !powEnabled then []
    else if toLambda then toSend
    else toSend[..Clip(Times(BUNDLE_SIZE, numChannels), |toSend|)]
  }

  /** The database still shows the chunks, and no hash outside the file was completed. */
  ghost predicate ReadFrom(l: Layout, db: ChunkDb, read: seq<ChunkData>)
    reads db
  {
    StillStored(db, read) && HashedInside(db.stores, db.genesisHash, l.numChunks)
  }

  /** The session's copy and its row agree, and moves since `s` left the chunks visible. */
  ghost predicate InPass(session: UploadSession, s: Stores, read: seq<ChunkData>)
    reads session, session.row, session.db
  {
    && session.row.cursors == session.Copy()
    && ReadFrom(session.layout, session.db, read)
    && SameView(s, session.db.stores)
  }

  /** The moves of a batch or page keep a pass going. */
  lemma InPassLater(session: UploadSession, s: Stores, t: Stores, read: seq<ChunkData>, moved: seq<ChunkData>)
    requires session.row.cursors == session.Copy() && Moves(session.db, t, session.db.stores, moved)
    requires AllInRange(session.layout, IdxsOf(moved)) && SameView(s, t)
    requires HashedInside(t, session.db.genesisHash, session.layout.numChunks)
    requires forall c :: c in read ==> View(t, session.db.KeyOf(c)) == Some((c.hash, c.rawMessage))
    ensures InPass(session, s, read) && Inside(session.layout, session.Filled())
  {
    SameViewTrans(s, t, session.db.stores);
    StillStoredLater(session.db, read, t);
    MovesKeepInside(session.layout, session.db, t, session.db.stores, moved);
    FilledInside(session.layout, session.db.stores, session.db.genesisHash);
  }

  /** What a pass is given: the chunks read, and how the world answers, with one answer of the tangle per batch. */
  datatype Pass = Pass(
    layout: Layout, chunks: seq<ChunkData>, numChannels: nat, lookup: Lookups, answers: seq<TangleAnswer>,
    powEnabled: bool, toLambda: bool)
  {
    function Page(k: nat): seq<ChunkData> {
      PageOf(chunks, MAX_ADDRESSES, k)
    }

    /** What the k-th batch turns into. */
    function BatchAt(k: nat): Batch
      requires k < |answers|
    {
      BatchOf(layout, Page(k), lookup, answers[k])
    }

    function HandedAt(k: nat): seq<ChunkData>
      requires k < |answers|
    {
      HandedOver(BatchAt(k).toSend, numChannels, powEnabled, toLambda)
    }

    ghost predicate Proper() {
      && numChannels > 0
      && InScanOrder(layout.sessionType, chunks) && AllInRange(layout, IdxsOf(chunks))
    }

    ghost predicate Did(batches: seq<Batch>, handed: seq<seq<ChunkData>>, k: nat)
      requires k < |batches| == |handed| <= |answers|
    {
      batches[k] == BatchAt(k) && handed[k] == HandedAt(k)
    }

    /** What became of the first batches, and what each of them handed over. */
    ghost predicate DidFirst(batches: seq<Batch>, handed: seq<seq<ChunkData>>) {
      |batches| == |handed| <= |answers| && forall k :: 0 <= k < |batches| ==> Did(batches, handed, k)
    }

    lemma DidStill(batches: seq<Batch>, handed: seq<seq<ChunkData>>, b: Batch, next: seq<ChunkData>, k: nat)
      requires k < |batches| == |handed| < |answers| && Did(batches, handed, k)
      ensures Did(batches + [b], handed + [next], k)
    {
    }

    lemma DidLast(batches: seq<Batch>, handed: seq<seq<ChunkData>>, b: Batch, next: seq<ChunkData>)
      requires |batches| == |handed| < |answers| && b == BatchAt(|handed|) && next == HandedAt(|handed|)
      ensures Did(batches + [b], handed + [next], |batches|)
    {
    }

    lemma DidNext(batches: seq<Batch>, handed: seq<seq<ChunkData>>, b: Batch, next: seq<ChunkData>)
      requires DidFirst(batches, handed) && |handed| < |answers|
      requires b == BatchAt(|handed|) && next == HandedAt(|handed|)
      ensures DidFirst(batches + [b], handed + [next])
    {
      forall k | 0 <= k <= |batches| ensures Did(batches + [b], handed + [next], k) {
        if k < |batches| { DidStill(batches, handed, b, next, k); } else { DidLast(batches, handed, b, next); }
      }
    }
  }

  ghost predicate StepAt(l: Layout, db: ChunkDb, batches: seq<Batch>, powEnabled: bool, trail: seq<Snapshot>, k: nat)
    requires k < |batches| == |trail| - 1
  {
    BatchEffect(l, db, batches[k], powEnabled, trail[k], trail[k + 1])
  }

  /** The states between batches; each batch leads from one to the next. */
  ghost predicate BatchTrail(l: Layout, db: ChunkDb, batches: seq<Batch>, powEnabled: bool, trail: seq<Snapshot>) {
    |trail| == |batches| + 1 && forall k :: 0 <= k < |batches| ==> StepAt(l, db, batches, powEnabled, trail, k)
  }

  lemma TrailNext(l: Layout, db: ChunkDb, batches: seq<Batch>, powEnabled: bool, trail: seq<Snapshot>, b: Batch,
                  next: Snapshot)
    requires BatchTrail(l, db, batches, powEnabled, trail)
    requires BatchEffect(l, db, b, powEnabled, trail[|batches|], next)
    ensures BatchTrail(l, db, batches + [b], powEnabled, trail + [next])
  {
    forall k | 0 <= k <= |batches| ensures StepAt(l, db, batches + [b], powEnabled, trail + [next], k) {
      if k < |batches| { assert StepAt(l, db, batches, powEnabled, trail, k); }
    }
  }

  /** One turn of the loop over batches. The attach cursor moves over chunks no channel had room for, too. */
  method ProcessPage(p: Pass, k: nat, session: UploadSession, ghost s: Stores) returns (handed: seq<ChunkData>)
    requires p.Proper() && p.layout == session.layout && ValidCursors(p.layout, session.Copy())
    requires InPass(session, s, p.chunks) && k < |p.answers|
    modifies session, session.row, session.db
    ensures handed == p.HandedAt(k)
    ensures BatchEffect(p.layout, session.db, p.BatchAt(k), p.powEnabled, old(session.Now()), session.Now())
    ensures OnlyForward(p.layout, old(session.Copy()), session.Copy())
    ensures InPass(session, s, p.chunks)
  {
    var page := PageOf(p.chunks, MAX_ADDRESSES, k);
    PageOrdered(p.layout, p.chunks, k);
    BatchInRange(p.layout, page, p.lookup, p.answers[k]);
    ghost var c, t := session.Copy(), session.db.stores;
    var sent, b := ProcessBatch(page, session, p.lookup, p.answers[k], p.powEnabled);
    handed := sent;
    if p.powEnabled && !p.toLambda {
      var bundles := SendChunks(sent, p.numChannels);
      handed := Join(bundles);
    }
    MovedInRange(p.layout, page, p.lookup);
    InPassLater(session, s, t, p.chunks, b.moved);
    BatchForward(p.layout, c, b.matches, b.toSend, p.powEnabled, session.Filled());
  }

  /**
   * FilterAndAssignChunksToChannels: one copy of the row serves for all batches. `handed` is what reached
   * the channels or the lambda.
   */
  method FilterAndAssignChunksToChannels(p: Pass, row: SessionRow, db: ChunkDb)
      returns (handed: seq<seq<ChunkData>>, ghost batches: seq<Batch>, ghost trail: seq<Snapshot>)
    requires p.Proper() && ValidCursors(p.layout, row.cursors) && ReadFrom(p.layout, db, p.chunks)
    requires |p.chunks| <= Times(MAX_ADDRESSES, |p.answers|)
    modifies row, db
    ensures OnlyForward(p.layout, old(row.cursors), row.cursors)
    ensures SameView(old(db.stores), db.stores) && HashedInside(db.stores, db.genesisHash, p.layout.numChunks)
    ensures p.DidFirst(batches, handed) && |p.chunks| <= Times(MAX_ADDRESSES, |handed|)
    ensures BatchTrail(p.layout, db, batches, p.powEnabled, trail)
    ensures trail[0] == Snapshot(old(db.stores), old(row.cursors), old(row.cursors))
    ensures trail[|batches|] == Snapshot(db.stores, row.cursors, row.cursors)
  {
    var session := new UploadSession.Find(p.layout, row, db);
    handed, batches, trail := ProcessAll(p, session);
  }

  /** What is recorded of the batches so far is what they did, and leads to the present state. */
  ghost predicate Followed(p: Pass, session: UploadSession, handed: seq<seq<ChunkData>>, batches: seq<Batch>,
                           trail: seq<Snapshot>)
    reads session, session.row, session.db
  {
    && p.DidFirst(batches, handed)
    && BatchTrail(p.layout, session.db, batches, p.powEnabled, trail) && trail[|batches|] == session.Now()
  }

  /** The next batch, and what is recorded of it. */
  method ProcessNext(p: Pass, session: UploadSession, handed: seq<seq<ChunkData>>, ghost batches: seq<Batch>,
                     ghost trail: seq<Snapshot>, ghost s: Stores)
      returns (handed1: seq<seq<ChunkData>>, ghost batches1: seq<Batch>, ghost trail1: seq<Snapshot>)
    requires p.Proper() && p.layout == session.layout && ValidCursors(p.layout, session.Copy())
    requires InPass(session, s, p.chunks) && |handed| < |p.answers|
    requires Followed(p, session, handed, batches, trail)
    modifies session, session.row, session.db
    ensures |handed1| == |handed| + 1 && Followed(p, session, handed1, batches1, trail1) && trail1[0] == trail[0]
    ensures OnlyForward(p.layout, old(session.Copy()), session.Copy()) && InPass(session, s, p.chunks)
  {
    var page := ProcessPage(p, |handed|, session, s);
    ghost var b := p.BatchAt(|handed|);
    TrailNext(p.layout, session.db, batches, p.powEnabled, trail, b, session.Now());
    p.DidNext(batches, handed, b, page);
    handed1, batches1, trail1 := handed + [page], batches + [b], trail + [session.Now()];
  }

  method ProcessAll(p: Pass, session: UploadSession)
      returns (handed: seq<seq<ChunkData>>, ghost batches: seq<Batch>, ghost trail: seq<Snapshot>)
    requires p.Proper() && p.layout == session.layout && ValidCursors(p.layout, session.Copy())
    requires InPass(session, session.db.stores, p.chunks)
    requires |p.chunks| <= Times(MAX_ADDRESSES, |p.answers|)
    modifies session, session.row, session.db
    ensures OnlyForward(p.layout, old(session.Copy()), session.Copy())
    ensures InPass(session, old(session.db.stores), p.chunks)
    ensures p.DidFirst(batches, handed) && |p.chunks| <= Times(MAX_ADDRESSES, |handed|)
    ensures BatchTrail(p.layout, session.db, batches, p.powEnabled, trail)
    ensures trail[0] == old(session.Now()) && trail[|batches|] == session.Now()
  {
    ghost var s, c := session.db.stores, session.Copy();
    handed, batches, trail := [], [], [session.Now()];
    var i, k := 0, 0;
    while i < |p.chunks|
      invariant i == Times(MAX_ADDRESSES, k) && i <= Times(MAX_ADDRESSES, |p.answers|) && k <= |p.answers|
      invariant OnlyForward(p.layout, c, session.Copy()) && InPass(session, s, p.chunks)
      invariant |handed| == k && Followed(p, session, handed, batches, trail) && trail[0] == old(session.Now())
    {
      ManyAnswers(k, |p.answers|, |p.chunks|);
      handed, batches, trail := ProcessNext(p, session, handed, batches, trail, s);
      i, k := i + MAX_ADDRESSES, k + 1;
    }
  }

  /** The pass over what was read for a session on the list of ready ones. */
  function ListedPass(listed: UploadSession, numChannels: nat, readFails: bool, lookup: Lookups,
                      answers: seq<TangleAnswer>, powEnabled: bool, toLambda: bool): Pass
    reads listed, listed.db
  {
    var keys := listed.FetchKeys(numChannels * BUNDLE_SIZE);
    Pass(listed.layout, listed.db.ReadOf(listed.db.stores, InProgress, keys, readFails), numChannels, lookup, answers,
         powEnabled, toLambda)
  }

  /** Chunks fetched for a session whose cursors are in order need no further conditions. */
  lemma ListedIsProper(p: Pass, listed: UploadSession, readFails: bool)
    requires Agree(listed.db.stores) && p.numChannels > 0
    requires ValidCursors(listed.layout, listed.Copy()) && NeedsAttaching(listed.layout, listed.Copy())
    requires p == ListedPass(listed, p.numChannels, readFails, p.lookup, p.answers, p.powEnabled, p.toLambda)
    ensures p.Proper() && StillStored(listed.db, p.chunks) && |p.chunks| <= p.numChannels * BUNDLE_SIZE + 1
  {
    FetchIsGood(listed.layout, listed.Copy(), listed.db, listed.db.stores, p.numChannels * BUNDLE_SIZE, readFails);
    StoredChunks(listed.db, p.chunks);
  }

  /**
   * What GetSessionUnassignedChunks does for one session of its list: it reads from the listed copy's
   * cursor on and lets the pass load the row anew. `usedUp` ends the loop over sessions.
   */
  method AssignToChannels(listed: UploadSession, numChannels: nat, readFails: bool, lookup: Lookups,
                          answers: seq<TangleAnswer>, powEnabled: bool, toLambda: bool)
      returns (usedUp: bool, handed: seq<seq<ChunkData>>, ghost p: Pass, ghost batches: seq<Batch>,
               ghost trail: seq<Snapshot>)
    requires Agree(listed.db.stores) && numChannels > 0
    requires HashedInside(listed.db.stores, listed.db.genesisHash, listed.layout.numChunks)
    requires ValidCursors(listed.layout, listed.Copy()) && NeedsAttaching(listed.layout, listed.Copy())
    requires ValidCursors(listed.layout, listed.row.cursors)
    requires numChannels * BUNDLE_SIZE < MAX_ADDRESSES * |answers|
    modifies listed.row, listed.db
    ensures p == old(ListedPass(listed, numChannels, readFails, lookup, answers, powEnabled, toLambda)) && p.Proper()
    ensures usedUp <==> |p.chunks| >= numChannels * 100
    ensures OnlyForward(listed.layout, old(listed.row.cursors), listed.row.cursors)
    ensures SameView(old(listed.db.stores), listed.db.stores)
    ensures HashedInside(listed.db.stores, listed.db.genesisHash, listed.layout.numChunks)
    ensures p.DidFirst(batches, handed) && |p.chunks| <= Times(MAX_ADDRESSES, |handed|)
    ensures BatchTrail(p.layout, listed.db, batches, powEnabled, trail)
    ensures trail[0] == Snapshot(old(listed.db.stores), old(listed.row.cursors), old(listed.row.cursors))
    ensures trail[|batches|] == Snapshot(listed.db.stores, listed.row.cursors, listed.row.cursors)
  {
    TimesIsProduct(MAX_ADDRESSES, |answers|);
    var chunks := listed.GetUnassignedChunksBySession(numChannels * BUNDLE_SIZE, readFails);
    var pass := Pass(listed.layout, chunks, numChannels, lookup, answers, powEnabled, toLambda);
    ListedIsProper(pass, listed, readFails);
    p := pass;
    usedUp := |chunks| >= numChannels * BUNDLE_SIZE;
    if |chunks| > 0 {
      handed, batches, trail := FilterAndAssignChunksToChannels(pass, listed.row, listed.db);
    } else {
      handed, batches, trail := [], [], [Snapshot(listed.db.stores, listed.row.cursors, listed.row.cursors)];
    }
  }

  lemma ManyAnswers(k: nat, answers: nat, chunks: nat)
    requires Times(MAX_ADDRESSES, k) < chunks <= Times(MAX_ADDRESSES, answers)
    ensures k < answers && Times(MAX_ADDRESSES, k + 1) <= Times(MAX_ADDRESSES, answers)
  {
    if answers <= k { TimesMono(MAX_ADDRESSES, answers, k); } else { TimesMono(MAX_ADDRESSES, k + 1, answers); }
  }

  // ---- Nothing is lost or doubled ----

  lemma SubDistinct(a: seq<ChunkData>, all: seq<ChunkData>)
    requires DistinctIdxs(all) && multiset(a) <= multiset(all)
    ensures DistinctIdxs(a)
  {
    forall j, k | 0 <= j < k < |a| ensures a[j].idx != a[k].idx {
      assert a[j] in multiset(a) && a[k] in multiset(a);
      assert a[j] in multiset(all) && a[k] in multiset(all);
      CountDistinct(all, a[j]);
      if a[j] == a[k] { CountedTwice(a, j, k); }
    }
  }

  /** Ordinary, absent, present and failed treasure chunks are all chunks. */
  lemma {:induction false} HandledPartitions(l: Layout, chunks: seq<ChunkData>, lookup: Lookups)
    ensures var h := HandledChunks(l, chunks, lookup);
            var failed := FirstFailure(chunks, TreasureThat(l, chunks, lookup, LookupFailed)) < |chunks|;
            var moved := if failed then multiset{} else multiset(h.moved);
            multiset(h.toAttach) + multiset(h.treasures) + moved == multiset(chunks)
  {
    var failing := TreasureThat(l, chunks, lookup, LookupFailed);
    if FirstFailure(chunks, failing) == |chunks| {
      assert chunks[..|chunks|] == chunks;
      forall c | c in chunks ensures !failing(c) {
        var k :| 0 <= k < |chunks| && chunks[k] == c;
      }
      FilterFour(chunks, Ordinary(l, chunks), TreasureThat(l, chunks, lookup, Absent),
                 TreasureThat(l, chunks, lookup, Present), failing);
      FilterNone(chunks, failing);
    }
  }

  /** The comparison's three lists and what it leaves unjudged are all chunks. */
  lemma ComparedWithUnjudged(chunks: seq<ChunkData>, answer: TangleAnswer)
    ensures var f := Compared(chunks, answer);
            multiset(f.matches) + multiset(f.mismatches) + multiset(f.notAttached) + multiset(Unjudged(chunks, answer))
            == multiset(chunks)
  {
    if AnyAddressable(chunks) && answer.Found? && answer.pages != [] {
      SplitPartitions(TxMap(answer.pages), chunks);
    }
  }

  /** A sum of lists, with the order of the summands changed. */
  lemma Regroup<T>(skip: multiset<T>, rest: multiset<T>, m: multiset<T>, x: multiset<T>, n: multiset<T>, u: multiset<T>,
                   t: multiset<T>, p: multiset<T>, all: multiset<T>)
    requires m + x + n + u == rest
    requires (skip + rest) + t + p == all
    ensures m + ((skip + n + x) + t) + p + u == all
  {
  }

  lemma WithinWhole<T>(a: multiset<T>, m: multiset<T>, p: multiset<T>, u: multiset<T>, all: multiset<T>)
    requires m + a + p + u == all
    ensures a <= all
  {
  }

  /** The chunks to send and the treasures kept are different chunks of the batch. */
  lemma {:induction false} SentDistinct(l: Layout, chunks: seq<ChunkData>, lookup: Lookups, answer: TangleAnswer)
    requires InScanOrder(l.sessionType, chunks)
    ensures var h := HandledChunks(l, chunks, lookup);
            var skip, rest := SkippedOf(l, h.toAttach), CheckedOf(l, h.toAttach);
            var f := Compared(rest, answer);
            var others := skip + f.notAttached + f.mismatches;
            var failed := FirstFailure(chunks, TreasureThat(l, chunks, lookup, LookupFailed)) < |chunks|;
            && DistinctIdxs(others + h.treasures)
            && multiset(f.matches) + multiset(others + h.treasures) + (if failed then multiset{} else multiset(h.moved))
               + multiset(Unjudged(rest, answer)) == multiset(chunks)
  {
    var h := HandledChunks(l, chunks, lookup);
    var failed := FirstFailure(chunks, TreasureThat(l, chunks, lookup, LookupFailed)) < |chunks|;
    var moved := if failed then multiset{} else multiset(h.moved);
    var skip, rest := SkippedOf(l, h.toAttach), CheckedOf(l, h.toAttach);
    var f := Compared(rest, answer);
    var others := skip + f.notAttached + f.mismatches;
    HandledPartitions(l, chunks, lookup);
    FilterOrdered(l.sessionType, chunks, Ordinary(l, chunks));
    SkipsExactlyTheWindow(l, h.toAttach);
    ComparedWithUnjudged(rest, answer);
    Regroup(multiset(skip), multiset(rest), multiset(f.matches), multiset(f.mismatches), multiset(f.notAttached),
            multiset(Unjudged(rest, answer)), multiset(h.treasures), moved, multiset(chunks));
    assert multiset(others + h.treasures) ==
           multiset(skip) + multiset(f.notAttached) + multiset(f.mismatches) + multiset(h.treasures);
    WithinWhole(multiset(others + h.treasures), multiset(f.matches), moved, multiset(Unjudged(rest, answer)),
        multiset(chunks));
    OrderedDistinct(l.sessionType, chunks);
    SubDistinct(others + h.treasures, chunks);
  }

  /**
   * One batch: every chunk is matched, moved, handed on to be sent, or dropped unjudged, and only
   * one of these. After a failed treasure lookup the moved ones are handed on as well.
   */
  lemma {:induction false} BatchPartitions(l: Layout, chunks: seq<ChunkData>, lookup: Lookups, answer: TangleAnswer)
    requires InScanOrder(l.sessionType, chunks)
    ensures var b := BatchOf(l, chunks, lookup, answer);
            var failed := FirstFailure(chunks, TreasureThat(l, chunks, lookup, LookupFailed)) < |chunks|;
            multiset(b.matches) + multiset(b.toSend) + (if failed then multiset{} else multiset(b.moved))
            + multiset(b.dropped) == multiset(chunks)
  {
    var h := HandledChunks(l, chunks, lookup);
    var skip, f := SkippedOf(l, h.toAttach), Compared(CheckedOf(l, h.toAttach), answer);
    SentDistinct(l, chunks, lookup, answer);
    InsertedIsPermutation(l.sessionType, skip + f.notAttached + f.mismatches, h.treasures);
  }

  /** Where the chunks of a pass went. `moved` leaves out those a failed lookup of their batch treated as ordinary. */
  datatype Tally = Tally(
    matched: multiset<ChunkData>, moved: multiset<ChunkData>, handed: multiset<ChunkData>,
    unsent: multiset<ChunkData>, dropped: multiset<ChunkData>)
  {
    function Total(): multiset<ChunkData> {
      matched + moved + handed + unsent + dropped
    }

    function Plus(t: Tally): Tally {
      Tally(matched + t.matched, moved + t.moved, handed + t.handed, unsent + t.unsent, dropped + t.dropped)
    }
  }

  function BatchTally(p: Pass, k: nat): Tally
    requires k < |p.answers|
  {
    var failed := FirstFailure(p.Page(k), TreasureThat(p.layout, p.Page(k), p.lookup, LookupFailed)) < |p.Page(k)|;
    Tally(multiset(p.BatchAt(k).matches), if failed then multiset{} else multiset(p.BatchAt(k).moved),
          multiset(p.HandedAt(k)), multiset(p.BatchAt(k).toSend) - multiset(p.HandedAt(k)),
          multiset(p.BatchAt(k).dropped))
  }

  function Sum(ts: seq<Tally>): Tally {
    if ts == [] then Tally(multiset{}, multiset{}, multiset{}, multiset{}, multiset{})
    else Sum(ts[..|ts| - 1]).Plus(ts[|ts| - 1])
  }

  /** The tallies of the first `n` batches. */
  function Tallies(p: Pass, n: nat): (ts: seq<Tally>)
    requires n <= |p.answers|
    ensures |ts| == n && forall k :: 0 <= k < n ==> ts[k] == BatchTally(p, k)
  {
    seq(n, k requires 0 <= k < n => BatchTally(p, k))
  }

  lemma {:induction false} SumOfPages(ts: seq<Tally>, pages: seq<seq<ChunkData>>)
    requires |ts| == |pages| && forall k :: 0 <= k < |ts| ==> ts[k].Total() == multiset(pages[k])
    ensures Sum(ts).Total() == multiset(Join(pages))
  {
    if ts != [] {
      var n := |ts| - 1;
      SumOfPages(ts[..n], pages[..n]);
      PlusTotal(Sum(ts[..n]), ts[n]);
    }
  }

  lemma HandedWithin(toSend: seq<ChunkData>, numChannels: nat, powEnabled: bool, toLambda: bool)
    ensures var handed := HandedOver(toSend, numChannels, powEnabled, toLambda);
            multiset(handed) + (multiset(toSend) - multiset(handed)) == multiset(toSend)
  {
    var handed := HandedOver(toSend, numChannels, powEnabled, toLambda);
    assert toSend == handed + toSend[|handed|..];
  }

  lemma PlusTotal(t: Tally, u: Tally)
    ensures t.Plus(u).Total() == t.Total() + u.Total()
  {
  }

  lemma BatchAccounted(p: Pass, k: nat)
    requires p.Proper() && k < |p.answers|
    ensures BatchTally(p, k).Total() == multiset(p.Page(k))
  {
    PageOrdered(p.layout, p.chunks, k);
    BatchPartitions(p.layout, p.Page(k), p.lookup, p.answers[k]);
    HandedWithin(p.BatchAt(k).toSend, p.numChannels, p.powEnabled, p.toLambda);
    SumOfFour(BatchTally(p, k), multiset(p.BatchAt(k).toSend), multiset(p.Page(k)));
  }

  lemma SumOfFour(t: Tally, toSend: multiset<ChunkData>, all: multiset<ChunkData>)
    requires t.handed + t.unsent == toSend && t.matched + toSend + t.moved + t.dropped == all
    ensures t.Total() == all
  {
  }

  /** Over a whole pass every chunk was matched, moved, handed over, left unsent or dropped, and only one of these. */
  lemma PassAccounted(p: Pass, n: nat)
    requires p.Proper() && n <= |p.answers| && |p.chunks| <= Times(MAX_ADDRESSES, n)
    ensures var t := Sum(Tallies(p, n));
            t.matched + t.moved + t.handed + t.unsent + t.dropped == multiset(p.chunks)
  {
    var pages := Pages(p.chunks, MAX_ADDRESSES, n);
    forall k | 0 <= k < n ensures Tallies(p, n)[k].Total() == multiset(pages[k]) {
      BatchAccounted(p, k);
    }
    SumOfPages(Tallies(p, n), pages);
    JoinAllPages(p.chunks, MAX_ADDRESSES, n);
  }

  /** No chunk is left unjudged exactly when the search worked and, if it found anything, all addresses are proper. */
  lemma UnjudgedIff(page: seq<ChunkData>, answer: TangleAnswer)
    ensures Unjudged(page, answer) == [] <==>
              page == [] || (AnyAddressable(page) && answer.Found? && (answer.pages == [] || AllAddressable(page)))
  {
    if AnyAddressable(page) && answer.Found? && answer.pages != [] {
      var m := TxMap(answer.pages);
      forall c ensures c in Filter(page, Judged(m, Skipped)) <==> c in page && !Trytes.IsTrytes(c.address) {
        FilterMember(page, Judged(m, Skipped), c);
      }
      var left := Filter(page, Judged(m, Skipped));
      if left != [] { assert left[0] in left; }
    }
  }

  /** Chunks are dropped exactly when the search fails or an address is improper. */
  lemma DroppedIff(l: Layout, chunks: seq<ChunkData>, lookup: Lookups, answer: TangleAnswer)
    ensures var rest := CheckedOf(l, HandledChunks(l, chunks, lookup).toAttach);
            BatchOf(l, chunks, lookup, answer).dropped == [] <==>
              rest == []
              || (AnyAddressable(rest) && answer.Found? && (answer.pages == [] || AllAddressable(rest)))
  {
    UnjudgedIff(CheckedOf(l, HandledChunks(l, chunks, lookup).toAttach), answer);
  }

  // ---- Handing chunks over ----

  /** The bundles handed to channels, one per channel. The loop runs once before it looks at the channels. */
  method SendChunks(chunks: seq<ChunkData>, numChannels: nat) returns (handed: seq<seq<ChunkData>>)
    requires chunks == [] || numChannels > 0
    ensures |handed| <= numChannels && handed == Pages(chunks, 100, |handed|)
    ensures Join(handed) == chunks[..Clip(Times(BUNDLE_SIZE, numChannels), |chunks|)]
    ensures Join(handed) == chunks <==> |chunks| <= 100 * numChannels
  {
    handed := [];
    var i, j := 0, 0;
    while i < |chunks| && j < numChannels
      invariant i == Times(BUNDLE_SIZE, j) && j <= numChannels
      invariant handed == Pages(chunks, BUNDLE_SIZE, j)
    {
      var end := i + BUNDLE_SIZE;
      if end > |chunks| { end := |chunks|; }
      PagesNext(chunks, BUNDLE_SIZE, j);
      handed := handed + [chunks[i..end]];
      j := j + 1;
      i := i + BUNDLE_SIZE;
    }
    TimesMono(BUNDLE_SIZE, j, numChannels);
    TimesIsProduct(BUNDLE_SIZE, numChannels);
    JoinPages(chunks, BUNDLE_SIZE, j);
  }

  /** The attach cursor moves past the chunk when the list is sent. */
  ghost predicate Passes(l: Layout, c: Cursors, toSend: seq<ChunkData>, filled: set<int>, i: int) {
    0 <= Distance(l.sessionType, c.attach, i)
      < Distance(l.sessionType, c.attach, SentCursors(l, c, toSend, true, filled).attach)
  }

  /**
   * The attach cursor moves over the chunks to send whether or not the channels had room for them. It
   * passes a chunk that was not handed over exactly when there is one beyond the channels' room up to
   * which, from the cursor on, all indexes are to be sent or filled.
   */
  lemma PassedUnsentIff(l: Layout, c: Cursors, toSend: seq<ChunkData>, numChannels: nat, filled: set<int>)
    requires DistinctIdxs(toSend)
    ensures var handed := HandedOver(toSend, numChannels, true, false);
            (exists chunk :: chunk in toSend && chunk !in handed && Passes(l, c, toSend, filled, chunk.idx))
            <==> exists k :: Times(BUNDLE_SIZE, numChannels) <= k < |toSend|
                   && Unbroken(l.sessionType, c.attach, |toSend|, ToSet(IdxsOf(toSend)) + filled, toSend[k].idx)
  {
    var handed := HandedOver(toSend, numChannels, true, false);
    var hit := ToSet(IdxsOf(toSend)) + filled;
    forall i
      ensures Passes(l, c, toSend, filled, i) <==> Unbroken(l.sessionType, c.attach, |toSend|, hit, i)
    {
      ScanPassesIff(l.sessionType, c.attach, |toSend|, hit, i);
    }
    forall k | 0 <= k < |toSend| ensures toSend[k] !in handed <==> Times(BUNDLE_SIZE, numChannels) <= k {
      HandedPosition(toSend, numChannels, k);
    }
    if exists chunk :: chunk in toSend && chunk !in handed && Passes(l, c, toSend, filled, chunk.idx) {
      var chunk :| chunk in toSend && chunk !in handed && Passes(l, c, toSend, filled, chunk.idx);
      var k :| 0 <= k < |toSend| && toSend[k] == chunk;
      assert Unbroken(l.sessionType, c.attach, |toSend|, hit, toSend[k].idx);
    }
    if k :| Times(BUNDLE_SIZE, numChannels) <= k < |toSend|
            && Unbroken(l.sessionType, c.attach, |toSend|, hit, toSend[k].idx) {
      assert toSend[k] in toSend && toSend[k] !in handed && Passes(l, c, toSend, filled, toSend[k].idx);
    }
  }

  /** Lambda takes everything; without PoW nothing is handed over and the cursors stay. */
  lemma LambdaTakesAll(l: Layout, c: Cursors, toSend: seq<ChunkData>, numChannels: nat, toLambda: bool,
                       filled: set<int>)
    ensures HandedOver(toSend, numChannels, true, true) == toSend
    ensures HandedOver(toSend, numChannels, false, toLambda) == [] && SentCursors(l, c, toSend, false, filled) == c
  {
  }

  lemma HandedPosition(toSend: seq<ChunkData>, numChannels: nat, k: nat)
    requires DistinctIdxs(toSend) && k < |toSend|
    ensures toSend[k] !in HandedOver(toSend, numChannels, true, false) <==> Times(BUNDLE_SIZE, numChannels) <= k
  {
    var handed := HandedOver(toSend, numChannels, true, false);
    if k < Times(BUNDLE_SIZE, numChannels) {
      assert handed[k] == toSend[k];
    } else {
      forall j | 0 <= j < |handed| ensures handed[j] != toSend[k] {
        assert toSend[j].idx != toSend[k].idx;
      }
    }
  }

  /** A gap-free list from the cursor on is passed whole, and was handed over whole exactly when it fits. */
  lemma WholeRunPassed(l: Layout, c: Cursors, toSend: seq<ChunkData>, numChannels: nat, filled: set<int>)
    requires toSend != [] && forall j :: 0 <= j < |toSend| ==> toSend[j].idx == c.attach + Along(l.sessionType, j)
    ensures SentCursors(l, c, toSend, true, filled).attach == c.attach + Along(l.sessionType, |toSend|)
    ensures (forall chunk :: chunk in toSend ==> chunk in HandedOver(toSend, numChannels, true, false))
            <==> |toSend| <= Times(BUNDLE_SIZE, numChannels)
  {
    var idxs := IdxsOf(toSend);
    forall j | 0 <= j < |idxs| ensures c.attach + Along(l.sessionType, j) in ToSet(idxs) + filled {
      assert idxs[j] in idxs;
    }
    ScanFromFull(l.sessionType, c.attach, |idxs|, ToSet(idxs) + filled);
    WholeHandedIff(toSend, numChannels);
  }

  lemma WholeHandedIff(toSend: seq<ChunkData>, numChannels: nat)
    requires DistinctIdxs(toSend)
    ensures (forall chunk :: chunk in toSend ==> chunk in HandedOver(toSend, numChannels, true, false))
            <==> |toSend| <= Times(BUNDLE_SIZE, numChannels)
  {
    forall k | 0 <= k < |toSend|
      ensures toSend[k] !in HandedOver(toSend, numChannels, true, false) <==> Times(BUNDLE_SIZE, numChannels) <= k
    {
      HandedPosition(toSend, numChannels, k);
    }
    if Times(BUNDLE_SIZE, numChannels) < |toSend| {
      assert toSend[Times(BUNDLE_SIZE, numChannels)] in toSend;
    }
  }

  /** batchPowOnLambda; a message that is not made of trytes panics, after earlier batches were pushed. */
  method BatchPowOnLambda(chunks: seq<ChunkData>) returns (pushed: seq<seq<ChunkData>>, panicked: bool)
    ensures panicked <==> exists k :: 0 <= k < |chunks| && !Trytes.IsTrytes(chunks[k].message)
    ensures pushed == Pages(chunks, 300, |pushed|)
    ensures !panicked ==> Join(pushed) == chunks
  {
    pushed, panicked := [], false;
    var numBatches := |chunks| / MAX_CHUNKS_PER_LAMBDA + 1;
    var offset := 0;
    for i := 0 to numBatches
      invariant offset == Times(MAX_CHUNKS_PER_LAMBDA, i) && pushed == Pages(chunks, MAX_CHUNKS_PER_LAMBDA, i)
      invariant i < numBatches ==> offset <= |chunks|
      invariant forall k :: 0 <= k < |chunks| && k < offset ==> Trytes.IsTrytes(chunks[k].message)
    {
      var remaining := |chunks| - offset;
      var numChunks := if remaining > MAX_CHUNKS_PER_LAMBDA then MAX_CHUNKS_PER_LAMBDA else remaining;
      var batch: seq<ChunkData> := [];
      for j := 0 to numChunks
        invariant batch == chunks[offset..offset + j]
        invariant forall k :: 0 <= k < offset + j ==> Trytes.IsTrytes(chunks[k].message)
      {
        if !Trytes.IsTrytes(chunks[offset + j].message) { return pushed, true; }
        batch := batch + [chunks[offset + j]];
      }
      PagesNext(chunks, MAX_CHUNKS_PER_LAMBDA, i);
      pushed := pushed + [batch];
      offset := offset + MAX_CHUNKS_PER_LAMBDA;
      TimesIsProduct(MAX_CHUNKS_PER_LAMBDA, i + 1);
    }
    TimesIsProduct(MAX_CHUNKS_PER_LAMBDA, numBatches);
    JoinPages(chunks, MAX_CHUNKS_PER_LAMBDA, numBatches);
  }
}
