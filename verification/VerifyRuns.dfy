/** The same for the verify job and its pages. */
module VerifyRuns {
  import opened Core
  import opened SessionCursors
  import opened CursorProtocol
  import opened ChunkStores
  import opened ChunkDatabase
  import opened UploadSessions
  import opened TangleCheck
  import opened TreasureMerge
  import opened AttachJob
  import opened VerifyJob
  import opened StoreRuns

  function DowngradeEvents(w: nat, idxs: seq<int>): seq<Event> {
    if idxs == [] then [] else [Downgrade(w, idxs)]
  }

  function VerifyEvents(w: nat, k: Checked): seq<Event> {
    if k.anyMatch then [VerifyAdvance(w, IdxsOf(k.matching), IdxsOf(k.treasures))] else []
  }

  /** The steps of a page on the cursors. */
  function PageEvents(w: nat, k: Checked): seq<Event> {
    DowngradeEvents(w, IdxsOf(k.noMatch)) + DowngradeEvents(w, IdxsOf(k.notAttached)) + VerifyEvents(w, k)
  }

  lemma DowngradeRun(l: Layout, s: State, w: nat, idxs: seq<int>) returns (t: State)
    requires w in s.copies && Held(s, idxs)
    ensures Run(l, s, DowngradeEvents(w, idxs), t) && Left(s, t, w, Downgraded(l, s.copies[w], idxs), idxs != [])
  {
    t := s;
    if idxs != [] {
      RunOne(l, s, Downgrade(w, idxs));
      t := Apply(l, s, Downgrade(w, idxs));
    }
  }

  /** Only the number of indexes and which they are matters to an advance. */
  lemma AdvanceBySet(l: Layout, c: Cursors, a: seq<int>, b: seq<int>, filled: set<int>)
    requires |a| == |b| && ToSet(a) == ToSet(b)
    ensures VerifyAdvanced(l, c, a, filled) == VerifyAdvanced(l, c, b, filled)
  {
  }

  lemma InsertedIdxs(l: Layout, k: Checked)
    requires DistinctIdxs(k.matching + k.treasures)
    ensures var a := IdxsOf(Inserted(l.sessionType, k.matching, k.treasures));
            |a| == |k.matching| + |k.treasures| && ToSet(a) == ToSet(IdxsOf(k.matching) + IdxsOf(k.treasures))
  {
    var r, all := Inserted(l.sessionType, k.matching, k.treasures), k.matching + k.treasures;
    InsertedIsPermutation(l.sessionType, k.matching, k.treasures);
    assert multiset(r) == multiset(all);
    assert IdxsOf(all) == IdxsOf(k.matching) + IdxsOf(k.treasures);
    forall i ensures i in IdxsOf(r) <==> i in IdxsOf(all) {
      if i in IdxsOf(r) { var j :| 0 <= j < |r| && r[j].idx == i; SameIdx(r, all, r[j]); }
      if i in IdxsOf(all) { var j :| 0 <= j < |all| && all[j].idx == i; SameIdx(all, r, all[j]); }
    }
  }

  lemma SameIdx(from: seq<ChunkData>, to: seq<ChunkData>, c: ChunkData)
    requires multiset(from) == multiset(to) && c in from
    ensures c.idx in IdxsOf(to)
  {
    assert c in multiset(from);
    var m :| 0 <= m < |to| && to[m] == c;
    assert IdxsOf(to)[m] == c.idx;
  }

  lemma VerifyRun(l: Layout, s: State, w: nat, k: Checked) returns (t: State)
    requires w in s.copies && DistinctIdxs(k.matching + k.treasures) && AllTreasures(l, k.treasures)
    requires Held(s, IdxsOf(k.matching)) && Held(s, IdxsOf(k.treasures))
    ensures Run(l, s, VerifyEvents(w, k), t)
    ensures var idxs := IdxsOf(Inserted(l.sessionType, k.matching, k.treasures));
            var c := s.copies[w];
            Left(s, t, w, if k.anyMatch then VerifyAdvanced(l, c, idxs, Filled(l, s)) else c, k.anyMatch)
  {
    t := s;
    if k.anyMatch {
      var e := VerifyAdvance(w, IdxsOf(k.matching), IdxsOf(k.treasures));
      assert Enabled(l, s, e);
      RunOne(l, s, e);
      InsertedIdxs(l, k);
      AdvanceBySet(l, s.copies[w], IdxsOf(Inserted(l.sessionType, k.matching, k.treasures)),
                   IdxsOf(k.matching) + IdxsOf(k.treasures), Filled(l, s));
      t := Apply(l, s, e);
    }
  }

  lemma PageCursorsRun(l: Layout, s: State, w: nat, k: Checked) returns (t: State)
    requires w in s.copies && DistinctIdxs(k.matching + k.treasures) && AllTreasures(l, k.treasures)
    requires Held(s, IdxsOf(k.noMatch)) && Held(s, IdxsOf(k.notAttached))
    requires Held(s, IdxsOf(k.matching)) && Held(s, IdxsOf(k.treasures))
    ensures Run(l, s, PageEvents(w, k), t)
    ensures Left(s, t, w, CheckedCursors(l, s.copies[w], k, Filled(l, s)), Bad(k) != [] || k.anyMatch)
  {
    var a, b := DowngradeEvents(w, IdxsOf(k.noMatch)), DowngradeEvents(w, IdxsOf(k.notAttached));
    var m := DowngradeRun(l, s, w, IdxsOf(k.noMatch));
    var n := DowngradeRun(l, m, w, IdxsOf(k.notAttached));
    t := VerifyRun(l, n, w, k);
    RunJoin(l, s, a, m, b, n);
    RunJoin(l, s, a + b, n, VerifyEvents(w, k), t);
    assert Bad(k) == [] <==> k.noMatch == [] && k.notAttached == [];
  }

  /** What a page is split into has distinct indexes, and its treasures are the session's. */
  lemma CheckedDistinct(l: Layout, page: seq<ChunkData>, answer: TangleAnswer)
    requires InScanOrder(l.sessionType, page)
    ensures var k := CheckedChunks(l, Compared(page, answer));
            DistinctIdxs(k.matching + k.treasures) && forall c :: c in k.treasures ==> c.idx in l.treasures
  {
    var f := Compared(page, answer);
    var k := CheckedChunks(l, f);
    var t, u := Filter(f.mismatches, InTreasures(l)), Filter(f.matches, InTreasures(l));
    FilterTwo(f.mismatches, InTreasures(l), NotInTreasures(l));
    FilterTwo(f.matches, InTreasures(l), NotInTreasures(l));
    ComparedWithUnjudged(page, answer);
    assert multiset(k.matching + (t + u)) == multiset(k.matching) + (multiset(t) + multiset(u));
    OrderedDistinct(l.sessionType, page);
    SubDistinct(k.matching + k.treasures, page);
    forall c | c in k.treasures ensures c.idx in l.treasures {
      FilterMember(f.mismatches, InTreasures(l), c);
      FilterMember(f.matches, InTreasures(l), c);
    }
  }

  /** One page of the verify job, moves included, is a run from the state before it to the state after it. */
  lemma PageIsRun(l: Layout, db: ChunkDb, w: nat, page: seq<ChunkData>, answer: TangleAnswer, before: Snapshot,
                  after: Snapshot, st: State) returns (moves: seq<Event>, u: State)
    requires InScanOrder(l.sessionType, page) && AllInRange(l, IdxsOf(page))
    requires Viewed(db, before.stores, page) && Represents(l, db, w, st, before)
    requires PageEffect(l, db, CheckedChunks(l, Compared(page, answer)), before, after)
    ensures var k := CheckedChunks(l, Compared(page, answer));
            && (forall e :: e in moves ==> MoveOf(e, ToSet(IdxsOf(k.treasures))))
            && Run(l, st, moves + PageEvents(w, k), u)
    ensures Represents(l, db, w, u, after)
  {
    var k := CheckedChunks(l, Compared(page, answer));
    forall c | c in k.noMatch || c in k.notAttached || c in k.matching || c in k.treasures ensures c in page {
      CheckedFrom(l, page, answer, c);
    }
    CheckedInRange(l, page, answer);
    CheckedDistinct(l, page, answer);
    moves, u := CheckIsRun(l, db, w, k, before, after, st);
  }

  /** What a page is split into was found by the reader and is the file's. */
  ghost predicate FoundInFile(l: Layout, db: ChunkDb, s: Stores, chunks: seq<ChunkData>) {
    Viewed(db, s, chunks) && AllInRange(l, IdxsOf(chunks))
  }

  lemma FoundLater(l: Layout, db: ChunkDb, s: Stores, t: Stores, chunks: seq<ChunkData>, st: State)
    requires FoundInFile(l, db, s, chunks) && SameView(s, t) && Shows(l, db, st, t)
    ensures Held(st, IdxsOf(chunks))
  {
    ViewedLater(db, s, t, chunks);
    ViewedAreHeld(l, db, st, t, chunks);
  }

  lemma CheckIsRun(l: Layout, db: ChunkDb, w: nat, k: Checked, before: Snapshot, after: Snapshot, st: State)
      returns (moves: seq<Event>, u: State)
    requires DistinctIdxs(k.matching + k.treasures) && AllTreasures(l, k.treasures)
    requires FoundInFile(l, db, before.stores, k.noMatch) && FoundInFile(l, db, before.stores, k.notAttached)
    requires FoundInFile(l, db, before.stores, k.matching) && FoundInFile(l, db, before.stores, k.treasures)
    requires Represents(l, db, w, st, before) && PageEffect(l, db, k, before, after)
    ensures forall e :: e in moves ==> MoveOf(e, ToSet(IdxsOf(k.treasures)))
    ensures Run(l, st, moves + PageEvents(w, k), u) && Represents(l, db, w, u, after)
  {
    var a, m := MovesRun(l, db, st, before.stores, after.stores, k.treasures);
    FoundLater(l, db, before.stores, after.stores, k.noMatch, m);
    FoundLater(l, db, before.stores, after.stores, k.notAttached, m);
    FoundLater(l, db, before.stores, after.stores, k.matching, m);
    FoundLater(l, db, before.stores, after.stores, k.treasures, m);
    SameFilled(l, db, m, after.stores);
    u := PageCursorsRun(l, m, w, k);
    moves := a;
    LeftRepresents(l, db, w, m, u, before, after, Bad(k) != [] || k.anyMatch);
    RunJoin(l, st, moves, m, PageEvents(w, k), u);
  }

  // ---- What the evidence is worth ----

  lemma MatchingCarried(l: Layout, page: seq<ChunkData>, answer: TangleAnswer, i: int)
    requires i in IdxsOf(CheckedChunks(l, Compared(page, answer)).matching)
    ensures Carried(page, answer, i)
  {
    var matching := CheckedChunks(l, Compared(page, answer)).matching;
    var n :| 0 <= n < |matching| && matching[n].idx == i;
    CheckedMeans(l, page, answer, matching[n]);
    HeardIsOnTangle(answer, matching[n]);
  }

  lemma TreasuresNoticed(l: Layout, page: seq<ChunkData>, answer: TangleAnswer, i: int)
    requires i in IdxsOf(CheckedChunks(l, Compared(page, answer)).treasures)
    ensures Noticed(page, answer, NO_LOOKUPS, i)
  {
    var treasures := CheckedChunks(l, Compared(page, answer)).treasures;
    var n :| 0 <= n < |treasures| && treasures[n].idx == i;
    CheckedMeans(l, page, answer, treasures[n]);
  }

  /** What a page records as matched or seen was found on the tangle. */
  lemma PageIsTruthful(l: Layout, w: nat, page: seq<ChunkData>, answer: TangleAnswer, e: Event)
    requires var k := CheckedChunks(l, Compared(page, answer));
             MoveOf(e, ToSet(IdxsOf(k.treasures))) || e in PageEvents(w, k)
    ensures Truthful(page, answer, NO_LOOKUPS, e)
  {
    if e.VerifyAdvance? {
      forall i | i in e.matches ensures Carried(page, answer, i) { MatchingCarried(l, page, answer, i); }
      forall i | i in e.treasures ensures Noticed(page, answer, NO_LOOKUPS, i) { TreasuresNoticed(l, page, answer, i); }
    } else if e.CopyHash? || e.CopyTreasure? {
      TreasuresNoticed(l, page, answer, e.i);
    }
  }
}
