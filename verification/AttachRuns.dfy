/**
 * The attach job as runs of the cursor protocol: whatever a batch does to the row, the worker's copy and the
 * chunk stores, a run of protocol steps of that worker does. Other workers may have written the row since it
 * was loaded, and the purge may have deleted it. Whole passes, in PassRuns, are passes nobody interrupts.
 */
module AttachRuns {
  import opened Core
  import opened SessionCursors
  import opened CursorProtocol
  import opened ChunkStores
  import opened ChunkDatabase
  import opened UploadSessions
  import opened TangleCheck
  import opened TreasureMerge
  import opened AttachJob
  import opened StoreRuns
  import Trytes

  /** The steps of a batch on the cursors, as far as it takes any. */
  function BatchEvents(w: nat, b: Batch, powEnabled: bool): seq<Event> {
    (if b.matches == [] then []
     else [AttachMatched(w, IdxsOf(b.matches)), AttachVerified(w, IdxsOf(b.matches))])
    + if powEnabled && b.toSend != [] then [AttachSent(w, IdxsOf(b.toSend))] else []
  }

  lemma MatchesRun(l: Layout, s: State, w: nat, b: Batch) returns (t: State)
    requires w in s.copies && Held(s, IdxsOf(b.matches))
    ensures Run(l, s, BatchEvents(w, b, false), t)
    ensures Left(s, t, w, MatchedCursors(l, s.copies[w], b.matches, Filled(l, s)), b.matches != [])
  {
    t := s;
    if b.matches != [] {
      var e, f := AttachMatched(w, IdxsOf(b.matches)), AttachVerified(w, IdxsOf(b.matches));
      TwoSteps(l, s, e, f);
      t := Apply(l, Apply(l, s, e), f);
      assert BatchEvents(w, b, false) == [e, f];
    }
  }

  lemma BatchCursorsRun(l: Layout, s: State, w: nat, b: Batch, powEnabled: bool) returns (t: State)
    requires w in s.copies && Held(s, IdxsOf(b.matches)) && Held(s, IdxsOf(b.toSend))
    ensures Run(l, s, BatchEvents(w, b, powEnabled), t)
    ensures var matched := MatchedCursors(l, s.copies[w], b.matches, Filled(l, s));
            Left(s, t, w, SentCursors(l, matched, b.toSend, powEnabled, Filled(l, s)),
                 b.matches != [] || (powEnabled && b.toSend != []))
  {
    t := MatchesRun(l, s, w, b);
    if powEnabled && b.toSend != [] {
      var e := AttachSent(w, IdxsOf(b.toSend));
      assert BatchEvents(w, b, powEnabled) == BatchEvents(w, b, false) + [e];
      OneMore(l, s, BatchEvents(w, b, false), t, e);
      t := Apply(l, t, e);
    }
  }

  /** One batch of the attach job, moves included, is a run from the state before it to the state after it. */
  lemma BatchIsRun(l: Layout, db: ChunkDb, w: nat, chunks: seq<ChunkData>, lookup: Lookups, answer: TangleAnswer,
                   powEnabled: bool, before: Snapshot, after: Snapshot, st: State)
      returns (moves: seq<Event>, u: State)
    requires InScanOrder(l.sessionType, chunks) && AllInRange(l, IdxsOf(chunks))
    requires Viewed(db, before.stores, chunks) && Represents(l, db, w, st, before)
    requires BatchEffect(l, db, BatchOf(l, chunks, lookup, answer), powEnabled, before, after)
    ensures var b := BatchOf(l, chunks, lookup, answer);
            && (forall e :: e in moves ==> MoveOf(e, ToSet(IdxsOf(b.moved))))
            && Run(l, st, moves + BatchEvents(w, b, powEnabled), u)
    ensures Represents(l, db, w, u, after)
  {
    var b := BatchOf(l, chunks, lookup, answer);
    forall c | c in b.moved ensures c in chunks && c.idx in l.treasures { MovedIsTreasure(l, chunks, lookup, c); }
    MovedInRange(l, chunks, lookup);
    BatchInRange(l, chunks, lookup, answer);
    forall c | c in b.matches || c in b.toSend ensures c in chunks { BatchFrom(l, chunks, lookup, answer, c); }
    moves, u := EffectIsRun(l, db, w, b, powEnabled, before, after, st);
  }

  lemma BatchFrom(l: Layout, chunks: seq<ChunkData>, lookup: Lookups, answer: TangleAnswer, c: ChunkData)
    requires InScanOrder(l.sessionType, chunks)
    ensures var b := BatchOf(l, chunks, lookup, answer); c in b.matches || c in b.toSend ==> c in chunks
  {
    BatchPartitions(l, chunks, lookup, answer);
    var b := BatchOf(l, chunks, lookup, answer);
    if c in b.matches || c in b.toSend {
      assert c in multiset(b.matches) + multiset(b.toSend) && c in multiset(chunks);
    }
  }

  lemma EffectIsRun(l: Layout, db: ChunkDb, w: nat, b: Batch, powEnabled: bool, before: Snapshot, after: Snapshot,
                    st: State) returns (moves: seq<Event>, u: State)
    requires AllInRange(l, IdxsOf(b.matches)) && AllInRange(l, IdxsOf(b.toSend)) && AllInRange(l, IdxsOf(b.moved))
    requires Viewed(db, before.stores, b.moved) && AllTreasures(l, b.moved) && Represents(l, db, w, st, before)
    requires Viewed(db, before.stores, b.matches) && Viewed(db, before.stores, b.toSend)
    requires BatchEffect(l, db, b, powEnabled, before, after)
    ensures forall e :: e in moves ==> MoveOf(e, ToSet(IdxsOf(b.moved)))
    ensures Run(l, st, moves + BatchEvents(w, b, powEnabled), u) && Represents(l, db, w, u, after)
  {
    var a, m := MovesRun(l, db, st, before.stores, after.stores, b.moved);
    ViewedLater(db, before.stores, after.stores, b.matches);
    ViewedLater(db, before.stores, after.stores, b.toSend);
    ViewedAreHeld(l, db, m, after.stores, b.matches);
    ViewedAreHeld(l, db, m, after.stores, b.toSend);
    SameFilled(l, db, m, after.stores);
    moves := a;
    u := BatchCursorsRun(l, m, w, b, powEnabled);
    LeftRepresents(l, db, w, m, u, before, after, b.matches != [] || (powEnabled && b.toSend != []));
    RunJoin(l, st, moves, m, BatchEvents(w, b, powEnabled), u);
  }

  lemma MatchesCarried(l: Layout, chunks: seq<ChunkData>, lookup: Lookups, answer: TangleAnswer, i: int)
    requires InScanOrder(l.sessionType, chunks) && i in IdxsOf(BatchOf(l, chunks, lookup, answer).matches)
    ensures Carried(chunks, answer, i)
  {
    var matches := BatchOf(l, chunks, lookup, answer).matches;
    var n :| 0 <= n < |matches| && matches[n].idx == i;
    BatchMeans(l, chunks, lookup, answer, matches[n]);
    HeardIsOnTangle(answer, matches[n]);
  }

  lemma MovedNoticed(l: Layout, chunks: seq<ChunkData>, lookup: Lookups, answer: TangleAnswer, i: int)
    requires InScanOrder(l.sessionType, chunks) && i in IdxsOf(HandledChunks(l, chunks, lookup).moved)
    ensures Noticed(chunks, answer, lookup, i)
  {
    var moved := HandledChunks(l, chunks, lookup).moved;
    var n :| 0 <= n < |moved| && moved[n].idx == i;
    MovedWasPresent(l, chunks, lookup, moved[n]);
  }

  /** What a batch records as matched or seen was found on the tangle. */
  lemma BatchIsTruthful(l: Layout, w: nat, chunks: seq<ChunkData>, lookup: Lookups, answer: TangleAnswer,
                        powEnabled: bool, e: Event)
    requires InScanOrder(l.sessionType, chunks)
    requires var b := BatchOf(l, chunks, lookup, answer);
             MoveOf(e, ToSet(IdxsOf(b.moved))) || e in BatchEvents(w, b, powEnabled)
    ensures Truthful(chunks, answer, lookup, e)
  {
    var b := BatchOf(l, chunks, lookup, answer);
    if e.AttachMatched? || e.AttachVerified? {
      forall i | i in e.matches ensures Carried(chunks, answer, i) { MatchesCarried(l, chunks, lookup, answer, i); }
    } else if e.CopyHash? || e.CopyTreasure? {
      MovedNoticed(l, chunks, lookup, answer, e.i);
    }
  }

  lemma MovedWasPresent(l: Layout, chunks: seq<ChunkData>, lookup: Lookups, c: ChunkData)
    requires InScanOrder(l.sessionType, chunks) && c in HandledChunks(l, chunks, lookup).moved
    ensures c in chunks && Trytes.IsTrytes(c.address) && c.address in lookup.present
  {
    MovedMeans(l, chunks, lookup, c);
    var k :| 0 <= k < |chunks| && chunks[k] == c && c.idx in l.treasures && c.address in lookup.present
             && !SearchFails(l, chunks[..k + 1], lookup);
    assert chunks[..k + 1][k] == c;
    assert Answered(lookup, chunks[..k + 1][k]);
  }
}
