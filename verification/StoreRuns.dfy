/** The chunk stores as the cursor protocol sees them, with arrivals of chunks and moves of treasures as its runs. */
module StoreRuns {
  import opened Core
  import opened SessionCursors
  import opened CursorProtocol
  import opened BadgerKeys
  import opened ChunkStores
  import opened ChunkDatabase
  import opened HashChain
  import opened UploadSessions
  import opened TangleCheck
  import opened AttachJob
  import Trytes

  // ---- The protocol's view of the database ----

  /** The indexes of the file whose chunk the store holds whole. */
  function HeldIdxs(l: Layout, db: ChunkDb, s: Stores, p: Prefix): (idxs: set<int>)
    ensures forall i :: i in idxs <==> InRange(l, i) && s.Holds(p, GetBadgerKey(db.genesisHash, i))
  {
    set i | 0 <= i < l.numChunks && s.Holds(p, GetBadgerKey(db.genesisHash, i))
  }

  /** The indexes of the file whose hash can be read from the completed store. */
  function HashedIdxs(l: Layout, db: ChunkDb, s: Stores): (idxs: set<int>)
    ensures forall i :: i in idxs <==> InRange(l, i) && HashData(s, Completed, db.genesisHash, i) != ""
  {
    set i | 0 <= i < l.numChunks && HashData(s, Completed, db.genesisHash, i) != ""
  }

  /** The protocol state has the chunks where the stores have them, and no hash outside the file is completed. */
  ghost predicate Shows(l: Layout, db: ChunkDb, st: State, s: Stores) {
    && HashedInside(s, db.genesisHash, l.numChunks)
    && st.inProgress == HeldIdxs(l, db, s, InProgress)
    && st.completed == HeldIdxs(l, db, s, Completed)
    && st.hashed == HashedIdxs(l, db, s)
  }

  /** The protocol state is the state of the stores, of worker `w`'s copy and of the row, unless that was deleted. */
  ghost predicate Represents(l: Layout, db: ChunkDb, w: nat, st: State, at: Snapshot) {
    && Shows(l, db, st, at.stores)
    && (st.row.Some? ==> st.row == Some(at.row))
    && w in st.copies && st.copies[w] == at.copy
  }

  lemma SameFilled(l: Layout, db: ChunkDb, st: State, s: Stores)
    requires Shows(l, db, st, s)
    ensures Filled(l, st) == FilledTreasures(l, s, db.genesisHash)
  {
  }

  ghost predicate Viewed(db: ChunkDb, s: Stores, chunks: seq<ChunkData>) {
    forall c :: c in chunks ==> View(s, db.KeyOf(c)).Some?
  }

  lemma ViewedLater(db: ChunkDb, s: Stores, t: Stores, chunks: seq<ChunkData>)
    requires Viewed(db, s, chunks) && SameView(s, t)
    ensures Viewed(db, t, chunks)
  {
    forall c | c in chunks ensures View(t, db.KeyOf(c)).Some? { assert View(s, db.KeyOf(c)).Some?; }
  }

  /** Chunks of the file that a reader finds are held by one of the stores. */
  lemma ViewedAreHeld(l: Layout, db: ChunkDb, st: State, s: Stores, chunks: seq<ChunkData>)
    requires Shows(l, db, st, s) && Viewed(db, s, chunks) && AllInRange(l, IdxsOf(chunks))
    ensures Held(st, IdxsOf(chunks))
  {
    forall i | i in IdxsOf(chunks) ensures i in st.inProgress + st.completed {
      var k :| 0 <= k < |chunks| && chunks[k].idx == i;
      assert View(s, db.KeyOf(chunks[k])).Some?;
    }
  }

  // ---- Arrivals ----

  lemma FilledAt(l: Layout, db: ChunkDb, s: Stores, kind: Kind, kvs: map<string, string>, t: Stores, i: int)
    requires PartialSet(s, InProgress, kind, kvs, t)
    ensures var key := GetBadgerKey(db.genesisHash, i);
            && (s.Holds(InProgress, key) ==> t.Holds(InProgress, key))
            && (s.Holds(Completed, key) <==> t.Holds(Completed, key))
            && HashData(t, Completed, db.genesisHash, i) == HashData(s, Completed, db.genesisHash, i)
  {
    var key := GetBadgerKey(db.genesisHash, i);
    assert forall k: Kind :: t.Get(Completed, k) == s.Get(Completed, k);
    forall k: Kind ensures key in s.Get(InProgress, k) ==> key in t.Get(InProgress, k) {
      if k == kind {
        assert Lookup(t.Get(InProgress, k), key) == Lookup(s.Get(InProgress, k), key)
               || (key in kvs && Lookup(t.Get(InProgress, k), key) == Some(kvs[key]));
      } else {
        assert t.Get(InProgress, k) == s.Get(InProgress, k);
      }
    }
  }

  /** Whatever hashes or messages are written in progress, and however many of them: the chunks they complete arrive. */
  lemma FillingIsArrival(l: Layout, db: ChunkDb, s: Stores, kind: Kind, kvs: map<string, string>, t: Stores, st: State)
      returns (idxs: set<int>, u: State)
    requires PartialSet(s, InProgress, kind, kvs, t) && Shows(l, db, st, s)
    ensures Run(l, st, [Arrive(idxs)], u) && Shows(l, db, u, t)
    ensures idxs == HeldIdxs(l, db, t, InProgress) - HeldIdxs(l, db, s, InProgress)
    ensures u == st.(inProgress := u.inProgress)
  {
    idxs := HeldIdxs(l, db, t, InProgress) - HeldIdxs(l, db, s, InProgress);
    forall i
      ensures i in HeldIdxs(l, db, s, InProgress) ==> i in HeldIdxs(l, db, t, InProgress)
      ensures i in HeldIdxs(l, db, s, Completed) <==> i in HeldIdxs(l, db, t, Completed)
      ensures i in HashedIdxs(l, db, s) <==> i in HashedIdxs(l, db, t)
    {
      FilledAt(l, db, s, kind, kvs, t, i);
    }
    FillingKeepsInside(s, kind, kvs, t, db.genesisHash, l.numChunks);
    RunOne(l, st, Arrive(idxs));
    u := Apply(l, st, Arrive(idxs));
    assert u.inProgress == HeldIdxs(l, db, t, InProgress);
  }

  // ---- Moves of treasures ----

  datatype MoveStep = HashStep | WholeStep | DropStep

  function StepEvent(k: MoveStep, i: int): Event {
    match k
    case HashStep => CopyHash(i)
    case WholeStep => CopyTreasure(i)
    case DropStep => DropChunk(i)
  }

  ghost predicate CanStep(l: Layout, st: State, k: MoveStep, idxs: set<int>) {
    forall i :: i in idxs ==> Enabled(l, st, StepEvent(k, i))
  }

  function Stepped(st: State, k: MoveStep, idxs: set<int>): State {
    match k
    case HashStep => st.(seen := st.seen + idxs, hashed := st.hashed + idxs)
    case WholeStep => st.(seen := st.seen + idxs, completed := st.completed + idxs)
    case DropStep => st.(inProgress := st.inProgress - idxs)
  }

  /** The event moves one of these chunks. */
  predicate MoveOf(e: Event, idxs: set<int>) {
    (e.CopyHash? || e.CopyTreasure? || e.DropChunk?) && e.i in idxs
  }

  predicate StepOf(e: Event, k: MoveStep, idxs: set<int>) {
    exists i :: i in idxs && e == StepEvent(k, i)
  }

  lemma {:induction false} StepsRun(l: Layout, st: State, k: MoveStep, idxs: set<int>) returns (events: seq<Event>)
    requires CanStep(l, st, k, idxs)
    ensures Run(l, st, events, Stepped(st, k, idxs))
    ensures forall e :: e in events ==> StepOf(e, k, idxs)
    decreases |idxs|
  {
    if i :| i in idxs {
      var e, rest := StepEvent(k, i), idxs - {i};
      var next := Apply(l, st, e);
      forall j | j in rest ensures Enabled(l, next, StepEvent(k, j)) {
        assert Enabled(l, st, StepEvent(k, j));
      }
      var later := StepsRun(l, next, k, rest);
      forall f | f in [e] + later ensures StepOf(f, k, idxs) {
        if f in later { var j :| j in rest && f == StepEvent(k, j); }
      }
      SteppedJoin(st, k, i, rest);
      assert {i} + rest == idxs;
      RunOne(l, st, e);
      RunJoin(l, st, [e], next, later, Stepped(st, k, idxs));
      events := [e] + later;
    } else {
      events := [];
      NoneIsEmpty(idxs);
      NoSteps(st, k);
    }
  }

  lemma NoneIsEmpty(idxs: set<int>)
    requires !exists i :: i in idxs
    ensures idxs == {}
  {
    assert forall i :: i in idxs <==> i in {};
  }

  lemma NoSteps(st: State, k: MoveStep)
    ensures Stepped(st, k, {}) == st
  {
    assert st.seen + {} == st.seen && st.hashed + {} == st.hashed && st.completed + {} == st.completed;
    assert st.inProgress - {} == st.inProgress;
  }

  lemma SteppedJoin(st: State, k: MoveStep, i: int, rest: set<int>)
    ensures Stepped(Stepped(st, k, {i}), k, rest) == Stepped(st, k, {i} + rest)
  {
    match k
    case HashStep =>
      assert st.seen + {i} + rest == st.seen + ({i} + rest) && st.hashed + {i} + rest == st.hashed + ({i} + rest);
    case WholeStep =>
      assert st.seen + {i} + rest == st.seen + ({i} + rest);
      assert st.completed + {i} + rest == st.completed + ({i} + rest);
    case DropStep =>
      assert st.inProgress - {i} - rest == st.inProgress - ({i} + rest);
  }

  lemma StepIsMove(e: Event, k: MoveStep, idxs: set<int>)
    requires StepOf(e, k, idxs)
    ensures MoveOf(e, idxs) && (k.DropStep? ==> e.DropChunk?)
  {
  }

  /** Copies of hashes, then of whole chunks, then deletions. */
  lemma ThreeSteps(l: Layout, st: State, hashes: set<int>, wholes: set<int>, gone: set<int>)
      returns (events: seq<Event>, u: State)
    requires hashes + wholes <= l.treasures && hashes + wholes <= st.inProgress + st.completed
    requires gone <= st.completed + wholes
    ensures Run(l, st, events, u)
    ensures u == st.(seen := u.seen, hashed := st.hashed + hashes, completed := st.completed + wholes,
                     inProgress := st.inProgress - gone)
    ensures forall e :: e in events ==> MoveOf(e, hashes + wholes + gone)
  {
    var st1 := Stepped(st, HashStep, hashes);
    var st2 := Stepped(st1, WholeStep, wholes);
    u := Stepped(st2, DropStep, gone);
    var a := StepsRun(l, st, HashStep, hashes);
    var b := StepsRun(l, st1, WholeStep, wholes);
    var c := StepsRun(l, st2, DropStep, gone);
    RunJoin(l, st, a, st1, b, st2);
    RunJoin(l, st, a + b, st2, c, u);
    events := a + b + c;
    forall e | e in events ensures MoveOf(e, hashes + wholes + gone) {
      if e in a { StepIsMove(e, HashStep, hashes); }
      if e in b { StepIsMove(e, WholeStep, wholes); }
      if e in c { StepIsMove(e, DropStep, gone); }
    }
  }

  ghost predicate AllTreasures(l: Layout, chunks: seq<ChunkData>) {
    forall c :: c in chunks ==> c.idx in l.treasures
  }

  /** What the two stores hold at one index after a move, compared with before. */
  lemma MovedAt(l: Layout, db: ChunkDb, s: Stores, t: Stores, moved: seq<ChunkData>, i: int)
    requires Moves(db, s, t, moved) && Viewed(db, s, moved) && AllTreasures(l, moved)
    ensures var key := GetBadgerKey(db.genesisHash, i);
            && (s.Holds(Completed, key) ==> t.Holds(Completed, key))
            && (HashData(s, Completed, db.genesisHash, i) != "" ==>
                  HashData(t, Completed, db.genesisHash, i) == HashData(s, Completed, db.genesisHash, i))
            && (t.Holds(InProgress, key) ==> s.Holds(InProgress, key))
            && (s.Holds(InProgress, key) && !t.Holds(InProgress, key) ==> t.Holds(Completed, key))
    ensures var key := GetBadgerKey(db.genesisHash, i);
            (i in IdxsOf(moved) && i in l.treasures && (s.Holds(InProgress, key) || s.Holds(Completed, key)))
            || (s.Holds(InProgress, key) == t.Holds(InProgress, key)
                && s.Holds(Completed, key) == t.Holds(Completed, key)
                && HashData(s, Completed, db.genesisHash, i) == HashData(t, Completed, db.genesisHash, i))
  {
    var key := GetBadgerKey(db.genesisHash, i);
    forall kind: Kind
      ensures Keeps(s.Get(Completed, kind), t.Get(Completed, kind), key)
      ensures Keeps(t.Get(InProgress, kind), s.Get(InProgress, kind), key)
    {
    }
    assert View(s, key) == View(t, key);
    if key in db.KeysOfChunks(moved) {
      var c :| c in moved && db.KeyOf(c) == key;
      KeyInjective(db.genesisHash, c.idx, i);
      var n :| 0 <= n < |moved| && moved[n] == c;
      assert IdxsOf(moved)[n] == i;
    } else {
      assert forall kind: Kind :: Lookup(t.Get(Completed, kind), key) == Lookup(s.Get(Completed, kind), key);
      assert forall kind: Kind :: Lookup(t.Get(InProgress, kind), key) == Lookup(s.Get(InProgress, kind), key);
    }
  }

  /** What a move of treasures did to the sets of indexes. */
  lemma MovedSets(l: Layout, db: ChunkDb, s: Stores, t: Stores, moved: seq<ChunkData>)
    requires Moves(db, s, t, moved) && Viewed(db, s, moved) && AllTreasures(l, moved)
    ensures HashedIdxs(l, db, s) <= HashedIdxs(l, db, t)
    ensures HeldIdxs(l, db, s, Completed) <= HeldIdxs(l, db, t, Completed)
    ensures HeldIdxs(l, db, t, InProgress) <= HeldIdxs(l, db, s, InProgress)
    ensures HeldIdxs(l, db, s, InProgress) - HeldIdxs(l, db, t, InProgress) <= HeldIdxs(l, db, t, Completed)
    ensures var added := (HashedIdxs(l, db, t) - HashedIdxs(l, db, s))
                       + (HeldIdxs(l, db, t, Completed) - HeldIdxs(l, db, s, Completed));
            added <= l.treasures && added <= HeldIdxs(l, db, s, InProgress) + HeldIdxs(l, db, s, Completed)
            && added <= ToSet(IdxsOf(moved))
    ensures HeldIdxs(l, db, s, InProgress) - HeldIdxs(l, db, t, InProgress) <= ToSet(IdxsOf(moved))
  {
    forall i
      ensures i in HeldIdxs(l, db, s, Completed) ==> i in HeldIdxs(l, db, t, Completed)
      ensures i in HashedIdxs(l, db, s) ==> i in HashedIdxs(l, db, t)
      ensures i in HeldIdxs(l, db, t, InProgress) ==> i in HeldIdxs(l, db, s, InProgress)
      ensures i in HeldIdxs(l, db, s, InProgress) && i !in HeldIdxs(l, db, t, InProgress) ==>
                i in HeldIdxs(l, db, t, Completed)
      ensures (i in HeldIdxs(l, db, t, Completed) && i !in HeldIdxs(l, db, s, Completed))
              || (i in HashedIdxs(l, db, t) && i !in HashedIdxs(l, db, s)) ==>
                i in IdxsOf(moved) && i in l.treasures
                && i in HeldIdxs(l, db, s, InProgress) + HeldIdxs(l, db, s, Completed)
      ensures i in HeldIdxs(l, db, s, InProgress) && i !in HeldIdxs(l, db, t, InProgress) ==> i in IdxsOf(moved)
    {
      MovedAt(l, db, s, t, moved, i);
    }
  }

  /** So it is a run. */
  lemma MovesRun(l: Layout, db: ChunkDb, st: State, s: Stores, t: Stores, moved: seq<ChunkData>)
      returns (events: seq<Event>, u: State)
    requires Moves(db, s, t, moved) && Viewed(db, s, moved) && AllTreasures(l, moved) && Shows(l, db, st, s)
    requires AllInRange(l, IdxsOf(moved))
    ensures Run(l, st, events, u) && Shows(l, db, u, t)
    ensures u.row == st.row && u.copies == st.copies && u.matched == st.matched && u.purge == st.purge
    ensures forall e :: e in events ==> MoveOf(e, ToSet(IdxsOf(moved)))
  {
    MovedSets(l, db, s, t, moved);
    MovesKeepInside(l, db, s, t, moved);
    var hashes := HashedIdxs(l, db, t) - st.hashed;
    var wholes := HeldIdxs(l, db, t, Completed) - st.completed;
    var gone := st.inProgress - HeldIdxs(l, db, t, InProgress);
    events, u := ThreeSteps(l, st, hashes, wholes, gone);
    assert u.hashed == HashedIdxs(l, db, t) && u.completed == HeldIdxs(l, db, t, Completed);
    assert u.inProgress == HeldIdxs(l, db, t, InProgress);
  }

  // ---- Steps on the cursors ----

  /** The worker's copy, and the row with it when the worker wrote it; the chunks are where they were. */
  ghost predicate Left(s: State, t: State, w: nat, c: Cursors, wrote: bool) {
    && w in t.copies && t.copies[w] == c
    && t.row == (if wrote && s.row.Some? then Some(c) else s.row)
    && t.inProgress == s.inProgress && t.completed == s.completed && t.hashed == s.hashed
  }

  lemma LeftRepresents(l: Layout, db: ChunkDb, w: nat, s: State, t: State, before: Snapshot, after: Snapshot,
                       wrote: bool)
    requires Shows(l, db, s, after.stores) && (s.row.Some? ==> s.row == Some(before.row))
    requires Left(s, t, w, after.copy, wrote) && after.row == if wrote then after.copy else before.row
    ensures Represents(l, db, w, t, after)
  {
  }

  // ---- What the evidence is worth ----

  /** A chunk of the list with this index is at a proper address, where a transaction found carries its message. */
  ghost predicate Carried(chunks: seq<ChunkData>, answer: TangleAnswer, i: int) {
    exists c :: c in chunks && c.idx == i && Trytes.IsTrytes(c.address) && OnTangle(answer, c)
  }

  /** A chunk of the list with this index is at a proper address, where some transaction was found. */
  ghost predicate Noticed(chunks: seq<ChunkData>, answer: TangleAnswer, lookup: Lookups, i: int) {
    exists c :: c in chunks && c.idx == i && Trytes.IsTrytes(c.address)
                && (Seen(answer, c) || c.address in lookup.present)
  }

  const NO_LOOKUPS := Lookups({}, {})

  /** What an event records of the tangle is what the tangle answered about the list. */
  ghost predicate Truthful(chunks: seq<ChunkData>, answer: TangleAnswer, lookup: Lookups, e: Event) {
    match e
    case AttachMatched(_, matches) => forall i :: i in matches ==> Carried(chunks, answer, i)
    case AttachVerified(_, matches) => forall i :: i in matches ==> Carried(chunks, answer, i)
    case VerifyAdvance(_, matches, treasures) =>
      && (forall i :: i in matches ==> Carried(chunks, answer, i))
      && (forall i :: i in treasures ==> Noticed(chunks, answer, lookup, i))
    case CopyHash(i) => Noticed(chunks, answer, lookup, i)
    case CopyTreasure(i) => Noticed(chunks, answer, lookup, i)
    case _ => true
  }
}
