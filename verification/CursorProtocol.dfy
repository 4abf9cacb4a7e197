/**
 The jobs that work on one session row, interleaved. Every worker loads the row, changes its own
 copy and writes the whole row back, so updates can be lost. Chunks live in an in-progress and a
 completed store; the purge job moves what is left and deletes the row.
 */
module CursorProtocol {
  import opened Core
  import opened SessionCursors

  /** Where the purge job is. `done` counts the chunk indexes whose window has been moved. */
  datatype Purge =
    | Idle
    | Moving(done: nat)
    | Copying(done: nat, hi: nat, read: set<int>)
    | Dropping(done: nat, hi: nat)

  /**
   * `inProgress` and `completed` are the chunks a store holds whole, and `hashed` those whose hash alone can
   * be read from the completed store, which is what the scans ask for. `matched` and `seen` record, for
   * ever, which indexes the tangle was reported to hold.
   */
  datatype State = State(
    row: Option<Cursors>,
    copies: map<nat, Cursors>,
    inProgress: set<int>,
    completed: set<int>,
    hashed: set<int>,
    matched: set<int>,
    seen: set<int>,
    purge: Purge)

  datatype Event =
    | Arrive(idxs: set<int>)
    | Load(w: nat)
    | AttachMatched(w: nat, matches: seq<int>)
    | AttachVerified(w: nat, matches: seq<int>)
    | AttachSent(w: nat, sent: seq<int>)
    | Downgrade(w: nat, bad: seq<int>)
    | VerifyAdvance(w: nat, matches: seq<int>, treasures: seq<int>)
    | AdjustIndexes(w: nat, readFails: bool)
    | WebnodePoW(w: nat, first: bool)
    | Resave(w: nat)
    | CopyHash(i: int)
    | CopyTreasure(i: int)
    | DropChunk(i: int)
    | ListCompleted
    | ReadWindow(hi: nat)
    | CopyWindow(hashes: set<int>, copied: set<int>, ok: bool)
    | DropWindow(dropped: set<int>)
    | PurgeFails
    | DeleteRow

  function Filled(l: Layout, s: State): set<int> {
    l.treasures * s.hashed
  }

  /** The worker's copy becomes `c`; the row is overwritten unless it has been deleted. */
  function Write(s: State, w: nat, c: Cursors): State {
    s.(copies := s.copies[w := c], row := if s.row.Some? then Some(c) else None)
  }

  /** Each of these chunks is held whole by one of the stores. */
  ghost predicate Held(s: State, idxs: seq<int>) {
    forall i :: i in idxs ==> i in s.inProgress + s.completed
  }

  /**
   * Can this step be taken? Lists of chunks were read from the stores. Chunks arrive at any time, also again
   * and after the purge, but only under indexes of the file, since no other index is given a hash.
   */
  ghost predicate Enabled(l: Layout, s: State, e: Event) {
    match e
    case Arrive(idxs) => Inside(l, idxs)
    case Load(w) => s.row.Some?
    case AttachMatched(w, matches) => w in s.copies && Held(s, matches)
    case AttachVerified(w, matches) => w in s.copies && Held(s, matches)
    case AttachSent(w, sent) => w in s.copies && Held(s, sent)
    case Downgrade(w, bad) => w in s.copies && Held(s, bad)
    case VerifyAdvance(w, matches, treasures) =>
      && w in s.copies && Held(s, matches) && Held(s, treasures)
      && (forall i :: i in treasures ==> i in l.treasures)
    case AdjustIndexes(w, readFails) =>
      && w in s.copies
      && s.copies[w].attach == s.copies[w].verify
      && (readFails || forall i :: i in s.inProgress ==> !InFetchRange(l, s.copies[w].attach, 1, i))
    case WebnodePoW(w, first) => w in s.copies && NeedsAttaching(l, s.copies[w])
    case Resave(w) => w in s.copies
    case CopyHash(i) => i in l.treasures && i in s.inProgress + s.completed
    case CopyTreasure(i) => i in l.treasures && i in s.inProgress + s.completed
    case DropChunk(i) => i in s.completed
    case ListCompleted => s.purge.Idle? && s.row.Some? && LooksCompleted(l, s.row.value)
    case ReadWindow(hi) => s.purge.Moving? && s.purge.done < hi <= l.numChunks
    case CopyWindow(hashes, copied, ok) =>
      && s.purge.Copying? && copied <= s.purge.read && (ok ==> copied == s.purge.read)
      && forall i :: i in hashes ==> s.purge.done <= i < s.purge.hi
    case DropWindow(dropped) =>
      s.purge.Dropping? && forall i :: i in dropped ==> s.purge.done <= i < s.purge.hi
    case PurgeFails => !s.purge.Idle?
    case DeleteRow => s.purge.Moving? && s.purge.done >= l.numChunks
  }

  /** Steps in which a worker updates its own copy of the cursors and writes the row. */
  predicate OnCopy(e: Event) {
    || e.AttachMatched? || e.AttachVerified? || e.AttachSent? || e.Downgrade? || e.VerifyAdvance?
    || e.AdjustIndexes? || e.WebnodePoW? || e.Resave?
  }

  function Apply(l: Layout, s: State, e: Event): State
    requires OnCopy(e) ==> e.w in s.copies
    requires e.Load? ==> s.row.Some?
    requires e.ReadWindow? ==> s.purge.Moving?
    requires e.CopyWindow? ==> s.purge.Copying?
    requires e.DropWindow? ==> s.purge.Dropping?
  {
    match e
    case Arrive(idxs) => s.(inProgress := s.inProgress + idxs)
    case Load(w) => s.(copies := s.copies[w := s.row.value])
    case AttachMatched(w, matches) =>
      Write(s.(matched := s.matched + ToSet(matches)), w, AttachAdvanced(l, s.copies[w], matches, Filled(l, s)))
    case AttachVerified(w, matches) =>
      Write(s.(matched := s.matched + ToSet(matches)), w, VerifyAdvanced(l, s.copies[w], matches, Filled(l, s)))
    case AttachSent(w, sent) =>
      Write(s, w, AttachAdvanced(l, s.copies[w], sent, Filled(l, s)))
    case Downgrade(w, bad) =>
      Write(s, w, Downgraded(l, s.copies[w], bad))
    case VerifyAdvance(w, matches, treasures) =>
      Write(s.(matched := s.matched + ToSet(matches), seen := s.seen + ToSet(treasures)), w,
            VerifyAdvanced(l, s.copies[w], matches + treasures, Filled(l, s)))
    case AdjustIndexes(w, _) =>
      Write(s, w, s.copies[w].(attach := StopIdx(l)))
    case WebnodePoW(w, first) =>
      Write(s, w, if first && CanTakeForPoW(l, s.copies[w]) then TakenForPoW(l, s.copies[w]) else s.copies[w])
    case Resave(w) => Write(s, w, s.copies[w])
    case CopyHash(i) => s.(seen := s.seen + {i}, hashed := s.hashed + {i})
    case CopyTreasure(i) => s.(seen := s.seen + {i}, completed := s.completed + {i})
    case DropChunk(i) => s.(inProgress := s.inProgress - {i})
    case ListCompleted => s.(purge := Moving(0))
    case ReadWindow(hi) =>
      s.(purge := Copying(s.purge.done, hi, set i | i in s.inProgress && s.purge.done <= i < hi))
    case CopyWindow(hashes, copied, ok) =>
      s.(hashed := s.hashed + hashes, completed := s.completed + copied,
         purge := if ok then Dropping(s.purge.done, s.purge.hi) else Idle)
    case DropWindow(dropped) => s.(inProgress := s.inProgress - dropped, purge := Moving(s.purge.hi))
    case PurgeFails => s.(purge := Idle)
    case DeleteRow => s.(row := None, purge := Idle)
  }

  /** A session begins without any chunk; they arrive while the jobs may already run. */
  function Start(l: Layout): State {
    State(Some(StartCursors(l)), map[], {}, {}, {}, {}, {}, Idle)
  }

  /** `t` is reached from `s` by taking `events` one after the other. */
  ghost predicate Run(l: Layout, s: State, events: seq<Event>, t: State)
    decreases |events|
  {
    if events == [] then s == t
    else Enabled(l, s, events[0]) && Run(l, Apply(l, s, events[0]), events[1..], t)
  }

  lemma RunOne(l: Layout, s: State, e: Event)
    requires Enabled(l, s, e)
    ensures Run(l, s, [e], Apply(l, s, e))
  {
    var t := Apply(l, s, e);
    assert Run(l, t, [], t);
    assert [e][1..] == [];
  }

  lemma {:induction false} RunJoin(l: Layout, s: State, a: seq<Event>, t: State, b: seq<Event>, u: State)
    requires Run(l, s, a, t) && Run(l, t, b, u)
    ensures Run(l, s, a + b, u)
    decreases |a|
  {
    if a == [] {
      assert a + b == b;
    } else {
      RunJoin(l, Apply(l, s, a[0]), a[1..], t, b, u);
      assert (a + b)[1..] == a[1..] + b;
    }
  }

  lemma OneMore(l: Layout, s: State, events: seq<Event>, t: State, e: Event)
    requires Run(l, s, events, t) && Enabled(l, t, e)
    ensures Run(l, s, events + [e], Apply(l, t, e))
  {
    RunOne(l, t, e);
    RunJoin(l, s, events, t, [e], Apply(l, t, e));
  }

  lemma TwoSteps(l: Layout, s: State, e: Event, f: Event)
    requires Enabled(l, s, e) && Enabled(l, Apply(l, s, e), f)
    ensures Run(l, s, [e, f], Apply(l, Apply(l, s, e), f))
  {
    RunOne(l, s, e);
    RunOne(l, Apply(l, s, e), f);
    RunJoin(l, s, [e], Apply(l, s, e), [f], Apply(l, Apply(l, s, e), f));
    assert [e] + [f] == [e, f];
  }

  ghost predicate Confirmed(s: State, i: int) {
    i in s.matched || i in s.seen
  }

  /** Every index the verify cursor has passed was once reported to be on the tangle. */
  ghost predicate PrefixConfirmed(l: Layout, s: State, c: Cursors) {
    forall i :: InRange(l, i) && Rank(l, i) < Rank(l, c.verify) ==> Confirmed(s, i)
  }

  ghost predicate AllConfirmed(l: Layout, s: State) {
    forall i :: InRange(l, i) ==> Confirmed(s, i)
  }

  ghost predicate GoodCursors(l: Layout, s: State, c: Cursors) {
    ValidCursors(l, c) && PrefixConfirmed(l, s, c)
  }

  /** The chunks from `lo` up to before `hi` are all in the completed store. */
  ghost predicate CompletedFromTo(s: State, lo: int, hi: int) {
    forall i :: lo <= i < hi ==> i in s.completed
  }

  ghost predicate PurgeInv(l: Layout, s: State) {
    && (!s.purge.Idle? ==> AllConfirmed(l, s) && CompletedFromTo(s, 0, s.purge.done))
    && (s.purge.Copying? ==>
          && s.purge.hi <= l.numChunks
          && (forall i :: s.purge.done <= i < s.purge.hi ==> i in s.purge.read || i in s.completed)
          && forall i :: i in s.purge.read ==> i in s.inProgress + s.completed)
    && (s.purge.Dropping? ==> s.purge.hi <= l.numChunks && CompletedFromTo(s, s.purge.done, s.purge.hi))
  }

  /** What is on the tangle was read from a store, and what was stored is still there. */
  ghost predicate EvidenceHeld(l: Layout, s: State) {
    && (forall i :: i in s.inProgress + s.completed ==> InRange(l, i))
    && (forall i :: Confirmed(s, i) ==> i in s.inProgress + s.completed)
    && (forall i :: i in s.hashed ==> Confirmed(s, i))
  }

  ghost predicate Inv(l: Layout, s: State) {
    && EvidenceHeld(l, s)
    && (s.row.Some? ==> GoodCursors(l, s, s.row.value))
    && (forall w :: w in s.copies ==> GoodCursors(l, s, s.copies[w]))
    && PurgeInv(l, s)
    && (s.row.None? ==> AllConfirmed(l, s) && CompletedFromTo(s, 0, l.numChunks))
  }

  /** The indexes a verify advance passes are all confirmed, if what it was given is. */
  lemma VerifyAdvanceConfirmed(l: Layout, s: State, c: Cursors, idxs: seq<int>, filled: set<int>)
    requires GoodCursors(l, s, c) && AllInRange(l, idxs) && Inside(l, filled)
    requires forall i :: i in idxs || i in filled ==> Confirmed(s, i)
    ensures GoodCursors(l, s, VerifyAdvanced(l, c, idxs, filled))
  {
    AdvancesKeepValid(l, c, idxs, filled);
    var hit := ToSet(idxs) + filled;
    ScanFromMaximal(l.sessionType, c.verify, |idxs|, hit);
    forall i | InRange(l, i) && Rank(l, i) < Rank(l, VerifyAdvanced(l, c, idxs, filled).verify)
      ensures Confirmed(s, i)
    {
      if Rank(l, c.verify) <= Rank(l, i) { assert i in hit; }
    }
  }

  /** Writing good cursors back keeps the row and every copy good. */
  lemma WriteKeepsInv(l: Layout, s: State, w: nat, c: Cursors)
    requires Inv(l, s) && GoodCursors(l, s, c)
    ensures Inv(l, Write(s, w, c))
  {
    var t := Write(s, w, c);
    forall v | v in t.copies ensures GoodCursors(l, t, t.copies[v]) {
      assert v == w || v in s.copies;
    }
  }

  /** More evidence of chunks that are held never hurts. */
  lemma EvidenceKeepsInv(l: Layout, s: State, matches: seq<int>, treasures: seq<int>)
    requires Inv(l, s) && Held(s, matches) && Held(s, treasures)
    ensures Inv(l, s.(matched := s.matched + ToSet(matches), seen := s.seen + ToSet(treasures)))
  {
    var t := s.(matched := s.matched + ToSet(matches), seen := s.seen + ToSet(treasures));
    assert forall i :: Confirmed(s, i) ==> Confirmed(t, i);
    forall v | v in t.copies ensures GoodCursors(l, t, t.copies[v]) {
      assert v in s.copies;
    }
  }

  lemma VerifyEventKeepsInv(l: Layout, s: State, e: Event)
    requires Inv(l, s) && Enabled(l, s, e)
    requires e.AttachVerified? || e.VerifyAdvance?
    ensures Inv(l, Apply(l, s, e))
  {
    var c := s.copies[e.w];
    match e
    case AttachVerified(w, matches) =>
      EvidenceKeepsInv(l, s, matches, []);
      var s1 := s.(matched := s.matched + ToSet(matches), seen := s.seen + ToSet([]));
      assert s1 == s.(matched := s.matched + ToSet(matches));
      VerifyAdvanceConfirmed(l, s1, c, matches, Filled(l, s));
      WriteKeepsInv(l, s1, w, VerifyAdvanced(l, c, matches, Filled(l, s)));
    case VerifyAdvance(w, matches, treasures) =>
      EvidenceKeepsInv(l, s, matches, treasures);
      var s1 := s.(matched := s.matched + ToSet(matches), seen := s.seen + ToSet(treasures));
      VerifyAdvanceConfirmed(l, s1, c, matches + treasures, Filled(l, s));
      WriteKeepsInv(l, s1, w, VerifyAdvanced(l, c, matches + treasures, Filled(l, s)));
  }

  lemma AttachEventKeepsInv(l: Layout, s: State, e: Event)
    requires Inv(l, s) && Enabled(l, s, e)
    requires e.AttachMatched? || e.AttachSent?
    ensures Inv(l, Apply(l, s, e))
  {
    var c := s.copies[e.w];
    match e
    case AttachMatched(w, matches) =>
      EvidenceKeepsInv(l, s, matches, []);
      AdvancesKeepValid(l, c, matches, Filled(l, s));
      var s1 := s.(matched := s.matched + ToSet(matches), seen := s.seen + ToSet([]));
      assert s1 == s.(matched := s.matched + ToSet(matches));
      WriteKeepsInv(l, s1, w, AttachAdvanced(l, c, matches, Filled(l, s)));
    case AttachSent(w, sent) =>
      AdvancesKeepValid(l, c, sent, Filled(l, s));
      WriteKeepsInv(l, s, w, AttachAdvanced(l, c, sent, Filled(l, s)));
  }

  lemma CursorEventKeepsInv(l: Layout, s: State, e: Event)
    requires Inv(l, s) && Enabled(l, s, e)
    requires OnCopy(e) || e.Load?
    ensures Inv(l, Apply(l, s, e))
  {
    if e.Load? {
      var t := Apply(l, s, e);
      forall v | v in t.copies ensures GoodCursors(l, t, t.copies[v]) {
        assert v == e.w || v in s.copies;
      }
      return;
    }
    var c := s.copies[e.w];
    if e.AttachVerified? || e.VerifyAdvance? {
      VerifyEventKeepsInv(l, s, e);
      return;
    }
    if e.AttachMatched? || e.AttachSent? {
      AttachEventKeepsInv(l, s, e);
      return;
    }
    match e
    case Downgrade(w, bad) =>
      DowngradeKeepsValid(l, c, bad);
      WriteKeepsInv(l, s, w, Downgraded(l, c, bad));
    case AdjustIndexes(w, _) =>
      WriteKeepsInv(l, s, w, c.(attach := StopIdx(l)));
    case WebnodePoW(w, first) =>
      WriteKeepsInv(l, s, w, if first && CanTakeForPoW(l, c) then TakenForPoW(l, c) else c);
    case Resave(w) =>
      WriteKeepsInv(l, s, w, c);
  }

  function ArrivedBy(e: Event): set<int> {
    if e.Arrive? then e.idxs else {}
  }

  /** A step stores what arrives and loses nothing, wherever the purge is. */
  lemma StepConserves(l: Layout, s: State, e: Event)
    requires PurgeInv(l, s) && Enabled(l, s, e)
    ensures var t := Apply(l, s, e); t.inProgress + t.completed == s.inProgress + s.completed + ArrivedBy(e)
  {
    var t := Apply(l, s, e);
    forall i ensures i in t.inProgress + t.completed <==> i in s.inProgress + s.completed + ArrivedBy(e) {
      if e.DropWindow? && i in e.dropped { assert s.purge.done <= i < s.purge.hi; }
    }
  }

  /** So evidence stays evidence of chunks that are held. */
  lemma StoreEventKeepsHeld(l: Layout, s: State, e: Event)
    requires Inv(l, s) && Enabled(l, s, e)
    requires !OnCopy(e) && !e.Load?
    ensures EvidenceHeld(l, Apply(l, s, e))
  {
    var t := Apply(l, s, e);
    StepConserves(l, s, e);
    assert forall i :: i in s.inProgress + s.completed + ArrivedBy(e) ==> InRange(l, i);
    forall i | i in t.hashed ensures Confirmed(t, i) {
      if e.CopyWindow? && i in e.hashes { assert InRange(l, i); }
      assert i in s.hashed ==> Confirmed(s, i);
    }
    forall i | Confirmed(t, i) ensures i in t.inProgress + t.completed {
      assert Confirmed(s, i) || i in s.inProgress + s.completed;
    }
  }

  lemma StoreEventKeepsPurge(l: Layout, s: State, e: Event)
    requires Inv(l, s) && Enabled(l, s, e)
    requires !OnCopy(e) && !e.Load?
    ensures PurgeInv(l, Apply(l, s, e))
    ensures Apply(l, s, e).row.None? ==>
              AllConfirmed(l, Apply(l, s, e)) && CompletedFromTo(Apply(l, s, e), 0, l.numChunks)
  {
    var t := Apply(l, s, e);
    StepConserves(l, s, e);
    assert forall i :: Confirmed(s, i) ==> Confirmed(t, i);
    if e.ReadWindow? {
      forall i | s.purge.done <= i < e.hi ensures i in t.purge.read || i in t.completed {
        assert InRange(l, i) && Confirmed(s, i);
      }
    }
  }

  lemma StoreEventKeepsInv(l: Layout, s: State, e: Event)
    requires Inv(l, s) && Enabled(l, s, e)
    requires !OnCopy(e) && !e.Load?
    ensures Inv(l, Apply(l, s, e))
  {
    var t := Apply(l, s, e);
    assert forall i :: Confirmed(s, i) ==> Confirmed(t, i);
    forall v | v in t.copies ensures GoodCursors(l, t, t.copies[v]) {
      assert v in s.copies;
    }
    StoreEventKeepsHeld(l, s, e);
    StoreEventKeepsPurge(l, s, e);
  }

  lemma StepKeepsInv(l: Layout, s: State, e: Event)
    requires Inv(l, s) && Enabled(l, s, e)
    ensures Inv(l, Apply(l, s, e))
  {
    if OnCopy(e) || e.Load? {
      CursorEventKeepsInv(l, s, e);
    } else {
      StoreEventKeepsInv(l, s, e);
    }
  }

  lemma {:induction false} RunKeepsInv(l: Layout, s: State, events: seq<Event>, t: State)
    requires Inv(l, s) && Run(l, s, events, t)
    ensures Inv(l, t)
    decreases |events|
  {
    if events != [] {
      StepKeepsInv(l, s, events[0]);
      RunKeepsInv(l, Apply(l, s, events[0]), events[1..], t);
    }
  }

  /** The state is one that interleaved workers can bring about. */
  ghost predicate Reachable(l: Layout, s: State) {
    exists events :: Run(l, Start(l), events, s)
  }

  lemma ReachableIsGood(l: Layout, s: State)
    requires Reachable(l, s)
    ensures Inv(l, s)
  {
    var events :| Run(l, Start(l), events, s);
    RunKeepsInv(l, Start(l), events, s);
  }

  /** A run leads from reachable states to reachable ones. */
  lemma RunReaches(l: Layout, s: State, events: seq<Event>, t: State)
    requires Run(l, s, events, t)
    ensures Reachable(l, s) ==> Reachable(l, t)
  {
    if Reachable(l, s) {
      var before :| Run(l, Start(l), before, s);
      RunJoin(l, Start(l), before, s, events, t);
    }
  }

  /** Under every interleaving the stored cursors stay in order and in bounds. */
  lemma RowAlwaysValid(l: Layout, events: seq<Event>, t: State)
    requires Run(l, Start(l), events, t) && t.row.Some?
    ensures l.sessionType.Alpha? ==> 0 <= t.row.value.verify <= t.row.value.attach <= l.numChunks
    ensures l.sessionType.Beta? ==> -1 <= t.row.value.attach <= t.row.value.verify <= l.numChunks - 1
  {
    RunKeepsInv(l, Start(l), events, t);
  }

  /**
   * Under every interleaving, what lies behind the verify cursor was once reported on the tangle, and a
   * store still holds all of it.
   */
  lemma BehindVerifyConfirmed(l: Layout, events: seq<Event>, t: State, i: int)
    requires Run(l, Start(l), events, t) && t.row.Some? && InRange(l, i)
    requires if l.sessionType.Alpha? then i < t.row.value.verify else i > t.row.value.verify
    ensures i in t.matched || i in t.seen
    ensures i in t.inProgress || i in t.completed
  {
    RunKeepsInv(l, Start(l), events, t);
    assert Confirmed(t, i);
  }

  /** A deleted session had every chunk of the file confirmed, and the completed store holds every one. */
  lemma PurgedOnlyWhenConfirmed(l: Layout, events: seq<Event>, t: State)
    requires Run(l, Start(l), events, t) && t.row.None?
    ensures forall i :: 0 <= i < l.numChunks ==> i in t.matched || i in t.seen
    ensures forall i :: 0 <= i < l.numChunks ==> i in t.completed
  {
    RunKeepsInv(l, Start(l), events, t);
    forall i | 0 <= i < l.numChunks ensures i in t.matched || i in t.seen {
      assert InRange(l, i);
    }
  }

  /** All chunks that arrive in a run. */
  function Arrived(events: seq<Event>): set<int> {
    if events == [] then {} else ArrivedBy(events[0]) + Arrived(events[1..])
  }

  /** No interleaving of arrivals, moves, purges and failures loses a chunk or invents one. */
  lemma {:induction false} ChunksConserved(l: Layout, s: State, events: seq<Event>, t: State)
    requires Reachable(l, s) && Run(l, s, events, t)
    ensures t.inProgress + t.completed == s.inProgress + s.completed + Arrived(events)
    decreases |events|
  {
    if events != [] {
      var next := Apply(l, s, events[0]);
      ReachableIsGood(l, s);
      StepConserves(l, s, events[0]);
      RunOne(l, s, events[0]);
      RunReaches(l, s, [events[0]], next);
      ChunksConserved(l, next, events[1..], t);
    }
  }
}
