/** What the attach cursor proves, and which steps of the cursor protocol keep it from proving more. */
module AttachCursor {
  import opened Core
  import opened SessionCursors
  import opened CursorProtocol

  ghost predicate BehindAttach(l: Layout, s: State, c: Cursors) {
    forall i :: InRange(l, i) && Rank(l, i) < Rank(l, c.attach) ==> Confirmed(s, i)
  }

  /** Everything the attach cursor of the row or of any copy has passed is confirmed. */
  ghost predicate AttachConfirmed(l: Layout, s: State) {
    && (s.row.Some? ==> BehindAttach(l, s, s.row.value))
    && forall w :: w in s.copies ==> BehindAttach(l, s, s.copies[w])
  }

  /** The steps that move the attach cursor on without an answer of the tangle. */
  predicate MovesAttachUnseen(e: Event) {
    e.AttachSent? || e.AdjustIndexes? || e.WebnodePoW?
  }

  lemma AttachAdvanceConfirmed(l: Layout, s: State, c: Cursors, idxs: seq<int>, filled: set<int>)
    requires BehindAttach(l, s, c) && forall i :: i in idxs || i in filled ==> Confirmed(s, i)
    ensures BehindAttach(l, s, AttachAdvanced(l, c, idxs, filled))
  {
    var hit := ToSet(idxs) + filled;
    ScanFromMaximal(l.sessionType, c.attach, |idxs|, hit);
    forall i | InRange(l, i) && Rank(l, i) < Rank(l, AttachAdvanced(l, c, idxs, filled).attach)
      ensures Confirmed(s, i)
    {
      if Rank(l, c.attach) <= Rank(l, i) { assert i in hit; }
    }
  }

  lemma WriteKeepsAttach(l: Layout, s: State, w: nat, c: Cursors)
    requires AttachConfirmed(l, s) && BehindAttach(l, s, c)
    ensures AttachConfirmed(l, Write(s, w, c))
  {
    var t := Write(s, w, c);
    assert forall i :: Confirmed(t, i) <==> Confirmed(s, i);
    forall v | v in t.copies ensures BehindAttach(l, t, t.copies[v]) {
      assert v == w || v in s.copies;
    }
  }

  lemma EvidenceKeepsAttach(l: Layout, s: State, t: State)
    requires AttachConfirmed(l, s) && t.row == s.row && t.copies == s.copies
    requires forall i :: Confirmed(s, i) ==> Confirmed(t, i)
    ensures AttachConfirmed(l, t)
  {
    forall v | v in t.copies ensures BehindAttach(l, t, t.copies[v]) {
      assert v in s.copies;
    }
  }

  lemma StepKeepsAttach(l: Layout, s: State, e: Event)
    requires Inv(l, s) && AttachConfirmed(l, s) && Enabled(l, s, e) && !MovesAttachUnseen(e)
    ensures AttachConfirmed(l, Apply(l, s, e))
  {
    if !OnCopy(e) {
      var t := Apply(l, s, e);
      assert forall i :: Confirmed(s, i) ==> Confirmed(t, i);
      forall v | v in t.copies ensures BehindAttach(l, t, t.copies[v]) {
        assert v in s.copies || t.copies[v] == s.row.value;
      }
      return;
    }
    var c := s.copies[e.w];
    match e
    case AttachMatched(w, matches) =>
      var s1 := s.(matched := s.matched + ToSet(matches));
      EvidenceKeepsAttach(l, s, s1);
      AttachAdvanceConfirmed(l, s1, c, matches, Filled(l, s));
      WriteKeepsAttach(l, s1, w, AttachAdvanced(l, c, matches, Filled(l, s)));
    case AttachVerified(w, matches) =>
      var s1 := s.(matched := s.matched + ToSet(matches));
      EvidenceKeepsAttach(l, s, s1);
      WriteKeepsAttach(l, s1, w, VerifyAdvanced(l, c, matches, Filled(l, s)));
    case Downgrade(w, bad) =>
      DowngradeKeepsValid(l, c, bad);
      WriteKeepsAttach(l, s, w, Downgraded(l, c, bad));
    case VerifyAdvance(w, matches, treasures) =>
      var s1 := s.(matched := s.matched + ToSet(matches), seen := s.seen + ToSet(treasures));
      EvidenceKeepsAttach(l, s, s1);
      WriteKeepsAttach(l, s1, w, VerifyAdvanced(l, c, matches + treasures, Filled(l, s)));
    case Resave(w) =>
      WriteKeepsAttach(l, s, w, c);
  }

  lemma {:induction false} RunKeepsAttach(l: Layout, s: State, events: seq<Event>, t: State)
    requires Inv(l, s) && AttachConfirmed(l, s) && Run(l, s, events, t)
    requires forall e :: e in events ==> !MovesAttachUnseen(e)
    ensures AttachConfirmed(l, t)
    decreases |events|
  {
    if events != [] {
      StepKeepsInv(l, s, events[0]);
      StepKeepsAttach(l, s, events[0]);
      RunKeepsAttach(l, Apply(l, s, events[0]), events[1..], t);
    }
  }

  /** Without the three kinds of step below, the attach cursor proves as much as the verify cursor does. */
  lemma BehindAttachConfirmed(l: Layout, events: seq<Event>, t: State)
    requires Run(l, Start(l), events, t)
    requires forall e :: e in events ==> !MovesAttachUnseen(e)
    ensures AttachConfirmed(l, t)
  {
    RunKeepsAttach(l, Start(l), events, t);
  }

  /** The row's attach cursor has passed `i`, and nothing was ever reported of it. */
  ghost predicate PassedUnconfirmed(l: Layout, s: State, i: int) {
    && s.row.Some? && InRange(l, i)
    && (if l.sessionType.Alpha? then i < s.row.value.attach else i > s.row.value.attach)
    && i !in s.matched && i !in s.seen
  }

  function AllIdxs(l: Layout): (idxs: seq<int>)
    ensures |idxs| == l.numChunks && AllInRange(l, idxs)
    ensures forall k :: 0 <= k < l.numChunks ==> idxs[k] == StartCursors(l).attach + Along(l.sessionType, k)
  {
    seq(l.numChunks, k => StartCursors(l).attach + Along(l.sessionType, k))
  }

  lemma SendingAllReachesEnd(l: Layout, filled: set<int>)
    requires l.numChunks > 0
    ensures AttachAdvanced(l, StartCursors(l), AllIdxs(l), filled).attach == StopIdx(l)
  {
    var start := StartCursors(l).attach;
    forall k | 0 <= k < l.numChunks ensures start + Along(l.sessionType, k) in ToSet(AllIdxs(l)) + filled {
      assert AllIdxs(l)[k] in AllIdxs(l);
    }
    ScanFromFull(l.sessionType, start, l.numChunks, ToSet(AllIdxs(l)) + filled);
  }

  /** The whole file arrives, and a worker loads the row. */
  function Loading(l: Layout): seq<Event> {
    [Arrive(ToSet(AllIdxs(l))), Load(0)]
  }

  /** After that, one more step. */
  lemma LoadedThen(l: Layout, e: Event) returns (s: State)
    ensures s == Start(l).(copies := map[0 := StartCursors(l)], inProgress := ToSet(AllIdxs(l)))
    ensures Enabled(l, s, e) ==> Run(l, Start(l), Loading(l) + [e], Apply(l, s, e))
  {
    var arrive := Arrive(ToSet(AllIdxs(l)));
    TwoSteps(l, Start(l), arrive, Load(0));
    s := Apply(l, Apply(l, Start(l), arrive), Load(0));
    assert {} + ToSet(AllIdxs(l)) == ToSet(AllIdxs(l));
    if Enabled(l, s, e) { OneMore(l, Start(l), Loading(l), s, e); }
  }

  /** Sending is enough: in every file the cursor can pass every index unconfirmed. */
  lemma SendingPassesUnconfirmed(l: Layout, i: int) returns (t: State)
    requires InRange(l, i)
    ensures Run(l, Start(l), Loading(l) + [AttachSent(0, AllIdxs(l))], t) && PassedUnconfirmed(l, t, i)
  {
    var s := LoadedThen(l, AttachSent(0, AllIdxs(l)));
    t := Apply(l, s, AttachSent(0, AllIdxs(l)));
    SendingAllReachesEnd(l, Filled(l, s));
  }

  /** So is declaring the attachment finished, after a read that failed. */
  lemma AdjustingPassesUnconfirmed(l: Layout, i: int) returns (t: State)
    requires InRange(l, i)
    ensures Run(l, Start(l), Loading(l) + [AdjustIndexes(0, true)], t) && PassedUnconfirmed(l, t, i)
  {
    var s := LoadedThen(l, AdjustIndexes(0, true));
    t := Apply(l, s, AdjustIndexes(0, true));
  }

  /** Chunks handed to a webnode, one after the other. */
  function HandOuts(n: nat): seq<Event> {
    if n == 0 then [] else HandOuts(n - 1) + [WebnodePoW(0, true)]
  }

  lemma {:induction false} HandOutsRun(l: Layout, n: nat) returns (t: State)
    requires n < l.numChunks
    ensures Run(l, Start(l), Loading(l) + HandOuts(n), t) && t.matched == {} && t.seen == {}
    ensures var c := StartCursors(l).(attach := StartCursors(l).attach + Along(l.sessionType, n));
            t.row == Some(c) && 0 in t.copies && t.copies[0] == c
  {
    if n == 0 {
      t := LoadedThen(l, Resave(0));
      TwoSteps(l, Start(l), Arrive(ToSet(AllIdxs(l))), Load(0));
      assert Loading(l) + HandOuts(0) == Loading(l);
    } else {
      var s := HandOutsRun(l, n - 1);
      t := Apply(l, s, WebnodePoW(0, true));
      OneMore(l, Start(l), Loading(l) + HandOuts(n - 1), s, WebnodePoW(0, true));
      assert Loading(l) + HandOuts(n) == Loading(l) + HandOuts(n - 1) + [WebnodePoW(0, true)];
    }
  }

  /** And so is handing chunks to a webnode: that can pass every index but the last of the scan. */
  lemma WebnodePassesUnconfirmed(l: Layout, i: int) returns (t: State)
    requires InRange(l, i) && Rank(l, i) < l.numChunks - 1
    ensures Run(l, Start(l), Loading(l) + HandOuts(Rank(l, i) + 1), t) && PassedUnconfirmed(l, t, i)
  {
    t := HandOutsRun(l, Rank(l, i) + 1);
  }

  /** The last one it leaves alone: it never takes a cursor to the end. */
  lemma WebnodeStopsBeforeLast(l: Layout, s: State, w: nat, first: bool)
    requires Enabled(l, s, WebnodePoW(w, first)) && ValidCursors(l, s.copies[w])
    ensures Apply(l, s, WebnodePoW(w, first)).copies[w].attach != StopIdx(l)
  {
  }
}
