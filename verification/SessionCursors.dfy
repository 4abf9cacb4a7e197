/** The two cursors of an upload session, as values, and what each update does to them. */
module SessionCursors {
  import opened Core

  /** The parts of a session row that never change once it has started. */
  datatype Layout = Layout(sessionType: SessionType, numChunks: nat, treasures: set<int>)

  /** The parts of a session row that the jobs change. */
  datatype Cursors = Cursors(attach: int, verify: int)

  predicate InRange(l: Layout, i: int) {
    0 <= i < l.numChunks
  }

  predicate AllInRange(l: Layout, idxs: seq<int>) {
    forall i :: i in idxs ==> InRange(l, i)
  }

  predicate Inside(l: Layout, idxs: set<int>) {
    forall i :: i in idxs ==> InRange(l, i)
  }

  /** Alpha cursors climb from 0 to N; beta cursors fall from N-1 to -1. Verify never overtakes attach. */
  predicate ValidCursors(l: Layout, c: Cursors) {
    match l.sessionType
    case Alpha => 0 <= c.verify <= c.attach <= l.numChunks
    case Beta => -1 <= c.attach <= c.verify <= l.numChunks - 1
  }

  function Step(t: SessionType): int {
    if t.Alpha? then 1 else -1
  }

  /** How far a number of steps leads. */
  function Along(t: SessionType, steps: int): int {
    if t.Alpha? then steps else -steps
  }

  /** How many steps lie between two indexes. */
  function Distance(t: SessionType, from: int, to: int): int {
    if t.Alpha? then to - from else from - to
  }

  /** Does the scan come to `i` before it comes to `j`? */
  predicate Before(t: SessionType, i: int, j: int) {
    if t.Alpha? then i < j else j < i
  }

  /** How many chunks lie before `i` in the scan order of the session. */
  function Rank(l: Layout, i: int): int {
    if l.sessionType.Alpha? then i else l.numChunks - 1 - i
  }

  /** The value a cursor has when nothing is left to scan. */
  function StopIdx(l: Layout): int {
    if l.sessionType.Alpha? then l.numChunks else -1
  }

  function StartCursors(l: Layout): (c: Cursors) {
    if l.sessionType.Alpha? then Cursors(0, 0) else Cursors(l.numChunks - 1, l.numChunks - 1)
  }

  /** The cursor after walking at most `count` indexes from `i`, stopping at the first one not in `hit`. */
  function ScanFrom(t: SessionType, i: int, count: nat, hit: set<int>): int
    decreases count
  {
    if count == 0 || i !in hit then i else ScanFrom(t, i + Step(t), count - 1, hit)
  }

  /** Independent description of the scan: it covers only hits, and stops short only at a miss. */
  lemma {:induction false} ScanFromMaximal(t: SessionType, i: int, count: nat, hit: set<int>)
    ensures var walked := Distance(t, i, ScanFrom(t, i, count, hit));
            && 0 <= walked <= count
            && (forall k :: i <= k < i + walked && t.Alpha? ==> k in hit)
            && (forall k :: i - walked < k <= i && t.Beta? ==> k in hit)
            && (walked < count ==> ScanFrom(t, i, count, hit) !in hit)
    decreases count
  {
    if count != 0 && i in hit {
      ScanFromMaximal(t, i + Step(t), count - 1, hit);
    }
  }

  /** A scan over a full run of hits goes exactly as far as it is allowed to. */
  lemma {:induction false} ScanFromFull(t: SessionType, i: int, count: nat, hit: set<int>)
    requires forall k :: 0 <= k < count ==> i + Along(t, k) in hit
    ensures ScanFrom(t, i, count, hit) == i + Along(t, count)
    decreases count
  {
    if count != 0 {
      assert i + Along(t, 0) in hit;
      forall k | 0 <= k < count - 1 ensures i + Step(t) + Along(t, k) in hit {
        assert i + Along(t, k + 1) in hit;
      }
      ScanFromFull(t, i + Step(t), count - 1, hit);
    }
  }

  /** From `start` to `i` lie hits only, `i` included, and no more than `count` steps are needed to pass `i`. */
  ghost predicate Unbroken(t: SessionType, start: int, count: nat, hit: set<int>, i: int) {
    0 <= Distance(t, start, i) < count && forall j :: 0 <= j <= Distance(t, start, i) ==> start + Along(t, j) in hit
  }

  /** Exactly which indexes a scan passes. */
  lemma {:induction false} ScanPassesIff(t: SessionType, start: int, count: nat, hit: set<int>, i: int)
    ensures 0 <= Distance(t, start, i) < Distance(t, start, ScanFrom(t, start, count, hit))
            <==> Unbroken(t, start, count, hit, i)
    decreases count
  {
    ScanFromMaximal(t, start, count, hit);
    assert Unbroken(t, start, count, hit, i) ==> start + Along(t, 0) in hit;
    if count != 0 && start in hit {
      var next := start + Step(t);
      ScanFromMaximal(t, next, count - 1, hit);
      ScanPassesIff(t, next, count - 1, hit, i);
      if Unbroken(t, next, count - 1, hit, i) {
        forall j | 0 <= j <= Distance(t, start, i) ensures start + Along(t, j) in hit {
          if j > 0 { assert next + Along(t, j - 1) in hit; }
        }
      }
      if Unbroken(t, start, count, hit, i) && 0 < Distance(t, start, i) {
        forall j | 0 <= j <= Distance(t, next, i) ensures next + Along(t, j) in hit {
          assert start + Along(t, j + 1) in hit;
        }
      }
    }
  }

  /** UpdateIndexWithAttachedChunks: `filled` are the treasure indexes whose hash is in the completed store. */
  function AttachAdvanced(l: Layout, c: Cursors, idxs: seq<int>, filled: set<int>): Cursors {
    c.(attach := ScanFrom(l.sessionType, c.attach, |idxs|, ToSet(idxs) + filled))
  }

  /** UpdateIndexWithVerifiedChunks: the verify cursor advances, but not past the attach cursor. */
  function VerifyAdvanced(l: Layout, c: Cursors, idxs: seq<int>, filled: set<int>): Cursors {
    var scanned := ScanFrom(l.sessionType, c.verify, |idxs|, ToSet(idxs) + filled);
    c.(verify := if l.sessionType.Alpha? then Min(scanned, c.attach) else Max(scanned, c.attach))
  }

  /** DownGradeIndexesOnUnattachedChunks: both cursors fall back to the earliest listed index. */
  function Downgraded(l: Layout, c: Cursors, idxs: seq<int>): Cursors {
    if idxs == [] then c
    else if l.sessionType.Alpha? then
      var m := LeastOf(idxs);
      Cursors(Min(m, c.attach), Min(m, c.verify))
    else
      var m := GreatestOf(idxs);
      Cursors(Max(m, c.attach), Max(m, c.verify))
  }

  function Min(a: int, b: int): int {
    if a <= b then a else b
  }

  function Max(a: int, b: int): int {
    if a >= b then a else b
  }

  function LeastOf(idxs: seq<int>): (m: int)
    requires idxs != []
    ensures m in idxs && forall i :: i in idxs ==> m <= i
  {
    assert idxs == idxs[..|idxs| - 1] + [idxs[|idxs| - 1]];
    if |idxs| == 1 then idxs[0] else Min(idxs[|idxs| - 1], LeastOf(idxs[..|idxs| - 1]))
  }

  lemma BoundsSnoc(idxs: seq<int>, last: int)
    requires idxs != []
    ensures LeastOf(idxs + [last]) == Min(last, LeastOf(idxs))
    ensures GreatestOf(idxs + [last]) == Max(last, GreatestOf(idxs))
  {
    assert (idxs + [last])[..|idxs|] == idxs;
  }

  function GreatestOf(idxs: seq<int>): (m: int)
    requires idxs != []
    ensures m in idxs && forall i :: i in idxs ==> i <= m
  {
    assert idxs == idxs[..|idxs| - 1] + [idxs[|idxs| - 1]];
    if |idxs| == 1 then idxs[0] else Max(idxs[|idxs| - 1], GreatestOf(idxs[..|idxs| - 1]))
  }

  /** The indexes a cursor passes on its way from `a` to `b` are all listed or filled. */
  ghost predicate PassesOnlyHits(t: SessionType, a: int, b: int, idxs: seq<int>, filled: set<int>) {
    forall i :: 0 <= Distance(t, a, i) < Distance(t, a, b) ==> i in idxs || i in filled
  }

  /** The attach cursor passes hits only, at most as many as are listed, and stops early only at a miss. */
  lemma AttachAdvanceMeaning(l: Layout, c: Cursors, idxs: seq<int>, filled: set<int>)
    ensures var d := AttachAdvanced(l, c, idxs, filled);
            var steps := Distance(l.sessionType, c.attach, d.attach);
            && d.verify == c.verify && 0 <= steps <= |idxs|
            && PassesOnlyHits(l.sessionType, c.attach, d.attach, idxs, filled)
            && (steps < |idxs| ==> d.attach !in idxs && d.attach !in filled)
  {
    ScanFromMaximal(l.sessionType, c.attach, |idxs|, ToSet(idxs) + filled);
    var d := AttachAdvanced(l, c, idxs, filled);
    forall i | 0 <= Distance(l.sessionType, c.attach, i) < Distance(l.sessionType, c.attach, d.attach)
      ensures i in idxs || i in filled
    {
      assert i in ToSet(idxs) + filled;
    }
  }

  /** The verify cursor does the same, and stops at the attach cursor. */
  lemma VerifyAdvanceMeaning(l: Layout, c: Cursors, idxs: seq<int>, filled: set<int>)
    requires ValidCursors(l, c)
    ensures var d := VerifyAdvanced(l, c, idxs, filled);
            var steps := Distance(l.sessionType, c.verify, d.verify);
            && d.attach == c.attach && 0 <= steps <= |idxs|
            && PassesOnlyHits(l.sessionType, c.verify, d.verify, idxs, filled)
            && (steps < |idxs| && d.verify != c.attach ==> d.verify !in idxs && d.verify !in filled)
  {
    ScanFromMaximal(l.sessionType, c.verify, |idxs|, ToSet(idxs) + filled);
    var d := VerifyAdvanced(l, c, idxs, filled);
    forall i | 0 <= Distance(l.sessionType, c.verify, i) < Distance(l.sessionType, c.verify, d.verify)
      ensures i in idxs || i in filled
    {
      assert i in ToSet(idxs) + filled;
    }
  }

  /** A cursor falls back exactly to the earliest listed index, unless it was there or before. */
  lemma DowngradeMeaning(l: Layout, c: Cursors, idxs: seq<int>)
    requires idxs != []
    ensures var d := Downgraded(l, c, idxs);
            && (d.attach == c.attach || d.attach in idxs) && Rank(l, d.attach) <= Rank(l, c.attach)
            && (d.verify == c.verify || d.verify in idxs) && Rank(l, d.verify) <= Rank(l, c.verify)
            && forall i :: i in idxs ==> Rank(l, d.attach) <= Rank(l, i) && Rank(l, d.verify) <= Rank(l, i)
  {
    var m := if l.sessionType.Alpha? then LeastOf(idxs) else GreatestOf(idxs);
    assert m in idxs;
  }

  /** The indexes GetUnassignedChunksBySession asks for; both ends are included. */
  predicate InFetchRange(l: Layout, attach: int, offset: nat, i: int) {
    if l.sessionType.Alpha? then
      var stop := Min(attach + offset, l.numChunks - 1);
      Min(attach, stop) <= i <= Max(attach, stop)
    else
      var stop := Max(attach - offset, 0);
      Min(attach, stop) <= i <= Max(attach, stop)
  }

  /** GetReadySessions. */
  predicate NeedsAttaching(l: Layout, c: Cursors) {
    if l.sessionType.Alpha? then c.attach < l.numChunks else c.attach != -1
  }

  /** GetVerifiableSessions. */
  predicate NeedsVerifying(l: Layout, c: Cursors) {
    c.attach == StopIdx(l) && c.verify != c.attach
  }

  /** GetCompletedSessions. */
  predicate LooksCompleted(l: Layout, c: Cursors) {
    c.verify == StopIdx(l)
  }

  /** GetChunkForWebnodePoW leaves the last chunk of the scan alone. */
  predicate CanTakeForPoW(l: Layout, c: Cursors) {
    if l.sessionType.Alpha? then c.attach != l.numChunks - 1 else c.attach != 0
  }

  function TakenForPoW(l: Layout, c: Cursors): Cursors {
    c.(attach := c.attach + Step(l.sessionType))
  }

  lemma AdvancesKeepValid(l: Layout, c: Cursors, idxs: seq<int>, filled: set<int>)
    requires ValidCursors(l, c) && AllInRange(l, idxs) && Inside(l, filled)
    ensures ValidCursors(l, AttachAdvanced(l, c, idxs, filled))
    ensures ValidCursors(l, VerifyAdvanced(l, c, idxs, filled))
  {
    var hit := ToSet(idxs) + filled;
    ScanFromMaximal(l.sessionType, c.attach, |idxs|, hit);
    ScanFromMaximal(l.sessionType, c.verify, |idxs|, hit);
    var a := ScanFrom(l.sessionType, c.attach, |idxs|, hit);
    if a != c.attach {
      assert a - Step(l.sessionType) in hit;
    }
  }

  lemma DowngradeKeepsValid(l: Layout, c: Cursors, idxs: seq<int>)
    requires ValidCursors(l, c) && AllInRange(l, idxs)
    ensures ValidCursors(l, Downgraded(l, c, idxs))
    ensures var d := Downgraded(l, c, idxs);
            && Rank(l, d.attach) <= Rank(l, c.attach)
            && Rank(l, d.verify) <= Rank(l, c.verify)
            && forall i :: i in idxs ==> Rank(l, d.attach) <= Rank(l, i)
  {
  }
}
