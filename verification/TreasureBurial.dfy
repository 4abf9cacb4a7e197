/**
 * The burial of a treasure: PRL is sent to its address, then gas, then the bury call, and at last the
 * left-over gas comes back. The status is a number: odd for a reached milestone, the next even number
 * while the following transaction is pending, and the milestone's negative after an error.
 */
module TreasureBurial {
  import opened Core
  import opened RowJobs

  const PRL_WAITING := 1
  const PRL_PENDING := 2
  const PRL_CONFIRMED := 3
  const GAS_PENDING := 4
  const GAS_CONFIRMED := 5
  const BURY_PENDING := 6
  const BURY_CONFIRMED := 7
  const GAS_RECLAIM_PENDING := 8
  const GAS_RECLAIM_CONFIRMED := 9
  const PRL_ERROR := -1
  const GAS_ERROR := -3
  const BURY_ERROR := -5
  const GAS_RECLAIM_ERROR := -7

  /** `amount` is what should be buried, as the row's text parses. */
  datatype Treasure = Treasure(amount: int, status: int)

  datatype BuriedAnswer = QueryFailed | NotBuried | Buried

  datatype ReclaimAnswer = EstimateFailed | NotWorth | Worth

  /** What a sub-step meets for one row. A balance of -1 is a failed query. */
  datatype Event =
    | NotSelected
    | PRLChecked(balance: int)
    | GasChecked(balance: int)
    | BuryChecked(buried: BuriedAnswer, sessionMarked: bool)
    | TimedOut
    | StagedForRetry
    | SendPRL(wallet: int, sent: bool)
    | SendGas(needed: Option<int>, wallet: int, sent: bool)
    | InvokeBury(prl: int, eth: int, keyReadable: bool, sent: bool)
    | ReclaimChecked(answer: ReclaimAnswer, oldEnough: bool, sent: bool)

  // ---- Milestones ----

  /** The last milestone reached: 1, 3, 5, 7 or 9. */
  function Level(s: int): int {
    if s < 0 then -s else if s % 2 == 0 then s - 1 else s
  }

  predicate Pending(s: int) {
    s in {PRL_PENDING, GAS_PENDING, BURY_PENDING, GAS_RECLAIM_PENDING}
  }

  predicate Failed(s: int) {
    s in {PRL_ERROR, GAS_ERROR, BURY_ERROR, GAS_RECLAIM_ERROR}
  }

  /** The observation that lets a treasure reach a milestone. */
  predicate Confirms(amount: int, e: Event, level: int) {
    match level
    case 3 => e.PRLChecked? && e.balance >= amount
    case 5 => e.GasChecked? && e.balance > 0
    case 7 => e.BuryChecked? && e.buried.Buried? && e.sessionMarked
    case 9 => e.ReclaimChecked? && e.answer.NotWorth? && e.oldEnough
    case _ => false
  }

  /** The row waits for the observation: its transaction is pending, or there is nothing left to reclaim. */
  predicate Awaits(s: int) {
    Pending(s) || s == BURY_CONFIRMED
  }

  /** The transaction that leads on from a milestone is tried. */
  predicate Attempts(amount: int, e: Event, level: int) {
    match level
    case 1 => e.SendPRL? && e.wallet > 0 && e.wallet >= amount
    case 3 => e.SendGas? && e.needed.Some? && e.wallet >= e.needed.value
    case 5 => e.InvokeBury? && e.prl > 0 && e.eth > 0 && e.keyReadable
    case 7 => e.ReclaimChecked? && e.answer.Worth?
    case _ => false
  }

  /**
   * The sub-steps as one automaton: an awaited observation raises the milestone; a transaction that is tried
   * makes the row pending or failed; time-outs make pending rows failed, and staging takes failed rows back.
   */
  function Next(amount: int, s: int, e: Event): int {
    if Awaits(s) && Confirms(amount, e, Level(s) + 2) then Level(s) + 2
    else if Attempts(amount, e, s) then (if e.sent then s + 1 else -s)
    else if Pending(s) && e.TimedOut? then -Level(s)
    else if Failed(s) && e.StagedForRetry? then Level(s)
    else s
  }

  function Step(t: Treasure, e: Event): Treasure {
    t.(status := Next(t.amount, t.status, e))
  }

  /** Which events the k-th sub-step of the job can meet. */
  predicate InSubStep(k: nat, e: Event) {
    e.NotSelected?
    || (match k
        case 0 => e.PRLChecked?
        case 1 => e.GasChecked?
        case 2 => e.BuryChecked?
        case 3 => e.TimedOut?
        case 4 => e.StagedForRetry?
        case 5 => e.SendPRL?
        case 6 => e.SendGas?
        case 7 => e.InvokeBury?
        case 8 => e.ReclaimChecked?
        case _ => false)
  }

  /** What a sub-step does to its copy of a row, which is then saved: one transition of the automaton. */
  method UpdateRow(row: Treasure, e: Event) returns (pending: Treasure)
    ensures pending == Step(row, e)
  {
    pending := row;
    match e
    case NotSelected =>
    case PRLChecked(balance) =>
      if pending.status == PRL_PENDING && ((balance > 0 && balance == pending.amount) || balance >= pending.amount) {
        pending := pending.(status := PRL_CONFIRMED);
      }
    case GasChecked(balance) =>
      if pending.status == GAS_PENDING && balance > 0 { pending := pending.(status := GAS_CONFIRMED); }
    case BuryChecked(buried, sessionMarked) =>
      if pending.status == BURY_PENDING {
        if buried.QueryFailed? { return; }
        if buried.Buried? && sessionMarked { pending := pending.(status := BURY_CONFIRMED); }
      }
    case TimedOut =>
      if pending.status in {PRL_PENDING, GAS_PENDING, BURY_PENDING, GAS_RECLAIM_PENDING} {
        pending := pending.(status := (pending.status - 1) * -1);
      }
    case StagedForRetry =>
      if pending.status in {PRL_ERROR, GAS_ERROR, BURY_ERROR, GAS_RECLAIM_ERROR} {
        pending := pending.(status := pending.status * -1);
      }
    case SendPRL(wallet, sent) =>
      if pending.status == PRL_WAITING {
        if wallet <= 0 || wallet < pending.amount { return; }
        pending := pending.(status := if sent then PRL_PENDING else PRL_ERROR);
      }
    case SendGas(needed, wallet, sent) =>
      if pending.status == PRL_CONFIRMED {
        if needed.None? || wallet < needed.value { return; }
        pending := pending.(status := if sent then GAS_PENDING else GAS_ERROR);
      }
    case InvokeBury(prl, eth, keyReadable, sent) =>
      if pending.status == GAS_CONFIRMED {
        if prl <= 0 || eth <= 0 || !keyReadable { return; }
        pending := pending.(status := if sent then BURY_PENDING else BURY_ERROR);
      }
    case ReclaimChecked(answer, oldEnough, sent) =>
      if pending.status in {GAS_RECLAIM_PENDING, BURY_CONFIRMED} {
        if answer.EstimateFailed? { return; }
        if answer.NotWorth? {
          if oldEnough { pending := pending.(status := GAS_RECLAIM_CONFIRMED); }
          return;
        }
        if pending.status == GAS_RECLAIM_PENDING { return; }
        pending := pending.(status := if sent then GAS_RECLAIM_PENDING else GAS_RECLAIM_ERROR);
      }
  }

  /** One sub-step over all rows. */
  method UpdateRows(table: array<Treasure>, round: seq<Event>)
    requires |round| == table.Length
    modifies table
    ensures forall i :: 0 <= i < table.Length ==> table[i] == Step(old(table[i]), round[i])
  {
    for i := 0 to table.Length
      invariant forall j :: 0 <= j < i ==> table[j] == Step(old(table[j]), round[j])
      invariant forall j :: i <= j < table.Length ==> table[j] == old(table[j])
    {
      var pending := UpdateRow(table[i], round[i]);
      table[i] := pending;
    }
  }

  /** One run of the job: nine sub-steps, each over all rows. */
  method BuryTreasureAddresses(table: array<Treasure>, rounds: seq<seq<Event>>)
    requires |rounds| == 9
    requires forall k :: 0 <= k < 9 ==> |rounds[k]| == table.Length && forall e :: e in rounds[k] ==> InSubStep(k, e)
    modifies table
    ensures forall i :: 0 <= i < table.Length ==> table[i] == Fold(Step, old(table[i]), Column(rounds, i))
    ensures forall i :: 0 <= i < table.Length && Reached(old(table[i])) ==>
              Reached(table[i]) && Level(old(table[i]).status) <= Level(table[i].status)
  {
    for k := 0 to |rounds|
      invariant forall i :: 0 <= i < table.Length ==> table[i] == Fold(Step, old(table[i]), Column(rounds, i)[..k])
    {
      ghost var before := table[..];
      UpdateRows(table, rounds[k]);
      forall i | 0 <= i < table.Length ensures table[i] == Fold(Step, old(table[i]), Column(rounds, i)[..k + 1]) {
        assert before[i] == Fold(Step, old(table[i]), Column(rounds, i)[..k]);
        FoldNext(Step, old(table[i]), rounds, i, k);
      }
    }
    forall i | 0 <= i < table.Length
      ensures table[i] == Fold(Step, old(table[i]), Column(rounds, i))
      ensures Reached(old(table[i])) ==> Reached(table[i]) && Level(old(table[i]).status) <= Level(table[i].status)
    {
      assert Column(rounds, i)[..|rounds|] == Column(rounds, i);
      if Reached(old(table[i])) { ReachedLater(old(table[i]), Column(rounds, i)); }
    }
  }

  /** A row created for burial, after the events it has met in any number of runs. */
  function After(amount: int, events: seq<Event>): Treasure {
    Fold(Step, Treasure(amount, PRL_WAITING), events)
  }

  // ---- Safety over runs ----

  predicate KnownStatus(s: int) {
    1 <= s <= 9 || Failed(s)
  }

  /** One event never lowers the milestone, and raises it by one only if it is the next one's observation. */
  lemma MilestoneStep(t: Treasure, e: Event)
    requires KnownStatus(t.status)
    ensures KnownStatus(Step(t, e).status) && Step(t, e).amount == t.amount
    ensures Level(t.status) <= Level(Step(t, e).status) <= Level(t.status) + 2
    ensures Level(Step(t, e).status) > Level(t.status) ==> Confirms(t.amount, e, Level(t.status) + 2)
  {
  }

  lemma {:induction false} AfterKnown(amount: int, events: seq<Event>)
    ensures KnownStatus(After(amount, events).status) && After(amount, events).amount == amount
  {
    if events != [] {
      AfterKnown(amount, events[..|events| - 1]);
      MilestoneStep(After(amount, events[..|events| - 1]), events[|events| - 1]);
    }
  }

  /** Over any run, the milestone never goes back. */
  lemma {:induction false} MilestonesNeverGoBack(amount: int, events: seq<Event>, n: nat)
    requires n <= |events|
    ensures Level(After(amount, events[..n]).status) <= Level(After(amount, events).status)
    decreases |events|
  {
    if n == |events| {
      assert events[..n] == events;
    } else {
      var init := events[..|events| - 1];
      MilestonesNeverGoBack(amount, init, n);
      assert init[..n] == events[..n];
      AfterKnown(amount, init);
      MilestoneStep(After(amount, init), events[|events| - 1]);
    }
  }

  /** The row was created for burial and has met some events since, in any number of runs. */
  ghost predicate Reached(t: Treasure) {
    exists events :: t == After(t.amount, events)
  }

  lemma ReachedLater(t: Treasure, later: seq<Event>)
    requires Reached(t)
    ensures var u := Fold(Step, t, later); Reached(u) && Level(t.status) <= Level(u.status)
  {
    var events :| t == After(t.amount, events);
    FoldJoin(Step, Treasure(t.amount, PRL_WAITING), events, later);
    AfterKnown(t.amount, events + later);
    MilestonesNeverGoBack(t.amount, events + later, |events|);
    assert (events + later)[..|events|] == events;
  }

  /** A milestone is reached only after its observation, and only after the one before it was reached. */
  lemma {:induction false} MilestoneObserved(amount: int, events: seq<Event>, level: int)
    requires level in {3, 5, 7, 9} && Level(After(amount, events).status) >= level
    ensures exists k :: 0 <= k < |events| && Confirms(amount, events[k], level)
                        && Level(After(amount, events[..k]).status) == level - 2
  {
    var init, last := events[..|events| - 1], events[|events| - 1];
    AfterKnown(amount, init);
    MilestoneStep(After(amount, init), last);
    if Level(After(amount, init).status) >= level {
      MilestoneObserved(amount, init, level);
      var k :| 0 <= k < |init| && Confirms(amount, init[k], level) && Level(After(amount,
          init[..k]).status) == level - 2;
      assert init[..k] == events[..k] && init[k] == events[k];
    } else {
      assert Confirms(amount, events[|init|], level);
    }
  }

  /** The PRL check passes at an empty address exactly when nothing was to be buried. */
  lemma ConfirmedWithoutPRLIff(amount: int)
    ensures (exists balance :: balance <= 0
               && Step(Treasure(amount, PRL_PENDING), PRLChecked(balance)).status == PRL_CONFIRMED)
            <==> amount <= 0
  {
    if amount <= 0 {
      assert Step(Treasure(amount, PRL_PENDING), PRLChecked(amount)).status == PRL_CONFIRMED;
    }
  }

  // ---- Exactly when a row goes on ----

  /** A pending row, or one whose gas may come back, reaches its milestone by one answer only. */
  lemma MilestoneIff(amount: int, e: Event)
    ensures Step(Treasure(amount, 2), e).status == 3 <==> e.PRLChecked? && e.balance >= amount
    ensures Step(Treasure(amount, 4), e).status == 5 <==> e.GasChecked? && e.balance > 0
    ensures Step(Treasure(amount, 6), e).status == 7 <==> e.BuryChecked? && e.buried.Buried? && e.sessionMarked
    ensures forall s :: s in {7, 8} ==>
              (Step(Treasure(amount, s), e).status == 9 <==> e.ReclaimChecked? && e.answer.NotWorth? && e.oldEnough)
  {
  }

  /** The transaction that leads on from a milestone is sent exactly when everything it takes is there. */
  lemma SentIff(amount: int, e: Event)
    ensures Step(Treasure(amount, 1), e).status == 2 <==>
              e.SendPRL? && e.wallet > 0 && e.wallet >= amount && e.sent
    ensures Step(Treasure(amount, 3), e).status == 4 <==>
              e.SendGas? && e.needed.Some? && e.wallet >= e.needed.value && e.sent
    ensures Step(Treasure(amount, 5), e).status == 6 <==>
              e.InvokeBury? && e.prl > 0 && e.eth > 0 && e.keyReadable && e.sent
    ensures Step(Treasure(amount, 7), e).status == 8 <==> e.ReclaimChecked? && e.answer.Worth? && e.sent
  {
  }

  /** A transaction that fails makes a row failed, and so does a time-out; nothing else does. */
  lemma FailedIff(t: Treasure, e: Event)
    requires 1 <= t.status <= 9
    ensures Step(t, e).status < 0 <==>
              || (t.status in {2, 4, 6, 8} && e.TimedOut?)
              || (t.status == 1 && e.SendPRL? && e.wallet > 0 && e.wallet >= t.amount && !e.sent)
              || (t.status == 3 && e.SendGas? && e.needed.Some? && e.wallet >= e.needed.value && !e.sent)
              || (t.status == 5 && e.InvokeBury? && e.prl > 0 && e.eth > 0 && e.keyReadable && !e.sent)
              || (t.status == 7 && e.ReclaimChecked? && e.answer.Worth? && !e.sent)
    ensures Step(t, e).status < 0 ==> Step(t, e).status == -(if t.status % 2 == 0 then t.status - 1 else t.status)
  {
  }

  /** A failed row waits for being staged, and nothing touches a finished one. */
  lemma StagedIff(amount: int, s: int, e: Event)
    requires s in {-1, -3, -5, -7}
    ensures Step(Treasure(amount, s), e).status == if e.StagedForRetry? then -s else s
    ensures Step(Treasure(amount, 9), e).status == 9
  {
  }

  // ---- One run of the job ----

  /** The three checks come first, and a row passes at most one of them. */
  lemma ChecksOfOneRun(t: Treasure, events: seq<Event>)
    requires KnownStatus(t.status) && |events| >= 3 && forall k :: 0 <= k < 3 ==> InSubStep(k, events[k])
    ensures var u := Fold(Step, t, events[..3]);
            u.amount == t.amount && (u.status == t.status || (t.status in {2, 4, 6} && u.status == t.status + 1))
  {
    assert events[..0] == [];
    FoldTake(Step, t, events, 0);
    FoldTake(Step, t, events, 1);
    FoldTake(Step, t, events, 2);
  }

  /** The sub-steps from the time-outs to the burial keep the milestone. */
  lemma {:induction false} SendsOfOneRun(t: Treasure, events: seq<Event>, n: nat)
    requires KnownStatus(t.status) && |events| == 9 && 3 <= n <= 8
    requires forall k :: 3 <= k < 8 ==> InSubStep(k, events[k])
    requires KnownStatus(Fold(Step, t, events[..3]).status)
    ensures var u, v := Fold(Step, t, events[..3]), Fold(Step, t, events[..n]);
            KnownStatus(v.status) && Level(v.status) == Level(u.status)
  {
    if n > 3 {
      SendsOfOneRun(t, events, n - 1);
      FoldTake(Step, t, events, n - 1);
      MilestoneStep(Fold(Step, t, events[..n - 1]), events[n - 1]);
    }
  }

  /**
   * Because checks come before sends, one run takes a row past one milestone at most; only a burial that is
   * seen may be followed by the end of the reclaim at once.
   */
  lemma OneMilestoneARun(t: Treasure, events: seq<Event>)
    requires KnownStatus(t.status) && |events| == 9 && forall k :: 0 <= k < 9 ==> InSubStep(k, events[k])
    ensures var u := Fold(Step, t, events);
            Level(u.status) <= Level(t.status) + 2 || (t.status == BURY_PENDING && u.status == GAS_RECLAIM_CONFIRMED)
  {
    ChecksOfOneRun(t, events);
    SendsOfOneRun(t, events, 8);
    FoldTake(Step, t, events, 8);
    MilestoneStep(Fold(Step, t, events[..8]), events[8]);
    assert events[..9] == events;
  }

  // ---- Retrying ----

  /** The event sends the transaction that takes a row from milestone `level` to pending. */
  predicate SendsFrom(t: Treasure, e: Event, level: int) {
    t.status == level && Step(t, e).status == level + 1
  }

  /** After a time-out, or a failed send, staging for retry gives back exactly the stage before the send. */
  lemma RetryRestoresStage(t: Treasure, e: Event, level: int)
    requires level in {1, 3, 5, 7} && SendsFrom(t, e, level)
    ensures Pending(Step(t, e).status)
    ensures Step(Step(Step(t, e), TimedOut), StagedForRetry) == t
  {
  }

  lemma FailedSendRestoresStage(t: Treasure, e: Event)
    requires KnownStatus(t.status) && t.status > 0 && Step(t, e).status < 0 && e != TimedOut
    ensures Step(Step(t, e), StagedForRetry) == t
  {
  }

  /** How often a run sent from milestone `level`. */
  function Sends(amount: int, events: seq<Event>, level: int): nat {
    if events == [] then 0 else
      var init := events[..|events| - 1];
      Sends(amount, init, level) + if SendsFrom(After(amount, init), events[|events| - 1], level) then 1 else 0
  }

  /** How often a run timed out while pending after milestone `level`. */
  function TimeOuts(amount: int, events: seq<Event>, level: int): nat {
    if events == [] then 0 else
      var init := events[..|events| - 1];
      TimeOuts(amount, init, level)
      + if After(amount, init).status == level + 1 && events[|events| - 1].TimedOut? then 1 else 0
  }

  /** Every send is accounted for: it timed out, is pending, or led to the next milestone. */
  lemma {:induction false} SendsAccounted(amount: int, events: seq<Event>, level: int)
    requires level in {1, 3, 5}
    ensures var s := After(amount, events).status;
            Sends(amount, events, level) ==
              TimeOuts(amount, events, level) + if s == level + 1 || Level(s) > level then 1 else 0
  {
    if events != [] {
      var init, last := events[..|events| - 1], events[|events| - 1];
      SendsAccounted(amount, init, level);
      AfterKnown(amount, init);
    }
  }

  /** The reclaim may also end without a send, so a finished row has at most one send more than time-outs. */
  lemma {:induction false} ReclaimsAccounted(amount: int, events: seq<Event>)
    ensures var s := After(amount, events).status;
            var sends, timeOuts := Sends(amount, events, BURY_CONFIRMED), TimeOuts(amount, events, BURY_CONFIRMED);
            if s == GAS_RECLAIM_CONFIRMED then timeOuts <= sends <= timeOuts + 1
            else sends == timeOuts + if s == GAS_RECLAIM_PENDING then 1 else 0
  {
    if events != [] {
      ReclaimsAccounted(amount, events[..|events| - 1]);
      AfterKnown(amount, events[..|events| - 1]);
    }
  }
}
