/**
 * The two jobs that fetch PRL from an address: unused PRL of a finished upload, and a treasure for a
 * webnode. Both drive a row with two statuses, one of the gas and one of the PRL.
 */
module Claims {
  import opened Core
  import opened RowJobs

  const GAS_NOT_STARTED := 1
  const GAS_PROCESSING := 2
  const GAS_SUCCESS := 3
  const GAS_RECLAIM_PROCESSING := 4
  const GAS_RECLAIM_SUCCESS := 5
  const GAS_ERROR := -1
  const GAS_RECLAIM_ERROR := -2

  const PRL_NOT_STARTED := 1
  const PRL_PROCESSING := 2
  const PRL_SUCCESS := 3
  const PRL_ERROR := -1

  const UNSET_CLAIM_CLOCK := -1

  /** `clock` is only used by treasure claims: what the claim clock showed before the claim. */
  datatype Claim = Claim(gas: int, prl: int, clock: int)

  datatype ReclaimAnswer = EstimateFailed | NotWorth | Worth

  /** `timedOut` tells the sub-steps for old rows from those for rows in an error state. */
  datatype Event =
    | NotSelected
    | GasChecked(balance: int, needed: Option<int>)
    | PRLChecked(balance: int)
    | ClockChecked(clock: Option<int>)
    | GasReclaimChecked(balance: int, needed: Option<int>)
    | GasResent(timedOut: bool, estimate: Option<int>, balance: int, sent: bool)
    | PRLResent(timedOut: bool, clock: Option<int>, balance: int, keyReadable: bool, sent: bool)
    | GasReclaimReset(timedOut: bool)
    | GasSent(stillTrading: bool, prl: int, estimate: Option<int>, balance: int, sent: bool)
    | PRLClaimed(clock: Option<int>, balance: int, keyReadable: bool, sent: bool)
    | LeftoverChecked(answer: ReclaimAnswer, oldEnough: bool, sent: bool)

  /** A row as the database creates it; when the user does not pay there is nothing to claim. */
  function NewUnusedClaim(userPays: bool): Claim {
    if userPays then Claim(GAS_NOT_STARTED, PRL_NOT_STARTED, UNSET_CLAIM_CLOCK)
    else Claim(GAS_RECLAIM_SUCCESS, PRL_SUCCESS, UNSET_CLAIM_CLOCK)
  }

  function NewTreasureClaim(): Claim {
    Claim(GAS_NOT_STARTED, PRL_NOT_STARTED, UNSET_CLAIM_CLOCK)
  }

  // ---- What the sub-steps do, told by what a row becomes ----

  /** Nothing worth reclaiming is left: no balance, or too little. A failed query reads as no balance. */
  predicate NothingLeft(balance: int, needed: Option<int>) {
    balance <= 0 || (needed.Some? && balance < needed.value)
  }

  predicate ReclaimEnds(c: Claim, e: Event) {
    c.gas == GAS_RECLAIM_PROCESSING && e.GasReclaimChecked? && NothingLeft(e.balance, e.needed)
  }

  /** The status from which a sub-step sends gas, or None. */
  function SendsGasFrom(e: Event): Option<int> {
    match e
    case GasSent(_, _, _, _, _) => Some(GAS_NOT_STARTED)
    case GasResent(timedOut, _, _, _) => Some(if timedOut then GAS_PROCESSING else GAS_ERROR)
    case _ => None
  }

  /** The sub-step takes up the claim of the row's PRL. */
  predicate TakesUpClaim(c: Claim, e: Event) {
    || (e.PRLClaimed? && c.gas == GAS_SUCCESS && c.prl == PRL_NOT_STARTED)
    || (e.PRLResent? && c.prl == if e.timedOut then PRL_PROCESSING else PRL_ERROR)
  }

  /** The row is done but for the gas left over. */
  predicate LooksForLeftover(c: Claim, e: Event) {
    e.LeftoverChecked? && c.gas == GAS_SUCCESS && c.prl == PRL_SUCCESS
  }

  // ---- Unused PRL ----

  predicate SendsUnusedGas(c: Claim, e: Event) {
    && SendsGasFrom(e) == Some(c.gas) && e.estimate.Some? && e.sent
    && (e.GasSent? ==> !e.stillTrading && e.prl != 0)
  }

  function UnusedGasAfter(c: Claim, e: Event): int {
    if SendsUnusedGas(c, e) then GAS_PROCESSING
    else if c.gas == GAS_PROCESSING && e.GasChecked? && e.balance > 0 then GAS_SUCCESS
    else if c.gas == GAS_RECLAIM_PROCESSING && e.GasReclaimReset? && e.timedOut then GAS_SUCCESS
    else if LooksForLeftover(c, e) && e.answer.Worth?
      then (if e.sent then GAS_RECLAIM_PROCESSING else GAS_RECLAIM_ERROR)
    else if ReclaimEnds(c, e) || (LooksForLeftover(c, e) && e.answer.NotWorth? && e.oldEnough) then GAS_RECLAIM_SUCCESS
    else c.gas
  }

  function UnusedPRLAfter(c: Claim, e: Event): int {
    if TakesUpClaim(c, e) && e.balance != -1 && e.keyReadable && e.sent then PRL_PROCESSING
    else if UnusedEvidence(c, e) then PRL_SUCCESS
    else c.prl
  }

  /** What shows that the unused PRL has left the address: an empty balance while the claim is processed. */
  predicate UnusedEvidence(c: Claim, e: Event) {
    c.prl == PRL_PROCESSING && e.PRLChecked? && e.balance == 0
  }

  function UnusedStep(c: Claim, e: Event): Claim {
    Claim(UnusedGasAfter(c, e), UnusedPRLAfter(c, e), c.clock)
  }

  // ---- Treasure for a webnode ----

  predicate NeedsNoMoreGas(c: Claim, e: Event) {
    || (c.gas == GAS_PROCESSING && e.GasChecked? && e.needed.Some? && e.balance >= e.needed.value)
    || (SendsGasFrom(e) == Some(c.gas) && e.estimate.Some? && e.balance > e.estimate.value)
  }

  function TreasureGasAfter(c: Claim, e: Event): int {
    if NeedsNoMoreGas(c, e) then GAS_SUCCESS
    else if SendsGasFrom(e) == Some(c.gas) && e.estimate.Some? && e.sent then GAS_PROCESSING
    else if e.GasReclaimReset? && c.gas == (if e.timedOut then GAS_RECLAIM_PROCESSING else GAS_RECLAIM_ERROR)
      then GAS_SUCCESS
    else if LooksForLeftover(c, e) && e.answer.Worth? && e.sent then GAS_RECLAIM_PROCESSING
    else if ReclaimEnds(c, e) || (LooksForLeftover(c, e) && e.answer.NotWorth?) then GAS_RECLAIM_SUCCESS
    else c.gas
  }

  /** The claim goes on only when the clock is known: it is read when the row has none. */
  predicate ClaimsTreasure(c: Claim, e: Event) {
    TakesUpClaim(c, e) && (c.clock != UNSET_CLAIM_CLOCK || e.clock.Some?)
  }

  predicate ReadsClock(c: Claim, e: Event) {
    c.clock == UNSET_CLAIM_CLOCK && ClaimsTreasure(c, e)
  }

  /** The clock has moved since it was read for the claim that is processed. */
  predicate ClockMoved(c: Claim, e: Event) {
    && c.prl == PRL_PROCESSING && c.clock != UNSET_CLAIM_CLOCK
    && e.ClockChecked? && e.clock.Some? && e.clock.value != c.clock
  }

  /** What shows that a treasure was claimed: its clock moved, or the claim found nothing at the address. */
  predicate TreasureEvidence(c: Claim, e: Event) {
    ClockMoved(c, e) || (ClaimsTreasure(c, e) && e.balance == 0)
  }

  function TreasurePRLAfter(c: Claim, e: Event): int {
    if TreasureEvidence(c, e) then PRL_SUCCESS
    else if ClaimsTreasure(c, e) && e.keyReadable then (if e.sent then PRL_PROCESSING else PRL_ERROR)
    else c.prl
  }

  function TreasureStep(c: Claim, e: Event): Claim {
    Claim(TreasureGasAfter(c, e), TreasurePRLAfter(c, e), if ReadsClock(c, e) then e.clock.value else c.clock)
  }

  // ---- The jobs ----

  /** Which events the sub-steps of the unused-PRL job meet, in the job's order. */
  predicate InUnusedSubStep(k: nat, e: Event) {
    e.NotSelected?
    || (match k
        case 0 => e.GasChecked?
        case 1 => e.PRLChecked?
        case 2 => e.GasReclaimChecked?
        case 3 => e.GasResent? && e.timedOut
        case 4 => e.PRLResent? && e.timedOut
        case 5 => e.GasReclaimReset? && e.timedOut
        case 6 => e.GasResent? && !e.timedOut
        case 7 => e.PRLResent? && !e.timedOut
        case 8 => e.GasSent?
        case 9 => e.PRLClaimed?
        case 10 => e.LeftoverChecked?
        case _ => false)
  }

  predicate InTreasureSubStep(k: nat, e: Event) {
    e.NotSelected?
    || (match k
        case 0 => e.GasChecked?
        case 1 => e.ClockChecked?
        case 2 => e.GasReclaimChecked?
        case 3 => e.GasResent? && e.timedOut
        case 4 => e.PRLResent? && e.timedOut
        case 5 => e.GasReclaimReset? && e.timedOut
        case 6 => e.GasResent? && !e.timedOut
        case 7 => e.PRLResent? && !e.timedOut
        case 8 => e.GasReclaimReset? && !e.timedOut
        case 9 => e.GasSent?
        case 10 => e.PRLClaimed?
        case 11 => e.LeftoverChecked?
        case _ => false)
  }

  /** The rows left after the purge at the end of a job, in table order. */
  function Unpurged(rows: seq<Claim>): seq<Claim> {
    Filter(rows, NotFinished)
  }

  predicate NotFinished(c: Claim) {
    c.gas != GAS_RECLAIM_SUCCESS
  }

  /** What a sub-step of the unused-PRL job does to its copy of a row, which is then saved: the code's branches. */
  method UpdateUnusedRow(row: Claim, e: Event) returns (c: Claim)
    ensures c == UnusedStep(row, e)
  {
    c := row;
    match e
    case NotSelected =>
    case ClockChecked(_) =>
    case GasChecked(balance, _) =>
      if c.gas == GAS_PROCESSING && balance > 0 { c := c.(gas := GAS_SUCCESS); }
    case PRLChecked(balance) =>
      if c.prl == PRL_PROCESSING && balance == 0 { c := c.(prl := PRL_SUCCESS); }
    case GasReclaimChecked(balance, needed) => c := FinishReclaim(c, balance, needed);
    case GasResent(timedOut, estimate, _, sent) =>
      if c.gas == (if timedOut then GAS_PROCESSING else GAS_ERROR) && estimate.Some? && sent {
        c := c.(gas := GAS_PROCESSING);
      }
    case PRLResent(timedOut, _, balance, keyReadable, sent) =>
      if c.prl == (if timedOut then PRL_PROCESSING else PRL_ERROR) {
        if balance == -1 || !keyReadable { return; }
        if sent { c := c.(prl := PRL_PROCESSING); }
      }
    case GasReclaimReset(timedOut) =>
      if timedOut && c.gas == GAS_RECLAIM_PROCESSING { c := c.(gas := GAS_SUCCESS); }
    case GasSent(stillTrading, prl, estimate, _, sent) =>
      if c.gas == GAS_NOT_STARTED && !stillTrading {
        if prl == 0 || estimate.None? || !sent { return; }
        c := c.(gas := GAS_PROCESSING);
      }
    case PRLClaimed(_, balance, keyReadable, sent) =>
      if c.gas == GAS_SUCCESS && c.prl == PRL_NOT_STARTED {
        if balance == -1 || !keyReadable { return; }
        if sent { c := c.(prl := PRL_PROCESSING); }
      }
    case LeftoverChecked(answer, oldEnough, sent) =>
      if c.gas == GAS_SUCCESS && c.prl == PRL_SUCCESS {
        if answer.EstimateFailed? { return; }
        if answer.NotWorth? {
          if oldEnough { c := c.(gas := GAS_RECLAIM_SUCCESS); }
          return;
        }
        c := c.(gas := if sent then GAS_RECLAIM_PROCESSING else GAS_RECLAIM_ERROR);
      }
  }

  method FinishReclaim(row: Claim, balance: int, needed: Option<int>) returns (c: Claim)
    ensures c == if row.gas == GAS_RECLAIM_PROCESSING && NothingLeft(balance, needed)
                 then row.(gas := GAS_RECLAIM_SUCCESS) else row
  {
    c := row;
    if c.gas != GAS_RECLAIM_PROCESSING { return; }
    if balance > 0 {
      if needed.None? { return; }
      if needed.value > balance { c := c.(gas := GAS_RECLAIM_SUCCESS); }
    } else {
      c := c.(gas := GAS_RECLAIM_SUCCESS);
    }
  }

  /** SendGas, for a row that needs it. */
  method SendGasTo(row: Claim, estimate: Option<int>, balance: int, sent: bool) returns (c: Claim)
    ensures c == if estimate.None? then row
                 else if balance > estimate.value then row.(gas := GAS_SUCCESS)
                 else if sent then row.(gas := GAS_PROCESSING) else row
  {
    c := row;
    if estimate.None? { return; }
    if balance > estimate.value {
      c := c.(gas := GAS_SUCCESS);
      return;
    }
    if !sent { return; }
    c := c.(gas := GAS_PROCESSING);
  }

  /** ClaimPRL, for a row whose PRL is to be claimed. */
  method ClaimPRLFrom(row: Claim, clock: Option<int>, balance: int, keyReadable: bool, sent: bool) returns (c: Claim)
    ensures row.clock == UNSET_CLAIM_CLOCK && clock.None? ==> c == row
    ensures row.clock != UNSET_CLAIM_CLOCK || clock.Some? ==>
              && c.gas == row.gas
              && c.clock == (if row.clock == UNSET_CLAIM_CLOCK then clock.value else row.clock)
              && c.prl == if balance == 0 then PRL_SUCCESS
                          else if !keyReadable then row.prl
                          else if sent then PRL_PROCESSING else PRL_ERROR
  {
    c := row;
    if c.clock == UNSET_CLAIM_CLOCK {
      if clock.None? { return; }
      c := c.(clock := clock.value);
    }
    if balance == 0 {
      c := c.(prl := PRL_SUCCESS);
      return;
    }
    if !keyReadable { return; }
    if sent { c := c.(prl := PRL_PROCESSING); } else { c := c.(prl := PRL_ERROR); }
  }

  /** What a sub-step of the treasure job does to its copy of a row, which is then saved. */
  method UpdateTreasureRow(row: Claim, e: Event) returns (c: Claim)
    ensures c == TreasureStep(row, e)
  {
    c := row;
    match e
    case NotSelected =>
    case PRLChecked(_) =>
    case GasChecked(balance, needed) =>
      if c.gas == GAS_PROCESSING && needed.Some? && balance >= needed.value { c := c.(gas := GAS_SUCCESS); }
    case ClockChecked(clock) =>
      if c.prl == PRL_PROCESSING {
        if clock.None? { return; }
        if clock.value != c.clock && c.clock != UNSET_CLAIM_CLOCK { c := c.(prl := PRL_SUCCESS); }
      }
    case GasReclaimChecked(balance, needed) => c := FinishReclaim(c, balance, needed);
    case GasResent(timedOut, estimate, balance, sent) =>
      if c.gas == (if timedOut then GAS_PROCESSING else GAS_ERROR) { c := SendGasTo(c, estimate, balance, sent); }
    case PRLResent(timedOut, clock, balance, keyReadable, sent) =>
      if c.prl == (if timedOut then PRL_PROCESSING else PRL_ERROR) {
        c := ClaimPRLFrom(c, clock, balance, keyReadable, sent);
      }
    case GasReclaimReset(timedOut) =>
      if c.gas == (if timedOut then GAS_RECLAIM_PROCESSING else GAS_RECLAIM_ERROR) { c := c.(gas := GAS_SUCCESS); }
    case GasSent(_, _, estimate, balance, sent) =>
      if c.gas == GAS_NOT_STARTED { c := SendGasTo(c, estimate, balance, sent); }
    case PRLClaimed(clock, balance, keyReadable, sent) =>
      if c.gas == GAS_SUCCESS && c.prl == PRL_NOT_STARTED { c := ClaimPRLFrom(c, clock, balance, keyReadable, sent); }
    case LeftoverChecked(answer, _, sent) =>
      if c.gas == GAS_SUCCESS && c.prl == PRL_SUCCESS {
        if answer.EstimateFailed? { return; }
        if answer.NotWorth? { c := c.(gas := GAS_RECLAIM_SUCCESS); return; }
        if sent { c := c.(gas := GAS_RECLAIM_PROCESSING); }
      }
  }

  datatype Job = UnusedPRL | WebnodeTreasure

  function StepOf(job: Job): (Claim, Event) -> Claim {
    if job.UnusedPRL? then UnusedStep else TreasureStep
  }

  /** One sub-step over all rows. */
  method UpdateRows(job: Job, table: array<Claim>, round: seq<Event>)
    requires |round| == table.Length
    modifies table
    ensures forall i :: 0 <= i < table.Length ==> table[i] == StepOf(job)(old(table[i]), round[i])
  {
    for i := 0 to table.Length
      invariant forall j :: 0 <= j < i ==> table[j] == StepOf(job)(old(table[j]), round[j])
      invariant forall j :: i <= j < table.Length ==> table[j] == old(table[j])
    {
      var c;
      if job.UnusedPRL? {
        c := UpdateUnusedRow(table[i], round[i]);
      } else {
        c := UpdateTreasureRow(table[i], round[i]);
      }
      table[i] := c;
    }
  }

  /** All sub-steps of a job, each over all rows. */
  method RunSubSteps(job: Job, table: array<Claim>, rounds: seq<seq<Event>>)
    requires forall k :: 0 <= k < |rounds| ==> |rounds[k]| == table.Length
    modifies table
    ensures forall i :: 0 <= i < table.Length ==> table[i] == Fold(StepOf(job), old(table[i]), Column(rounds, i))
  {
    for k := 0 to |rounds|
      invariant forall i :: 0 <= i < table.Length ==>
                  table[i] == Fold(StepOf(job), old(table[i]), Column(rounds, i)[..k])
    {
      ghost var before := table[..];
      UpdateRows(job, table, rounds[k]);
      forall i | 0 <= i < table.Length
        ensures table[i] == Fold(StepOf(job), old(table[i]), Column(rounds, i)[..k + 1])
      {
        assert before[i] == Fold(StepOf(job), old(table[i]), Column(rounds, i)[..k]);
        FoldNext(StepOf(job), old(table[i]), rounds, i, k);
      }
    }
    forall i | 0 <= i < table.Length ensures Column(rounds, i)[..|rounds|] == Column(rounds, i) {
    }
  }

  /** One run of the job. Rows keep a history, however many runs it takes, and go only with the PRL gone. */
  method ClaimUnusedPRLs(table: array<Claim>, rounds: seq<seq<Event>>) returns (left: seq<Claim>)
    requires |rounds| == 11
    requires forall k :: 0 <= k < 11 ==> |rounds[k]| == table.Length && forall e :: e in rounds[k] ==>
        InUnusedSubStep(k, e)
    modifies table
    ensures forall i :: 0 <= i < table.Length ==> table[i] == Fold(UnusedStep, old(table[i]), Column(rounds, i))
    ensures forall i :: 0 <= i < table.Length && UnusedReached(old(table[i])) ==>
              UnusedReached(table[i]) && (!NotFinished(table[i]) ==> UnusedGone(table[i]))
    ensures left == Unpurged(table[..])
  {
    RunSubSteps(UnusedPRL, table, rounds);
    forall i | 0 <= i < table.Length && UnusedReached(old(table[i]))
      ensures UnusedReached(table[i]) && (!NotFinished(table[i]) ==> UnusedGone(table[i]))
    {
      UnusedLater(old(table[i]), Column(rounds, i));
    }
    left := Purge(table);
  }

  method ClaimTreasureForWebnode(table: array<Claim>, rounds: seq<seq<Event>>) returns (left: seq<Claim>)
    requires |rounds| == 12
    requires forall k :: 0 <= k < 12 ==> |rounds[k]| == table.Length && forall e :: e in rounds[k] ==>
        InTreasureSubStep(k, e)
    modifies table
    ensures forall i :: 0 <= i < table.Length ==> table[i] == Fold(TreasureStep, old(table[i]), Column(rounds, i))
    ensures forall i :: 0 <= i < table.Length && TreasureReached(old(table[i])) ==>
              TreasureReached(table[i]) && (!NotFinished(table[i]) ==> TreasureGone(table[i]))
    ensures left == Unpurged(table[..])
  {
    RunSubSteps(WebnodeTreasure, table, rounds);
    forall i | 0 <= i < table.Length && TreasureReached(old(table[i]))
      ensures TreasureReached(table[i]) && (!NotFinished(table[i]) ==> TreasureGone(table[i]))
    {
      TreasureLater(old(table[i]), Column(rounds, i));
    }
    left := Purge(table);
  }

  method Purge(table: array<Claim>) returns (left: seq<Claim>)
    ensures left == Unpurged(table[..])
    ensures forall c :: c in left <==> c in table[..] && c.gas != 5
  {
    left := [];
    for i := 0 to table.Length
      invariant left == Unpurged(table[..i])
    {
      assert table[..i + 1][..i] == table[..i];
      if table[i].gas != GAS_RECLAIM_SUCCESS { left := left + [table[i]]; }
    }
    assert table[..table.Length] == table[..];
    forall c ensures c in left <==> c in table[..] && c.gas != 5 { FilterMember(table[..], NotFinished, c); }
  }

  // ---- Safety over runs ----

  /** Before there is gas no PRL was claimed; gas is reclaimed only after the PRL was. */
  ghost predicate Consistent(c: Claim) {
    && (c.gas in {GAS_NOT_STARTED, GAS_PROCESSING, GAS_ERROR} ==> c.prl == PRL_NOT_STARTED)
    && (c.gas in {GAS_RECLAIM_PROCESSING, GAS_RECLAIM_SUCCESS, GAS_RECLAIM_ERROR} ==> c.prl == PRL_SUCCESS)
    && c.prl in {PRL_NOT_STARTED, PRL_PROCESSING, PRL_SUCCESS, PRL_ERROR}
    && c.gas in {GAS_NOT_STARTED, GAS_PROCESSING, GAS_SUCCESS, GAS_RECLAIM_PROCESSING, GAS_RECLAIM_SUCCESS, GAS_ERROR,
                 GAS_RECLAIM_ERROR}
  }

  lemma {:induction false} UnusedStaysConsistent(c: Claim, events: seq<Event>)
    requires Consistent(c)
    ensures Consistent(Fold(UnusedStep, c, events))
    ensures c.prl == PRL_SUCCESS ==> Fold(UnusedStep, c, events).prl == PRL_SUCCESS
  {
    if events != [] { UnusedStaysConsistent(c, events[..|events| - 1]); }
  }

  lemma {:induction false} TreasureStaysConsistent(c: Claim, events: seq<Event>)
    requires Consistent(c)
    ensures Consistent(Fold(TreasureStep, c, events))
    ensures c.prl == PRL_SUCCESS ==> Fold(TreasureStep, c, events).prl == PRL_SUCCESS
  {
    if events != [] { TreasureStaysConsistent(c, events[..|events| - 1]); }
  }

  /** The k-th event of the run showed that the PRL is gone, and took the row to success. */
  ghost predicate UnusedShownAt(c: Claim, events: seq<Event>, k: int) {
    0 <= k < |events| && UnusedEvidence(Fold(UnusedStep, c, events[..k]), events[k])
  }

  lemma {:induction false} UnusedSuccessShown(c: Claim, events: seq<Event>)
    requires Consistent(c) && c.prl != PRL_SUCCESS && Fold(UnusedStep, c, events).prl == PRL_SUCCESS
    ensures exists k :: UnusedShownAt(c, events, k)
  {
    var init := events[..|events| - 1];
    if Fold(UnusedStep, c, init).prl == PRL_SUCCESS {
      UnusedSuccessShown(c, init);
      var k :| UnusedShownAt(c, init, k);
      assert init[..k] == events[..k] && init[k] == events[k];
      assert UnusedShownAt(c, events, k);
    } else {
      assert UnusedShownAt(c, events, |init|);
    }
  }

  /** The clock the row has at the end was read by an event of the run, when the row had none. */
  ghost predicate ClockFromRun(c: Claim, events: seq<Event>) {
    exists j :: 0 <= j < |events| && ReadsClock(Fold(TreasureStep, c, events[..j]), events[j])
                && events[j].clock == Some(Fold(TreasureStep, c, events).clock)
  }

  lemma ClockStep(c: Claim, e: Event)
    ensures c.clock != UNSET_CLAIM_CLOCK ==> TreasureStep(c, e).clock == c.clock
    ensures c.clock == UNSET_CLAIM_CLOCK && TreasureStep(c, e).clock != UNSET_CLAIM_CLOCK ==>
              ReadsClock(c, e) && e.clock == Some(TreasureStep(c, e).clock)
  {
  }

  lemma {:induction false} ClockWasRead(c: Claim, events: seq<Event>)
    requires c.clock == UNSET_CLAIM_CLOCK && Fold(TreasureStep, c, events).clock != UNSET_CLAIM_CLOCK
    ensures ClockFromRun(c, events)
  {
    var init := events[..|events| - 1];
    ClockStep(Fold(TreasureStep, c, init), events[|events| - 1]);
    if Fold(TreasureStep, c, init).clock != UNSET_CLAIM_CLOCK {
      ClockWasRead(c, init);
      var j :| 0 <= j < |init| && ReadsClock(Fold(TreasureStep, c, init[..j]), init[j])
               && init[j].clock == Some(Fold(TreasureStep, c, init).clock);
      assert init[..j] == events[..j] && init[j] == events[j];
    } else {
      assert ReadsClock(Fold(TreasureStep, c, events[..|init|]), events[|init|]);
    }
  }

  /**
   * The k-th event of the run was a claim that found nothing at the address, or showed that the clock had
   * moved since the run itself had read it; and it took the row to success.
   */
  ghost predicate TreasureShownAt(c: Claim, events: seq<Event>, k: int) {
    && 0 <= k < |events| && TreasureEvidence(Fold(TreasureStep, c, events[..k]), events[k])
    && (c.clock == UNSET_CLAIM_CLOCK && ClockMoved(Fold(TreasureStep, c, events[..k]), events[k]) ==>
          ClockFromRun(c, events[..k]))
  }

  lemma TreasureSuccessStep(c: Claim, e: Event)
    requires c.prl != PRL_SUCCESS && TreasureStep(c, e).prl == PRL_SUCCESS
    ensures TreasureEvidence(c, e)
  {
  }

  lemma {:induction false} TreasureSuccessShown(c: Claim, events: seq<Event>)
    requires Consistent(c) && c.prl != PRL_SUCCESS && Fold(TreasureStep, c, events).prl == PRL_SUCCESS
    ensures exists k :: TreasureShownAt(c, events, k)
  {
    var init := events[..|events| - 1];
    if Fold(TreasureStep, c, init).prl == PRL_SUCCESS {
      TreasureSuccessShown(c, init);
      var k :| TreasureShownAt(c, init, k);
      assert init[..k] == events[..k] && init[k] == events[k];
      assert TreasureShownAt(c, events, k);
    } else {
      TreasureSuccessStep(Fold(TreasureStep, c, init), events[|init|]);
      if c.clock == UNSET_CLAIM_CLOCK && ClockMoved(Fold(TreasureStep, c, init), events[|init|]) {
        ClockWasRead(c, init);
      }
      assert TreasureShownAt(c, events, |init|);
    }
  }

  /** A row of unused PRL is purged only after its PRL was seen to be gone. */
  lemma {:induction false} UnusedPurgedOnlyClaimed(events: seq<Event>)
    requires !NotFinished(Fold(UnusedStep, NewUnusedClaim(true), events))
    ensures exists k :: UnusedShownAt(NewUnusedClaim(true), events, k)
  {
    UnusedStaysConsistent(NewUnusedClaim(true), events);
    UnusedSuccessShown(NewUnusedClaim(true), events);
  }

  /** A treasure claim is purged only after the claim was seen to have worked, or to be pointless. */
  lemma {:induction false} TreasurePurgedOnlyClaimed(events: seq<Event>)
    requires !NotFinished(Fold(TreasureStep, NewTreasureClaim(), events))
    ensures exists k :: TreasureShownAt(NewTreasureClaim(), events, k)
  {
    TreasureStaysConsistent(NewTreasureClaim(), events);
    TreasureSuccessShown(NewTreasureClaim(), events);
  }

  // ---- Exactly when a row goes on ----

  /** A reclaim ends when nothing is left, or known to be too little; a balance that covers the gas needed keeps it. */
  lemma ReclaimEndsIff(job: Job, c: Claim, balance: int, needed: Option<int>)
    requires c.gas == GAS_RECLAIM_PROCESSING
    ensures StepOf(job)(c, GasReclaimChecked(balance, needed)) ==
              if balance <= 0 || (needed.Some? && needed.value > balance) then c.(gas := 5) else c
  {
  }

  /** Gas has arrived when there is any, for unused PRL; a treasure claim needs enough of it. */
  lemma GasArrivedIff(c: Claim, balance: int, needed: Option<int>)
    requires c.gas == GAS_PROCESSING
    ensures UnusedStep(c, GasChecked(balance, needed)) == c.(gas := if balance > 0 then 3 else 2)
    ensures TreasureStep(c, GasChecked(balance, needed)) ==
              c.(gas := if needed.Some? && balance >= needed.value then 3 else 2)
  {
  }

  /** Gas for unused PRL is sent once the upload is no longer traded and there is PRL; for a treasure at once. */
  lemma GasSentIff(c: Claim, stillTrading: bool, prl: int, estimate: Option<int>, balance: int, sent: bool)
    requires c.gas == GAS_NOT_STARTED
    ensures var e := GasSent(stillTrading, prl, estimate, balance, sent);
            && UnusedStep(c, e) == c.(gas := if !stillTrading && prl != 0 && estimate.Some? && sent then 2 else 1)
            && TreasureStep(c, e) ==
                 c.(gas := if estimate.None? then 1 else if balance > estimate.value then 3 else if sent then 2 else 1)
  {
  }

  /** Old and failed transfers of gas are sent again in the same way. */
  lemma GasResentIff(c: Claim, timedOut: bool, estimate: Option<int>, balance: int, sent: bool)
    requires c.gas == if timedOut then GAS_PROCESSING else GAS_ERROR
    ensures var e := GasResent(timedOut, estimate, balance, sent);
            && UnusedStep(c, e) == c.(gas := if estimate.Some? && sent then 2 else c.gas)
            && TreasureStep(c, e) ==
                 c.(gas := if estimate.None? then c.gas else if balance > estimate.value then 3
                           else if sent then 2 else c.gas)
  {
  }

  /** The claim of unused PRL is processed once it was sent, which takes a balance query and a key that work. */
  lemma UnusedClaimIff(c: Claim, clock: Option<int>, balance: int, keyReadable: bool, sent: bool)
    requires c.gas == GAS_SUCCESS && c.prl == PRL_NOT_STARTED
    ensures UnusedStep(c, PRLClaimed(clock, balance, keyReadable, sent)) ==
              c.(prl := if balance != -1 && keyReadable && sent then 2 else 1)
    ensures forall b :: UnusedStep(c.(prl := PRL_PROCESSING), PRLChecked(b)) == c.(prl := if b == 0 then 3 else 2)
  {
  }

  /** The claim of a treasure needs the clock; with nothing at the address it is over, otherwise sent or failed. */
  lemma TreasureClaimIff(c: Claim, clock: Option<int>, balance: int, keyReadable: bool, sent: bool)
    requires c.gas == GAS_SUCCESS && c.prl == PRL_NOT_STARTED
    ensures var known := if c.clock == -1 then clock else Some(c.clock);
            TreasureStep(c, PRLClaimed(clock, balance, keyReadable, sent)) ==
              if known.None? then c
              else c.(clock := known.value,
                      prl := if balance == 0 then 3 else if !keyReadable then 1 else if sent then 2 else -1)
    ensures forall now: int :: TreasureStep(c.(prl := PRL_PROCESSING), ClockChecked(Some(now))) ==
              c.(prl := if now != c.clock && c.clock != -1 then 3 else 2)
  {
  }

  /** Old and failed claims are taken up again like new ones, each by its own sub-step. */
  lemma ClaimResentIff(c: Claim, timedOut: bool, clock: Option<int>, balance: int, keyReadable: bool, sent: bool)
    requires c.prl == if timedOut then PRL_PROCESSING else PRL_ERROR
    ensures var e := PRLResent(timedOut, clock, balance, keyReadable, sent);
            var known := if c.clock == -1 then clock else Some(c.clock);
            && UnusedStep(c, e) == c.(prl := if balance != -1 && keyReadable && sent then 2 else c.prl)
            && TreasureStep(c, e) ==
                 if known.None? then c
                 else c.(clock := known.value,
                         prl := if balance == 0 then 3 else if !keyReadable then c.prl else if sent then 2 else -1)
  {
  }

  /** When the PRL is claimed, gas worth it is reclaimed; the unused-PRL job waits before it gives up on the rest. */
  lemma LeftoverIff(c: Claim, answer: ReclaimAnswer, oldEnough: bool, sent: bool)
    requires c.gas == GAS_SUCCESS && c.prl == PRL_SUCCESS
    ensures var e := LeftoverChecked(answer, oldEnough, sent);
            && UnusedStep(c, e) ==
                 c.(gas := match answer
                           case EstimateFailed => 3
                           case NotWorth => if oldEnough then 5 else 3
                           case Worth => if sent then 4 else -2)
            && TreasureStep(c, e) ==
                 c.(gas := match answer
                           case EstimateFailed => 3
                           case NotWorth => 5
                           case Worth => if sent then 4 else 3)
  {
  }

  /** A sub-step that is not meant for a row's statuses leaves it alone. */
  lemma OthersLeaveAlone(job: Job, c: Claim, e: Event)
    requires match e
             case NotSelected => true
             case GasChecked(_, _) => c.gas != GAS_PROCESSING
             case PRLChecked(_) => c.prl != PRL_PROCESSING || job == WebnodeTreasure
             case ClockChecked(clock) => c.prl != PRL_PROCESSING || job == UnusedPRL || clock.None?
             case GasReclaimChecked(_, _) => c.gas != GAS_RECLAIM_PROCESSING
             case GasResent(timedOut, _, _, _) => c.gas != if timedOut then GAS_PROCESSING else GAS_ERROR
             case PRLResent(timedOut, _, _, _, _) => c.prl != if timedOut then PRL_PROCESSING else PRL_ERROR
             case GasReclaimReset(timedOut) =>
               c.gas != (if timedOut then GAS_RECLAIM_PROCESSING else GAS_RECLAIM_ERROR)
               || (job == UnusedPRL && !timedOut)
             case GasSent(_, _, _, _, _) => c.gas != GAS_NOT_STARTED
             case PRLClaimed(_, _, _, _) => c.gas != GAS_SUCCESS || c.prl != PRL_NOT_STARTED
             case LeftoverChecked(_, _, _) => c.gas != GAS_SUCCESS || c.prl != PRL_SUCCESS
    ensures StepOf(job)(c, e) == c
  {
  }

  // ---- One run of a job ----

  /** Checks come before sends: in its first run a row of unused PRL gets gas at most. */
  lemma {:induction false} FirstUnusedRun(c: Claim, events: seq<Event>, n: nat)
    requires c == NewUnusedClaim(true) && |events| == 11 && n <= 11
    requires forall k :: 0 <= k < 11 ==> InUnusedSubStep(k, events[k])
    ensures var d := Fold(UnusedStep, c, events[..n]);
            d.prl == PRL_NOT_STARTED && (d.gas == GAS_NOT_STARTED || (n > 8 && d.gas == GAS_PROCESSING))
  {
    if n == 0 {
      assert events[..0] == [];
    } else {
      FirstUnusedRun(c, events, n - 1);
      FoldTake(UnusedStep, c, events, n - 1);
    }
  }

  /** What a treasure claim may meet in its first run when its address has gas, but no PRL. */
  function NothingToClaimRun(clock: int): (events: seq<Event>)
    ensures |events| == 12 && forall k :: 0 <= k < 12 ==> InTreasureSubStep(k, events[k])
  {
    seq(9, _ => NotSelected)
      + [GasSent(false, 0, Some(0), 1, false), PRLClaimed(Some(clock), 0, false, false),
         LeftoverChecked(NotWorth, false, false)]
  }

  /** Sends, claim and reclaim follow each other, so such a claim is finished by the end of that run. */
  lemma TreasureFinishedInOneRun(clock: int)
    requires clock != UNSET_CLAIM_CLOCK
    ensures Fold(TreasureStep, NewTreasureClaim(), NothingToClaimRun(clock)) == Claim(5, 3, clock)
  {
    var events, c := NothingToClaimRun(clock), NewTreasureClaim();
    NothingSelected(c, events, 9);
    FoldTake(TreasureStep, c, events, 9);
    FoldTake(TreasureStep, c, events, 10);
    FoldTake(TreasureStep, c, events, 11);
    assert events[..12] == events;
  }

  lemma {:induction false} NothingSelected(c: Claim, events: seq<Event>, n: nat)
    requires n <= |events| && forall k :: 0 <= k < n ==> events[k] == NotSelected
    ensures Fold(TreasureStep, c, events[..n]) == c
  {
    if n == 0 {
      assert events[..0] == [];
    } else {
      NothingSelected(c, events, n - 1);
      FoldTake(TreasureStep, c, events, n - 1);
    }
  }

  // ---- Any number of runs ----

  ghost predicate UnusedHistory(c: Claim, userPays: bool, events: seq<Event>) {
    c == Fold(UnusedStep, NewUnusedClaim(userPays), events)
  }

  /** The row was created some time ago and has met some events since, in any number of runs. */
  ghost predicate UnusedReached(c: Claim) {
    exists userPays, events :: UnusedHistory(c, userPays, events)
  }

  /** Somewhere in the row's history its PRL was seen to be gone, unless it was created with nothing to claim. */
  ghost predicate UnusedGone(c: Claim) {
    exists userPays, events :: UnusedHistory(c, userPays, events)
      && (userPays ==> exists k :: UnusedShownAt(NewUnusedClaim(true), events, k))
  }

  lemma UnusedLater(c: Claim, later: seq<Event>)
    requires UnusedReached(c)
    ensures var d := Fold(UnusedStep, c, later); UnusedReached(d) && (!NotFinished(d) ==> UnusedGone(d))
  {
    var userPays, events :| UnusedHistory(c, userPays, events);
    FoldJoin(UnusedStep, NewUnusedClaim(userPays), events, later);
    var d := Fold(UnusedStep, c, later);
    assert UnusedHistory(d, userPays, events + later);
    if !NotFinished(d) && userPays { UnusedPurgedOnlyClaimed(events + later); }
  }

  ghost predicate TreasureReached(c: Claim) {
    exists events :: c == Fold(TreasureStep, NewTreasureClaim(), events)
  }

  /** Somewhere in the row's history the claim was seen to have worked, or to be pointless. */
  ghost predicate TreasureGone(c: Claim) {
    exists events :: c == Fold(TreasureStep, NewTreasureClaim(), events)
                     && exists k :: TreasureShownAt(NewTreasureClaim(), events, k)
  }

  lemma TreasureLater(c: Claim, later: seq<Event>)
    requires TreasureReached(c)
    ensures var d := Fold(TreasureStep, c, later); TreasureReached(d) && (!NotFinished(d) ==> TreasureGone(d))
  {
    var events :| c == Fold(TreasureStep, NewTreasureClaim(), events);
    FoldJoin(TreasureStep, NewTreasureClaim(), events, later);
    var d := Fold(TreasureStep, c, later);
    if !NotFinished(d) { TreasurePurgedOnlyClaimed(events + later); }
  }

  /** Without a user who pays, a row is born finished. */
  lemma NothingToClaimUnlessUserPays(userPays: bool)
    ensures Consistent(NewUnusedClaim(userPays)) && (NotFinished(NewUnusedClaim(userPays)) <==> userPays)
  {
  }

  /** The unused-PRL job never leaves a failed reclaim: such a row is neither retried nor purged. */
  lemma {:induction false} FailedReclaimIsForEver(c: Claim, events: seq<Event>)
    requires Consistent(c) && c.gas == GAS_RECLAIM_ERROR
    ensures Fold(UnusedStep, c, events) == c
  {
    if events != [] { FailedReclaimIsForEver(c, events[..|events| - 1]); }
  }

  /** The treasure job has a sub-step for that: one event takes the row back to where it was. */
  lemma TreasureReclaimRetried(c: Claim)
    requires Consistent(c) && c.gas in {GAS_RECLAIM_PROCESSING, GAS_RECLAIM_ERROR}
    ensures var d := TreasureStep(c, GasReclaimReset(c.gas == GAS_RECLAIM_PROCESSING));
            d == c.(gas := GAS_SUCCESS)
            && TreasureStep(d, LeftoverChecked(Worth, false, true)) == c.(gas := GAS_RECLAIM_PROCESSING)
  {
  }
}
