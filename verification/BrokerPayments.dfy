/**
 * The payment between two brokers: the client pays alpha, alpha's transaction address gets gas, and alpha
 * sends half of the PRL on to beta. Each broker keeps a row of its own; the row of an alpha session goes
 * through all stages, that of a beta session only waits.
 */
module BrokerPayments {
  import opened Core
  import opened RowJobs

  const ALPHA_PENDING := 1
  const ALPHA_CONFIRMED := 2
  const GAS_PENDING := 3
  const GAS_CONFIRMED := 4
  const BETA_PENDING := 5
  const BETA_CONFIRMED := 6
  const ALPHA_ERROR := -1
  const GAS_ERROR := -2
  const BETA_ERROR := -4

  /** `pair` stands for the addresses of the two brokers, `cost` is in wei; `deleted` says that the row is gone. */
  datatype Tx = Tx(sessionType: SessionType, hasBeta: bool, cost: nat, pair: nat, status: int, deleted: bool)

  /**
   * `needed` is the gas a PRL transfer costs. A balance of -1 is a failed query. `BetaTimedOut` lists a row
   * whose beta broker has waited too long; `PairGaveUp` deletes a row because one of its pair was listed.
   */
  datatype Event =
    | NotSelected
    | AlphaChecked(balance: int)
    | AlphaGasSent(needed: Option<int>, balance: int, sent: bool)
    | GasChecked(needed: Option<int>, balance: int)
    | BetaPaid(alphaBalance: int, betaBalance: int, sent: bool)
    | BetaChecked(balance: int)
    | ErrorStaged
    | TimedOut
    | BetaTimedOut
    | PairGaveUp
    | Purged
    | SessionPaid

  function HasEnoughGas(needed: int, balance: int): bool {
    needed - balance <= 0
  }

  /** big.Int Div: Euclidean, like Dafny's division. */
  function HalfOf(balance: int): int {
    balance / 2
  }

  function BetaThreshold(cost: nat): nat {
    cost / 2
  }

  // ---- What the sub-steps do, told by what a row becomes ----

  predicate PaidByClient(t: Tx, e: Event) {
    t.status == ALPHA_PENDING && e.AlphaChecked? && e.balance > 0 && e.balance >= t.cost
  }

  predicate HasGas(t: Tx, e: Event) {
    && t.sessionType.Alpha?
    && ((t.status == ALPHA_CONFIRMED && e.AlphaGasSent?) || (t.status == GAS_PENDING && e.GasChecked?))
    && e.needed.Some? && HasEnoughGas(e.needed.value, e.balance)
  }

  predicate GetsGas(t: Tx, e: Event) {
    t.sessionType.Alpha? && t.status == ALPHA_CONFIRMED && e.AlphaGasSent? && e.needed.Some? && e.sent && !HasGas(t, e)
  }

  /** checkAndSendHalfPrlToBeta has something to do for the row. */
  predicate TurnsToBeta(t: Tx, e: Event) {
    e.BetaPaid? && t.sessionType.Alpha? && t.status == GAS_CONFIRMED && t.hasBeta
  }

  predicate SendsHalf(t: Tx, e: Event) {
    !t.deleted && TurnsToBeta(t, e) && e.betaBalance <= 0 && e.sent
  }

  /** Looking at beta's address for this very row, a sub-step finds PRL there, and enough of it. */
  predicate BetaBalanceSeen(t: Tx, e: Event) {
    && !t.deleted
    && ((TurnsToBeta(t, e) && e.betaBalance > 0)
        || (e.BetaChecked? && t.status == BETA_PENDING && e.balance > 0 && 2 * e.balance + 1 >= t.cost))
  }

  function Next(t: Tx, e: Event): int {
    if PaidByClient(t, e) then (if t.sessionType.Alpha? then ALPHA_CONFIRMED else BETA_PENDING)
    else if e.SessionPaid? then ALPHA_CONFIRMED
    else if GetsGas(t, e) then GAS_PENDING
    else if HasGas(t, e) then GAS_CONFIRMED
    else if SendsHalf(t, e) then BETA_PENDING
    else if BetaBalanceSeen(t, e) then BETA_CONFIRMED
    else if t.sessionType.Alpha? && e.ErrorStaged? && t.status in {GAS_ERROR, BETA_ERROR} then -t.status
    else if t.sessionType.Alpha? && e.TimedOut? && t.status in {GAS_PENDING, BETA_PENDING} then t.status - 1
    else t.status
  }

  predicate Deletes(t: Tx, e: Event) {
    e.PairGaveUp? || (e.Purged? && t.status == BETA_CONFIRMED)
  }

  function Step(t: Tx, e: Event): Tx {
    if t.deleted then t else t.(status := Next(t, e), deleted := Deletes(t, e))
  }

  /** What is sent for a row, and how much of it. */
  datatype Transfer = NoTransfer | Gas(amount: int) | HalfPRL(amount: int)

  /** Just enough gas, or the half of alpha's PRL that leaves alpha no less than what beta gets. */
  ghost predicate Transfers(t: Tx, e: Event, sent: Transfer) {
    match sent
    case NoTransfer => !SendsHalf(t, e) && (t.deleted || !GetsGas(t, e))
    case Gas(amount) => !t.deleted && GetsGas(t, e) && e.balance + amount == e.needed.value
    case HalfPRL(amount) => SendsHalf(t, e) && 2 * amount <= e.alphaBalance <= 2 * amount + 1
  }

  /** The sub-steps of the job for alpha's payments, in order. */
  predicate InAlphaSubStep(k: nat, e: Event) {
    e.NotSelected?
    || (match k
        case 0 => e.AlphaChecked?
        case 1 => e.AlphaGasSent?
        case 2 => e.GasChecked?
        case 3 => e.BetaPaid?
        case _ => false)
  }

  predicate InBetaSubStep(k: nat, e: Event) {
    e.NotSelected?
    || (match k
        case 0 => e.BetaChecked?
        case 1 => e.ErrorStaged?
        case 2 => e.TimedOut?
        case 3 => e.BetaTimedOut?
        case 4 => e.Purged?
        case _ => false)
  }

  /** What a sub-step does to its copy of a row, which is then saved or deleted, and what it sends. */
  method UpdateRow(row: Tx, e: Event) returns (t: Tx, transfer: Transfer)
    ensures t == Step(row, e)
    ensures Transfers(row, e, transfer)
  {
    t, transfer := row, NoTransfer;
    if t.deleted { return; }
    match e
    case NotSelected =>
    case AlphaChecked(balance) =>
      if t.status == ALPHA_PENDING && balance > 0 && balance >= t.cost {
        if t.sessionType.Alpha? { t := t.(status := ALPHA_CONFIRMED); } else { t := t.(status := BETA_PENDING); }
      }
    case AlphaGasSent(needed, balance, sent) =>
      if t.sessionType.Alpha? && t.status == ALPHA_CONFIRMED {
        if needed.None? { return; }
        if HasEnoughGas(needed.value, balance) { t := t.(status := GAS_CONFIRMED); return; }
        if !sent { return; }
        t, transfer := t.(status := GAS_PENDING), Gas(needed.value - balance);
      }
    case GasChecked(needed, balance) =>
      if t.sessionType.Alpha? && t.status == GAS_PENDING {
        if needed.None? { return; }
        if HasEnoughGas(needed.value, balance) { t := t.(status := GAS_CONFIRMED); }
      }
    case BetaPaid(alphaBalance, betaBalance, sent) =>
      if t.sessionType.Beta? || t.status != GAS_CONFIRMED || !t.hasBeta { return; }
      if betaBalance > 0 { t := t.(status := BETA_CONFIRMED); return; }
      if sent { t, transfer := t.(status := BETA_PENDING), HalfPRL(HalfOf(alphaBalance)); }
    case BetaChecked(balance) =>
      if t.status == BETA_PENDING && balance > 0 && balance >= BetaThreshold(t.cost) {
        t := t.(status := BETA_CONFIRMED);
      }
    case ErrorStaged =>
      if t.sessionType.Alpha? && t.status in {GAS_ERROR, BETA_ERROR} { t := t.(status := t.status * -1); }
    case TimedOut =>
      if t.sessionType.Alpha? && t.status in {GAS_PENDING, BETA_PENDING} { t := t.(status := t.status - 1); }
    case BetaTimedOut =>
    case PairGaveUp =>
      t := t.(deleted := true);
    case Purged =>
      if t.status == BETA_CONFIRMED { t := t.(deleted := true); }
    case SessionPaid =>
      if t.status != ALPHA_CONFIRMED { t := t.(status := ALPHA_CONFIRMED); }
  }

  /** One sub-step over all rows. */
  method UpdateRows(table: array<Tx>, round: seq<Event>) returns (transfers: seq<Transfer>)
    requires |round| == table.Length
    modifies table
    ensures |transfers| == table.Length
    ensures forall i :: 0 <= i < table.Length ==>
              table[i] == Step(old(table[i]), round[i]) && Transfers(old(table[i]), round[i], transfers[i])
  {
    transfers := [];
    for i := 0 to table.Length
      invariant |transfers| == i
      invariant forall j :: 0 <= j < i ==> Transfers(old(table[j]), round[j], transfers[j])
      invariant forall j :: 0 <= j < i ==> table[j] == Step(old(table[j]), round[j])
      invariant forall j :: i <= j < table.Length ==> table[j] == old(table[j])
    {
      var t, transfer := UpdateRow(table[i], round[i]);
      table[i], transfers := t, transfers + [transfer];
    }
  }

  /** All sub-steps of a job, each over all rows. */
  method RunSubSteps(table: array<Tx>, rounds: seq<seq<Event>>)
    requires forall k :: 0 <= k < |rounds| ==> |rounds[k]| == table.Length
    modifies table
    ensures forall i :: 0 <= i < table.Length ==> table[i] == Fold(Step, old(table[i]), Column(rounds, i))
  {
    for k := 0 to |rounds|
      invariant forall i :: 0 <= i < table.Length ==> table[i] == Fold(Step, old(table[i]), Column(rounds, i)[..k])
    {
      ghost var before := table[..];
      var transfers := UpdateRows(table, rounds[k]);
      forall i | 0 <= i < table.Length ensures table[i] == Fold(Step, old(table[i]), Column(rounds, i)[..k + 1]) {
        assert before[i] == Fold(Step, old(table[i]), Column(rounds, i)[..k]);
        FoldNext(Step, old(table[i]), rounds, i, k);
      }
    }
    forall i | 0 <= i < table.Length ensures Column(rounds, i)[..|rounds|] == Column(rounds, i) {
    }
  }

  method CheckAlphaPayments(table: array<Tx>, rounds: seq<seq<Event>>)
    requires |rounds| == 4
    requires forall k :: 0 <= k < 4 ==> |rounds[k]| == table.Length && forall e :: e in rounds[k] ==>
        InAlphaSubStep(k, e)
    modifies table
    ensures forall i :: 0 <= i < table.Length ==> table[i] == Fold(Step, old(table[i]), Column(rounds, i))
    ensures forall i :: 0 <= i < table.Length && Reached(old(table[i])) ==>
              Reached(table[i]) && (table[i].deleted ==> DeletionShown(table[i]))
  {
    RunSubSteps(table, rounds);
    RowsReached(old(table[..]), rounds, table[..]);
  }

  // ---- Giving up on a pair of brokers ----

  /** A beta broker's row that has waited too long for its payment. */
  predicate GivesUp(t: Tx, e: Event) {
    e.BetaTimedOut? && t.sessionType.Beta? && t.status == BETA_PENDING && !t.deleted
  }

  /** The query for old rows finds it: a beta session's row that is still there and waits for beta's PRL. */
  predicate WaitedTooLong(t: Tx, e: Event) {
    e == BetaTimedOut && !t.deleted && t.sessionType == Beta && t.status == 5
  }

  /** Some listed row of the pair gives up. */
  predicate PairListed(listed: seq<Tx>, round: seq<Event>, pair: nat)
    requires |listed| == |round|
  {
    exists j :: 0 <= j < |listed| && GivesUp(listed[j], round[j]) && listed[j].pair == pair
  }

  /** What giving up means for every row: all rows of the pair go, whatever their type and status. */
  function PairRound(listed: seq<Tx>, round: seq<Event>): (events: seq<Event>)
    requires |listed| == |round|
    ensures |events| == |listed|
    ensures forall i :: 0 <= i < |listed| ==>
              events[i] == if PairListed(listed, round, listed[i].pair) then PairGaveUp else NotSelected
  {
    seq(|listed|, i requires 0 <= i < |listed| =>
      if PairListed(listed, round, listed[i].pair) then PairGaveUp else NotSelected)
  }

  method DeletePair(table: array<Tx>, pair: nat)
    modifies table
    ensures forall i :: 0 <= i < table.Length ==>
              table[i] == if old(table[i]).pair == pair then old(table[i]).(deleted := true) else old(table[i])
  {
    for i := 0 to table.Length
      invariant forall j :: 0 <= j < i ==>
                  table[j] == if old(table[j]).pair == pair then old(table[j]).(deleted := true) else old(table[j])
      invariant forall j :: i <= j < table.Length ==> table[j] == old(table[j])
    {
      if table[i].pair == pair { table[i] := table[i].(deleted := true); }
    }
  }

  /** HandleTimedOutBetaPaymentIfBeta: the rows are listed first, then their pairs deleted one by one. */
  method GiveUpOnPairs(table: array<Tx>, round: seq<Event>)
    requires |round| == table.Length
    modifies table
    ensures forall i :: 0 <= i < table.Length ==>
              table[i] == Step(old(table[i]), PairRound(old(table[..]), round)[i])
    ensures forall i :: 0 <= i < table.Length ==>
              (table[i].deleted <==>
                old(table[i]).deleted
                || exists j :: 0 <= j < table.Length && WaitedTooLong(old(table[j]), round[j])
                               && old(table[j]).pair == old(table[i]).pair)
  {
    var listed := table[..];
    for n := 0 to |listed|
      invariant forall i :: 0 <= i < table.Length ==>
        table[i] == if PairListed(listed[..n], round[..n], listed[i].pair) then listed[i].(deleted := true)
                    else listed[i]
    {
      forall pair: nat
        ensures PairListed(listed[..n + 1], round[..n + 1], pair) <==>
                  PairListed(listed[..n], round[..n], pair) || (GivesUp(listed[n], round[n]) && listed[n].pair == pair)
      {
        ListedNext(listed, round, n, pair);
      }
      if GivesUp(listed[n], round[n]) {
        DeletePair(table, listed[n].pair);
      }
    }
    assert listed[..|listed|] == listed && round[..|listed|] == round;
    forall t: Tx, e: Event ensures GivesUp(t, e) <==> WaitedTooLong(t, e) {
    }
  }

  lemma ListedNext(listed: seq<Tx>, round: seq<Event>, n: nat, pair: nat)
    requires n < |listed| == |round|
    ensures PairListed(listed[..n + 1], round[..n + 1], pair) <==>
              PairListed(listed[..n], round[..n], pair) || (GivesUp(listed[n], round[n]) && listed[n].pair == pair)
  {
    var a, b := listed[..n + 1], round[..n + 1];
    if PairListed(listed[..n], round[..n], pair) {
      var j :| 0 <= j < n && GivesUp(listed[..n][j], round[..n][j]) && listed[..n][j].pair == pair;
      assert GivesUp(a[j], b[j]) && a[j].pair == pair;
    }
    if GivesUp(listed[n], round[n]) && listed[n].pair == pair {
      assert GivesUp(a[n], b[n]) && a[n].pair == pair;
    }
    if PairListed(a, b, pair) {
      var j :| 0 <= j < n + 1 && GivesUp(a[j], b[j]) && a[j].pair == pair;
      if j < n { assert GivesUp(listed[..n][j], round[..n][j]); }
    }
  }

  /**
   * One run of the job. Giving up reaches the other rows of a pair: `met` is the rounds with that spelt out,
   * `listed` the rows as they were when the beta broker's were listed.
   */
  method CheckBetaPayments(table: array<Tx>, rounds: seq<seq<Event>>)
      returns (ghost listed: seq<Tx>, ghost met: seq<seq<Event>>)
    requires |rounds| == 5
    requires forall k :: 0 <= k < 5 ==> |rounds[k]| == table.Length && forall e :: e in rounds[k] ==>
        InBetaSubStep(k, e)
    modifies table
    ensures |listed| == table.Length && met == rounds[3 := PairRound(listed, rounds[3])]
    ensures forall i :: 0 <= i < table.Length ==>
              && listed[i] == Fold(Step, old(table[i]), Column(rounds[..3], i))
              && table[i] == Fold(Step, old(table[i]), Column(met, i))
    ensures forall i :: 0 <= i < table.Length && Reached(old(table[i])) ==>
              Reached(table[i]) && (table[i].deleted ==> DeletionShown(table[i]))
  {
    RunSubSteps(table, rounds[..3]);
    listed := table[..];
    GiveUpOnPairs(table, rounds[3]);
    ghost var given := table[..];
    var transfers := UpdateRows(table, rounds[4]);
    met := rounds[3 := PairRound(listed, rounds[3])];
    forall i | 0 <= i < table.Length ensures table[i] == Fold(Step, old(table[i]), Column(met, i)) {
      assert given[i] == Step(listed[i], met[3][i]);
      LastTwo(old(table[i]), met, i, listed[i]);
    }
    RowsReached(old(table[..]), met, table[..]);
  }

  lemma LastTwo(t: Tx, met: seq<seq<Event>>, i: nat, listed: Tx)
    requires |met| == 5 && forall k :: 0 <= k < 5 ==> i < |met[k]|
    requires listed == Fold(Step, t, Column(met[..3], i))
    ensures Fold(Step, t, Column(met, i)) == Step(Step(listed, met[3][i]), met[4][i])
  {
    var c := Column(met, i);
    assert c[..3] == Column(met[..3], i) && c[..5] == c;
    FoldNext(Step, t, met, i, 3);
    FoldNext(Step, t, met, i, 4);
  }

  /** A row as it is created while the client has not paid. */
  function NewTx(sessionType: SessionType, hasBeta: bool, cost: nat, pair: nat): Tx {
    Tx(sessionType, hasBeta, cost, pair, ALPHA_PENDING, false)
  }

  predicate KnownStatus(s: int) {
    1 <= s <= 6 || s in {ALPHA_ERROR, GAS_ERROR, BETA_ERROR}
  }

  lemma {:induction false} AfterKnown(t: Tx, events: seq<Event>)
    requires KnownStatus(t.status)
    ensures var u := Fold(Step, t, events);
            && KnownStatus(u.status) && u.sessionType == t.sessionType && u.hasBeta == t.hasBeta
            && u.cost == t.cost && u.pair == t.pair
  {
    if events != [] { AfterKnown(t, events[..|events| - 1]); }
  }

  // ---- When a row may go ----

  /** Somewhere in the run enough was seen at beta's address, for this row. */
  ghost predicate SeenIn(t: Tx, events: seq<Event>) {
    exists k :: 0 <= k < |events| && BetaBalanceSeen(Fold(Step, t, events[..k]), events[k])
  }

  predicate GaveUpIn(events: seq<Event>) {
    PairGaveUp in events
  }

  lemma LaterToo(t: Tx, events: seq<Event>)
    requires events != []
    ensures SeenIn(t, events[..|events| - 1]) ==> SeenIn(t, events)
    ensures GaveUpIn(events[..|events| - 1]) ==> GaveUpIn(events)
    ensures BetaBalanceSeen(Fold(Step, t, events[..|events| - 1]), events[|events| - 1]) ==> SeenIn(t, events)
  {
    var init := events[..|events| - 1];
    if SeenIn(t, init) {
      var k :| 0 <= k < |init| && BetaBalanceSeen(Fold(Step, t, init[..k]), init[k]);
      assert events[..k] == init[..k] && events[k] == init[k];
    }
  }

  /** The only events that finish a row, and the only ones that delete it. */
  lemma FinishingEvents(t: Tx, e: Event)
    requires KnownStatus(t.status)
    ensures t.status != BETA_CONFIRMED && Step(t, e).status == BETA_CONFIRMED ==> BetaBalanceSeen(t, e)
    ensures !t.deleted && Step(t, e).deleted ==> t.status == BETA_CONFIRMED || e.PairGaveUp?
  {
  }

  lemma {:induction false} ConfirmedWasSeen(t: Tx, events: seq<Event>)
    requires KnownStatus(t.status) && t.status != BETA_CONFIRMED && Fold(Step, t, events).status == BETA_CONFIRMED
    ensures SeenIn(t, events)
  {
    var init := events[..|events| - 1];
    AfterKnown(t, init);
    LaterToo(t, events);
    FinishingEvents(Fold(Step, t, init), events[|events| - 1]);
    if Fold(Step, t, init).status == BETA_CONFIRMED { ConfirmedWasSeen(t, init); }
  }

  /**
   * A row is deleted only after enough was seen at beta's address in a sub-step on this row, which that
   * very event confirmed, or because a beta broker's row of the same pair was given up.
   */
  lemma {:induction false} DeletedOnlyWhenPaid(t: Tx, events: seq<Event>)
    requires KnownStatus(t.status) && t.status != BETA_CONFIRMED && !t.deleted && Fold(Step, t, events).deleted
    ensures SeenIn(t, events) || GaveUpIn(events)
  {
    var init := events[..|events| - 1];
    AfterKnown(t, init);
    LaterToo(t, events);
    FinishingEvents(Fold(Step, t, init), events[|events| - 1]);
    if Fold(Step, t, init).deleted {
      DeletedOnlyWhenPaid(t, init);
    } else if Fold(Step, t, init).status == BETA_CONFIRMED {
      ConfirmedWasSeen(t, init);
    }
  }

  // ---- Any number of runs ----

  /** A row as it may have been created: unfinished, whether or not the client had paid. */
  predicate Created(t: Tx) {
    KnownStatus(t.status) && t.status != BETA_CONFIRMED && !t.deleted
  }

  ghost predicate History(t: Tx, first: Tx, events: seq<Event>) {
    Created(first) && t == Fold(Step, first, events)
  }

  /** The row was created some time ago and has met some events since, in any number of runs of both jobs. */
  ghost predicate Reached(t: Tx) {
    exists first, events :: History(t, first, events)
  }

  /** The row's history shows the payment to beta, or that its pair was given up. */
  ghost predicate DeletionShown(t: Tx) {
    exists first, events :: History(t, first, events) && (SeenIn(first, events) || GaveUpIn(events))
  }

  lemma ReachedLater(t: Tx, later: seq<Event>)
    requires Reached(t)
    ensures var u := Fold(Step, t, later); Reached(u) && (u.deleted ==> DeletionShown(u))
  {
    var first, events :| History(t, first, events);
    FoldJoin(Step, first, events, later);
    var u := Fold(Step, t, later);
    assert History(u, first, events + later);
    if u.deleted { DeletedOnlyWhenPaid(first, events + later); }
  }

  lemma RowsReached(before: seq<Tx>, rounds: seq<seq<Event>>, after: seq<Tx>)
    requires |before| == |after| && forall k :: 0 <= k < |rounds| ==> |rounds[k]| == |before|
    requires forall i :: 0 <= i < |before| ==> after[i] == Fold(Step, before[i], Column(rounds, i))
    ensures forall i :: 0 <= i < |before| && Reached(before[i]) ==>
              Reached(after[i]) && (after[i].deleted ==> DeletionShown(after[i]))
  {
    forall i | 0 <= i < |before| && Reached(before[i])
      ensures Reached(after[i]) && (after[i].deleted ==> DeletionShown(after[i]))
    {
      ReachedLater(before[i], Column(rounds, i));
    }
  }

  lemma FoldTwo(t: Tx, first: Event, second: Event)
    ensures Fold(Step, t, [first, second]) == Step(Step(t, first), second)
  {
    var one, two := [first], [first, second];
    assert one[..0] == [] && two[..1] == one;
    assert Fold(Step, t, one[..0]) == t;
    assert Fold(Step, t, one) == Step(t, one[0]);
    assert Fold(Step, t, two) == Step(Fold(Step, t, two[..1]), two[1]);
  }

  /** A beta broker can lose a row without having been paid, and gives it up by itself. */
  lemma BetaRowLostUnpaid(cost: nat, pair: nat)
    ensures var t, events := NewTx(Beta, true, cost, pair), [AlphaChecked(cost + 1), PairGaveUp];
            && GivesUp(Step(t, events[0]), BetaTimedOut)
            && Fold(Step, t, events).deleted && !SeenIn(t, events)
  {
    var t, events := NewTx(Beta, true, cost, pair), [AlphaChecked(cost + 1), PairGaveUp];
    FoldTwo(t, events[0], events[1]);
    assert !BetaBalanceSeen(Fold(Step, t, events[..0]), events[0]);
    assert !BetaBalanceSeen(Fold(Step, t, events[..1]), events[1]);
  }

  /** Giving up takes every row of the pair along, also one that has already paid half to beta. */
  lemma PairGoesTogether(listed: seq<Tx>, round: seq<Event>, i: nat, j: nat)
    requires i < |listed| == |round| && j < |listed| && GivesUp(listed[j], round[j]) && listed[i].pair == listed[j].pair
    ensures Step(listed[i], PairRound(listed, round)[i]).deleted
  {
    assert PairListed(listed, round, listed[i].pair);
  }

  /**
   * Once its session is set to paid, a beta broker's row waits for ever: no sub-step is meant for it, and
   * it only goes if another row of its pair is given up.
   */
  lemma {:induction false} PaidBetaRowIsStuck(t: Tx, events: seq<Event>)
    requires t.sessionType.Beta? && t.status == ALPHA_CONFIRMED && !t.deleted
    ensures Fold(Step, t, events) == t.(deleted := GaveUpIn(events))
  {
    if events != [] {
      PaidBetaRowIsStuck(t, events[..|events| - 1]);
      assert events == events[..|events| - 1] + [events[|events| - 1]];
    }
  }

  // ---- How often half the PRL is sent ----

  function HalfPayments(t: Tx, events: seq<Event>): nat {
    if events == [] then 0 else
      var init := events[..|events| - 1];
      HalfPayments(t, init) + if SendsHalf(Fold(Step, t, init), events[|events| - 1]) then 1 else 0
  }

  /** What takes a row back from waiting for beta: a time-out, or the session being set to paid. */
  predicate TakesBack(t: Tx, e: Event) {
    !t.deleted && t.status == BETA_PENDING && (e.TimedOut? || e.SessionPaid?)
  }

  function TakenBack(t: Tx, events: seq<Event>): nat {
    if events == [] then 0 else
      var init := events[..|events| - 1];
      TakenBack(t, init) + if TakesBack(Fold(Step, t, init), events[|events| - 1]) then 1 else 0
  }

  /** A session set to paid while the row was already finished starts the row over. */
  function Reopened(t: Tx, events: seq<Event>): nat {
    if events == [] then 0 else
      var init := events[..|events| - 1];
      Reopened(t, init)
      + if !Fold(Step, t, init).deleted && Fold(Step, t,
          init).status == BETA_CONFIRMED && events[|events| - 1].SessionPaid? then 1 else 0
  }

  /** Half the PRL is sent at most once more than the row is taken back or reopened. */
  lemma {:induction false} HalfPaymentsBounded(cost: nat, hasBeta: bool, pair: nat, events: seq<Event>)
    ensures var t := NewTx(Alpha, hasBeta, cost, pair);
            var waits := if Fold(Step, t, events).status in {BETA_PENDING, BETA_CONFIRMED} then 1 else 0;
            HalfPayments(t, events) <= TakenBack(t, events) + Reopened(t, events) + waits
  {
    if events != [] {
      var init := events[..|events| - 1];
      HalfPaymentsBounded(cost, hasBeta, pair, init);
      AfterKnown(NewTx(Alpha, hasBeta, cost, pair), init);
    }
  }

  /** Until beta is confirmed, the payments are exactly accounted for: taken back, or the pending one. */
  lemma {:induction false} HalfPaymentsExact(cost: nat, hasBeta: bool, pair: nat, events: seq<Event>)
    ensures var t := NewTx(Alpha, hasBeta, cost, pair);
            var s := Fold(Step, t, events).status;
            Reopened(t, events) == 0 && s != BETA_CONFIRMED ==>
              HalfPayments(t, events) == TakenBack(t, events) + (if s == BETA_PENDING then 1 else 0)
  {
    if events != [] {
      var init := events[..|events| - 1];
      HalfPaymentsExact(cost, hasBeta, pair, init);
      AfterKnown(NewTx(Alpha, hasBeta, cost, pair), init);
    }
  }

  /** A time-out goes back to the stage from which the pending one was entered. */
  lemma TimeOutRestoresStage(t: Tx, e: Event)
    requires t.sessionType.Alpha? && SendsHalf(t, e)
    ensures Step(Step(t, e), TimedOut) == t
  {
  }

  /** Half of a sufficient payment is enough for beta exactly when it is not nothing. */
  lemma HalfMeetsThresholdIff(t: Tx, e: Event, half: int)
    requires SendsHalf(t, e) && Transfers(t, e, HalfPRL(half)) && t.cost <= e.alphaBalance
    ensures Step(Step(t, e), BetaChecked(half)).status == BETA_CONFIRMED <==> e.alphaBalance >= 2
  {
  }

  /** The gas sent is just enough: once it has arrived the row goes on, and with less it would not. */
  lemma GasSuffices(t: Tx, e: Event, amount: int, arrived: int)
    requires !t.deleted && GetsGas(t, e) && Transfers(t, e, Gas(amount))
    ensures amount > 0
    ensures Step(Step(t, e), GasChecked(e.needed, e.balance + arrived)).status == GAS_CONFIRMED <==> arrived >= amount
  {
  }

  // ---- Exactly when a row goes on ----

  /** The client has paid when alpha's address has something, and all of the cost. */
  lemma ClientPaidIff(t: Tx, balance: int)
    requires t.status == ALPHA_PENDING && !t.deleted
    ensures Step(t, AlphaChecked(balance)) ==
              if balance > 0 && balance >= t.cost then t.(status := if t.sessionType == Alpha then 2 else 5) else t
  {
  }

  /** Gas is there when the balance covers what is needed; it is sent only when not. */
  lemma GasThereIff(t: Tx, needed: int, balance: int, sent: bool)
    requires t.sessionType.Alpha? && !t.deleted
    ensures t.status == ALPHA_CONFIRMED ==>
              Step(t, AlphaGasSent(Some(needed), balance, sent)) ==
                t.(status := if balance >= needed then 4 else if sent then 3 else 2)
    ensures t.status == GAS_PENDING ==>
              Step(t, GasChecked(Some(needed), balance)) == t.(status := if balance >= needed then 4 else 3)
  {
  }

  /** Alpha turns to beta only with a beta address: any PRL there counts as paid, otherwise half is sent. */
  lemma BetaTurnIff(t: Tx, alphaBalance: int, betaBalance: int, sent: bool)
    requires t.sessionType.Alpha? && t.status == GAS_CONFIRMED && !t.deleted
    ensures Step(t, BetaPaid(alphaBalance, betaBalance, sent)) ==
              t.(status := if !t.hasBeta then 4 else if betaBalance > 0 then 6 else if sent then 5 else 4)
  {
  }

  /** Beta has been paid when its address has something, and at least half of the cost, rounded down. */
  lemma BetaPaidIff(t: Tx, balance: int)
    requires t.status == BETA_PENDING && !t.deleted
    ensures Step(t, BetaChecked(balance)) ==
              t.(status := if balance > 0 && 2 * balance + 1 >= t.cost then 6 else 5)
  {
  }

  /** Errors and time-outs lead back to the stage before; only finished rows are purged. */
  lemma StagedBackIff(t: Tx)
    requires !t.deleted && KnownStatus(t.status)
    ensures Step(t, TimedOut) ==
              t.(status := if t.sessionType == Alpha && t.status in {3, 5} then t.status - 1 else t.status)
    ensures Step(t, ErrorStaged) ==
              t.(status := if t.sessionType == Alpha && t.status in {-2, -4} then -t.status else t.status)
    ensures Step(t, Purged) == t.(deleted := t.status == 6)
    ensures Step(t, SessionPaid) == t.(status := 2)
  {
  }

  /** A check that is not meant for a row's status leaves it alone. */
  lemma OthersLeaveAlone(t: Tx, e: Event)
    ensures (e.AlphaChecked? && t.status != ALPHA_PENDING) || (e.AlphaGasSent? && t.status != ALPHA_CONFIRMED)
            || (e.GasChecked? && t.status != GAS_PENDING) || (e.BetaPaid? && t.status != GAS_CONFIRMED)
            || (e.BetaChecked? && t.status != BETA_PENDING) || e.NotSelected? || e.BetaTimedOut? || t.deleted ==>
              Step(t, e) == t
    ensures t.sessionType.Beta? && (e.AlphaGasSent? || e.GasChecked? || e.BetaPaid?) ==> Step(t, e) == t
    ensures (e.AlphaGasSent? || e.GasChecked?) && e.needed.None? ==> Step(t, e) == t
  {
  }

  // ---- One run of a job ----

  /** The sub-steps for alpha follow each other: with payment and gas there, beta is paid in the same run. */
  lemma BetaPaidInOneRun(cost: nat, pair: nat)
    ensures var t, events := NewTx(Alpha, true, cost, pair),
                             [AlphaChecked(cost + 1), AlphaGasSent(Some(1), 0, true), GasChecked(Some(1), 1),
                              BetaPaid(cost + 1, 0, true)];
            (forall k :: 0 <= k < 4 ==> InAlphaSubStep(k, events[k]))
            && Fold(Step, t, events).status == BETA_PENDING
  {
    var t, events := NewTx(Alpha, true, cost, pair),
                     [AlphaChecked(cost + 1), AlphaGasSent(Some(1), 0, true), GasChecked(Some(1), 1),
                      BetaPaid(cost + 1, 0, true)];
    assert events[..0] == [] && events[..4] == events;
    FoldTake(Step, t, events, 0);
    FoldTake(Step, t, events, 1);
    FoldTake(Step, t, events, 2);
    FoldTake(Step, t, events, 3);
  }

  /** Payments are checked before rows are staged back or given up: a row seen to be paid is confirmed and purged. */
  lemma PaidRowNotGivenUp(t: Tx, events: seq<Event>, balance: int, e: Event)
    requires t.status == BETA_PENDING && !t.deleted && balance > 0 && 2 * balance + 1 >= t.cost
    requires |events| == 3 && events[0] == BetaChecked(balance)
    requires forall k :: 0 <= k < 3 ==> InBetaSubStep(k, events[k])
    ensures var u := Fold(Step, t, events);
            u == t.(status := BETA_CONFIRMED) && !GivesUp(u, e) && Step(u, Purged).deleted
  {
    assert events[..0] == [] && events[..3] == events;
    FoldTake(Step, t, events, 0);
    FoldTake(Step, t, events, 1);
    FoldTake(Step, t, events, 2);
  }

  // ---- Alpha pays only what it was paid for ----

  /** The row learns that the client has paid: all of the cost was seen, or its session was set to paid. */
  ghost predicate ClientShown(t: Tx, e: Event) {
    e.SessionPaid? || (t.status == ALPHA_PENDING && e.AlphaChecked? && e.balance > 0 && e.balance >= t.cost)
  }

  /** The row learns that there is enough gas, while it was waiting for that. */
  ghost predicate GasShown(t: Tx, e: Event) {
    && t.status in {ALPHA_CONFIRMED, GAS_PENDING}
    && (e.AlphaGasSent? || e.GasChecked?) && e.needed.Some? && e.balance >= e.needed.value
  }

  ghost predicate ClientShownIn(t: Tx, events: seq<Event>) {
    exists k :: 0 <= k < |events| && ClientShown(Fold(Step, t, events[..k]), events[k])
  }

  ghost predicate GasShownIn(t: Tx, events: seq<Event>) {
    exists k :: 0 <= k < |events| && GasShown(Fold(Step, t, events[..k]), events[k])
  }

  lemma ShownLater(t: Tx, events: seq<Event>)
    requires events != []
    ensures var init := events[..|events| - 1];
            && (ClientShownIn(t, init) || ClientShown(Fold(Step, t, init), events[|events| - 1]) ==>
                  ClientShownIn(t, events))
            && (GasShownIn(t, init) || GasShown(Fold(Step, t, init), events[|events| - 1]) ==> GasShownIn(t, events))
  {
    var init := events[..|events| - 1];
    if ClientShownIn(t, init) {
      var k :| 0 <= k < |init| && ClientShown(Fold(Step, t, init[..k]), init[k]);
      assert events[..k] == init[..k] && events[k] == init[k];
    }
    if GasShownIn(t, init) {
      var k :| 0 <= k < |init| && GasShown(Fold(Step, t, init[..k]), init[k]);
      assert events[..k] == init[..k] && events[k] == init[k];
    }
  }

  /** In any run alpha's row leaves its first stage only when the client was seen to pay, the next only with gas. */
  lemma {:induction false} StagesShown(cost: nat, hasBeta: bool, pair: nat, events: seq<Event>)
    ensures var t := NewTx(Alpha, hasBeta, cost, pair);
            var u := Fold(Step, t, events);
            && 1 <= u.status <= 6
            && (u.status != ALPHA_PENDING ==> ClientShownIn(t, events))
            && (u.status in {GAS_CONFIRMED, BETA_PENDING, BETA_CONFIRMED} ==> GasShownIn(t, events))
  {
    if events != [] {
      var init := events[..|events| - 1];
      StagesShown(cost, hasBeta, pair, init);
      ShownLater(NewTx(Alpha, hasBeta, cost, pair), events);
      AfterKnown(NewTx(Alpha, hasBeta, cost, pair), init);
    }
  }

  /** So half of the PRL is sent on only after both. */
  lemma HalfSentOnlyWhenPaid(cost: nat, hasBeta: bool, pair: nat, events: seq<Event>, e: Event)
    requires SendsHalf(Fold(Step, NewTx(Alpha, hasBeta, cost, pair), events), e)
    ensures ClientShownIn(NewTx(Alpha, hasBeta, cost, pair), events)
    ensures GasShownIn(NewTx(Alpha, hasBeta, cost, pair), events)
  {
    StagesShown(cost, hasBeta, pair, events);
  }
}
