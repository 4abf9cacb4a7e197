/**
 * What a periodic job does to the rows of a table. A job is a list of sub-steps; each sub-step goes over
 * all rows before the next begins, and changes a row by what the outside world answers for it.
 */
module RowJobs {

  /** A row after a list of events, one after the other. */
  function Fold<R, E>(step: (R, E) -> R, r: R, events: seq<E>): R {
    if events == [] then r else step(Fold(step, r, events[..|events| - 1]), events[|events| - 1])
  }

  /** The events of row `i`, one of each sub-step. */
  function Column<E>(rounds: seq<seq<E>>, i: nat): (events: seq<E>)
    requires forall k :: 0 <= k < |rounds| ==> i < |rounds[k]|
    ensures |events| == |rounds| && forall k :: 0 <= k < |rounds| ==> events[k] == rounds[k][i]
  {
    seq(|rounds|, k requires 0 <= k < |rounds| => rounds[k][i])
  }

  /** The event of the next sub-step comes last. */
  lemma FoldNext<R, E>(step: (R, E) -> R, r: R, rounds: seq<seq<E>>, i: nat, k: nat)
    requires k < |rounds| && forall m :: 0 <= m < |rounds| ==> i < |rounds[m]|
    ensures Fold(step, r, Column(rounds, i)[..k + 1]) == step(Fold(step, r, Column(rounds, i)[..k]), rounds[k][i])
  {
    assert Column(rounds, i)[..k + 1][..k] == Column(rounds, i)[..k];
  }

  lemma {:induction false} FoldJoin<R, E>(step: (R, E) -> R, r: R, a: seq<E>, b: seq<E>)
    ensures Fold(step, r, a + b) == Fold(step, Fold(step, r, a), b)
    decreases |b|
  {
    if b == [] {
      assert a + b == a;
    } else {
      FoldJoin(step, r, a, b[..|b| - 1]);
      assert (a + b)[..|a + b| - 1] == a + b[..|b| - 1];
    }
  }

  lemma FoldTake<R, E>(step: (R, E) -> R, r: R, events: seq<E>, k: nat)
    requires k < |events|
    ensures Fold(step, r, events[..k + 1]) == step(Fold(step, r, events[..k]), events[k])
  {
    assert events[..k + 1][..k] == events[..k];
  }
}
