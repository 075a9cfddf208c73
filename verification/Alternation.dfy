/** What two threads that take turns promise, whatever they synchronise with: the prints come one
    from each in turn. The three-mutex and the two-semaphore protocol both refine this machine,
    with opposite first movers. */
module Alternation {

  datatype Thread = Main | New

  function Other(t: Thread): Thread { if t.Main? then New else Main }

  /** One printed line: who printed it and its loop counter. */
  datatype Line = Line(who: Thread, i: nat)

  /** The only line that may come after `k` lines. */
  function Expected(first: Thread, k: nat): Line {
    Line(if k % 2 == 0 then first else Other(first), k / 2)
  }

  /** One step of the abstract machine: the thread whose turn it is prints its next line. */
  ghost predicate Turn(first: Thread, n: nat, trace: seq<Line>, trace': seq<Line>) {
    |trace| < 2 * n && trace' == trace + [Expected(first, |trace|)]
  }

  /** A history of the abstract machine; a step of an implementation may also print nothing. */
  ghost predicate TakesTurns(first: Thread, n: nat, history: seq<seq<Line>>) {
    && history != [] && history[0] == []
    && forall k | 0 <= k < |history| - 1 ::
         history[k + 1] == history[k] || Turn(first, n, history[k], history[k + 1])
  }

  /** The prints of an implementation along one of its runs. */
  function Traces<S>(run: seq<S>, trace: S -> seq<Line>): (h: seq<seq<Line>>)
    ensures |h| == |run| && forall k | 0 <= k < |run| :: h[k] == trace(run[k])
  {
    seq(|run|, k requires 0 <= k < |run| => trace(run[k]))
  }

  ghost predicate Alternates(first: Thread, n: nat, trace: seq<Line>) {
    && |trace| <= 2 * n
    && forall k | 0 <= k < |trace| :: trace[k] == Expected(first, k)
  }

  function Lines(trace: seq<Line>, t: Thread): nat {
    if trace == [] then 0 else Lines(trace[..|trace| - 1], t) + (if trace[|trace| - 1].who == t then 1 else 0)
  }

  lemma {:induction false} TurnsAlternate(first: Thread, n: nat, history: seq<seq<Line>>, k: nat)
    requires TakesTurns(first, n, history) && k < |history|
    ensures Alternates(first, n, history[k])
  {
    if k > 0 {
      TurnsAlternate(first, n, history, k - 1);
      assert history[k - 1 + 1] == history[k];
    }
  }

  /** In an alternating trace neither thread is ever more than one line ahead, the first mover is
      never behind, and a full trace has `n` lines of each. */
  lemma {:induction false} Balanced(first: Thread, n: nat, trace: seq<Line>)
    requires Alternates(first, n, trace)
    ensures Lines(trace, first) == (|trace| + 1) / 2
    ensures Lines(trace, Other(first)) == |trace| / 2
  {
    if trace != [] {
      Balanced(first, n, trace[..|trace| - 1]);
    }
  }
}
