/** The series for pi, split over threads (lab8/main.c), with the number of steps as a parameter and
    exact reals for `double`. The split is not a tiling in general: the additional iteration of a
    thread widens its range but does not shift the ranges after it. */
module PartialSums {

  // ----- The series -----

  function Term(i: nat): real { 1.0 / (i as real * 4.0 + 1.0) - 1.0 / (i as real * 4.0 + 3.0) }

  /** The terms from `from` up to but not including `to`. */
  function Sum(from: nat, to: nat): real
    decreases to
  {
    if from >= to then 0.0 else Sum(from, to - 1) + Term(to - 1)
  }

  // ----- The program -----

  datatype PartialSumArgs = PartialSumArgs(startIndex: nat, endIndex: nat, result: real)

  /** The iterations every thread gets. */
  function Share(steps: nat, n: nat): nat
    requires n > 0
  {
    steps / n
  }

  /** The iterations left over. */
  function Rest(steps: nat, n: nat): (r: nat)
    requires n > 0
    ensures r < n && steps == n * Share(steps, n) + r
  {
    steps % n
  }

  function StartIndex(steps: nat, n: nat, t: nat): nat
    requires n > 0
  {
    t * (Share(steps, n))
  }

  function EndIndex(steps: nat, n: nat, t: nat): nat
    requires n > 0
  {
    StartIndex(steps, n, t) + Share(steps, n) + (if t < Rest(steps, n) then 1 else 0)
  }

  /** The ranges the program gives its first `k` threads, summed. */
  function Joined(steps: nat, n: nat, k: nat): real
    requires n > 0
  {
    if k == 0 then 0.0
    else Joined(steps, n, k - 1) + Sum(StartIndex(steps, n, k - 1), EndIndex(steps, n, k - 1))
  }

  method CreateThreadsForPartialSum(steps: nat, threadsArgs: array<PartialSumArgs>)
    requires threadsArgs.Length > 0
    modifies threadsArgs
    ensures forall t | 0 <= t < threadsArgs.Length ::
      threadsArgs[t] == PartialSumArgs(StartIndex(steps, threadsArgs.Length, t), EndIndex(steps, threadsArgs.Length, t),
                                       old(threadsArgs[t]).result)
  {
    var numOfThreads := threadsArgs.Length;
    var iterationNumForThread := steps / numOfThreads;
    var numOfAdditionalIterations := steps % numOfThreads;
    for threadNum := 0 to numOfThreads
      invariant forall t | 0 <= t < threadNum ::
        threadsArgs[t] == PartialSumArgs(StartIndex(steps, numOfThreads, t), EndIndex(steps, numOfThreads, t),
                                         old(threadsArgs[t]).result)
      invariant forall t | threadNum <= t < numOfThreads :: threadsArgs[t] == old(threadsArgs[t])
    {
      var start := threadNum * iterationNumForThread;
      threadsArgs[threadNum] := threadsArgs[threadNum].(startIndex := start, endIndex := start + iterationNumForThread);
      if threadNum < numOfAdditionalIterations {
        threadsArgs[threadNum] := threadsArgs[threadNum].(endIndex := threadsArgs[threadNum].endIndex + 1);
      }
    }
  }

  /** A record once its thread has finished. */
  function Summed(args: PartialSumArgs): PartialSumArgs {
    args.(result := Sum(args.startIndex, args.endIndex))
  }

  /** The body of thread `t`: it reads and writes its own record only. */
  method CalcPartialSum(threadsArgs: array<PartialSumArgs>, t: nat)
    requires t < threadsArgs.Length
    modifies threadsArgs
    ensures threadsArgs[t] == Summed(old(threadsArgs[t]))
    ensures forall u | 0 <= u < threadsArgs.Length && u != t :: threadsArgs[u] == old(threadsArgs[u])
  {
    var args := threadsArgs[t];
    var partialSum := 0.0;
    var i := args.startIndex;
    while i < args.endIndex
      invariant args.startIndex <= i && (i <= args.endIndex || i == args.startIndex)
      invariant partialSum == Sum(args.startIndex, i)
    {
      partialSum := partialSum + 1.0 / (i as real * 4.0 + 1.0);
      partialSum := partialSum - 1.0 / (i as real * 4.0 + 3.0);
      i := i + 1;
    }
    threadsArgs[t] := args.(result := partialSum);
  }

  predicate IsSchedule(order: seq<nat>, n: nat) {
    && (forall t | 0 <= t < n :: t in order)
    && (forall k | 0 <= k < |order| :: order[k] < n)
  }

  /** The threads in the order in which they finish. */
  method RunThreads(threadsArgs: array<PartialSumArgs>, order: seq<nat>)
    requires IsSchedule(order, threadsArgs.Length)
    modifies threadsArgs
    ensures forall t | 0 <= t < threadsArgs.Length ::
      threadsArgs[t] == Summed(old(threadsArgs[t]))
  {
    for k := 0 to |order|
      invariant forall t | 0 <= t < threadsArgs.Length ::
        && threadsArgs[t].startIndex == old(threadsArgs[t]).startIndex
        && threadsArgs[t].endIndex == old(threadsArgs[t]).endIndex
      invariant forall j | 0 <= j < k ::
        threadsArgs[order[j]].result == Sum(old(threadsArgs[order[j]]).startIndex, old(threadsArgs[order[j]]).endIndex)
    {
      CalcPartialSum(threadsArgs, order[k]);
    }
    forall t | 0 <= t < threadsArgs.Length
      ensures threadsArgs[t].result == Sum(old(threadsArgs[t]).startIndex, old(threadsArgs[t]).endIndex)
    {
      assert t in order;
      var j :| 0 <= j < |order| && order[j] == t;
    }
  }

  method JoinThreadsWithPartialSum(steps: nat, threadsArgs: array<PartialSumArgs>, sumBefore: real) returns (sum: real)
    requires threadsArgs.Length > 0
    requires forall t | 0 <= t < threadsArgs.Length ::
      threadsArgs[t].result == Sum(StartIndex(steps, threadsArgs.Length, t), EndIndex(steps, threadsArgs.Length, t))
    ensures sum == sumBefore + Joined(steps, threadsArgs.Length, threadsArgs.Length)
  {
    sum := sumBefore;
    for threadNum := 0 to threadsArgs.Length
      invariant sum == sumBefore + Joined(steps, threadsArgs.Length, threadNum)
    {
      sum := sum + threadsArgs[threadNum].result;
    }
  }

  /** Whatever the schedule, the program returns four times the sequential sum plus the error of
      its split. */
  method CalculatePi(steps: nat, numOfThreads: nat, order: seq<nat>) returns (pi: real)
    requires numOfThreads > 0 && IsSchedule(order, numOfThreads)
    ensures pi == (Sum(0, steps) + Deviation(steps, numOfThreads)) * 4.0
  {
    var threadsArgs := new PartialSumArgs[numOfThreads](_ => PartialSumArgs(0, 0, 0.0));
    CreateThreadsForPartialSum(steps, threadsArgs);
    RunThreads(threadsArgs, order);
    pi := 0.0;
    pi := JoinThreadsWithPartialSum(steps, threadsArgs, pi);
    pi := pi * 4.0;
    JoinedIsSumPlusDeviation(steps, numOfThreads);
  }

  // ----- The error of the split -----

  /** The terms at `q`, `2 * q`, ..., `k * q`. */
  function Boundary(q: nat, k: nat): real {
    if k == 0 then 0.0 else Boundary(q, k - 1) + Term(k * q)
  }

  /** Terms summed twice less terms not summed at all. */
  function Deviation(steps: nat, n: nat): real
    requires n > 0
  {
    Boundary(Share(steps, n), Rest(steps, n)) - Sum(n * (Share(steps, n)), steps)
  }

  lemma {:induction false} SumSplits(a: nat, b: nat, c: nat)
    requires a <= b <= c
    ensures Sum(a, c) == Sum(a, b) + Sum(b, c)
  {
    if b < c { SumSplits(a, b, c - 1); }
  }

  function Min(a: nat, b: nat): nat { if a < b then a else b }

  lemma Times(k: nat, q: nat)
    requires k > 0
    ensures k * q == (k - 1) * q + q && (k - 1) * q >= 0
  {
  }

  /** One thread's range continues the tiling, and its additional iteration is the next term. */
  lemma OneRange(from: nat, q: nat, extra: nat)
    requires extra <= 1
    ensures Sum(from, from + q + extra)
      == Sum(0, from + q) - Sum(0, from) + (if extra == 1 then Term(from + q) else 0.0)
  {
    SumSplits(0, from, from + q);
    if extra == 1 {
      assert from + q + extra - 1 == from + q;
    }
  }

  lemma {:induction false} JoinedPrefix(steps: nat, n: nat, k: nat)
    requires 0 < n && k <= n
    ensures Joined(steps, n, k) == Sum(0, k * (Share(steps, n))) + Boundary(Share(steps, n), Min(k, Rest(steps, n)))
  {
    if k > 0 {
      JoinedPrefix(steps, n, k - 1);
      var q, r := Share(steps, n), Rest(steps, n);
      Times(k, q);
      OneRange((k - 1) * q, q, if k - 1 < r then 1 else 0);
      hide Sum, Term;
    }
  }

  lemma JoinedIsSumPlusDeviation(steps: nat, n: nat)
    requires n > 0
    ensures Joined(steps, n, n) == Sum(0, steps) + Deviation(steps, n)
  {
    JoinedPrefix(steps, n, n);
    SumSplits(0, n * (Share(steps, n)), steps);
  }

  lemma ReciprocalFalls(x: real, y: real)
    requires 0.0 < x < y
    ensures 0.0 < 1.0 / y < 1.0 / x
  {
  }

  lemma TermAsProduct(i: nat)
    ensures var x := i as real * 4.0 + 1.0; Term(i) == 2.0 * (1.0 / (x * (x + 2.0)))
  {
    var x := i as real * 4.0 + 1.0;
    var p, a, b := x * (x + 2.0), 1.0 / x, 1.0 / (x + 2.0);
    assert p * a == x + 2.0 && p * b == x;
    assert p * (a - b) == 2.0;
  }

  lemma TermFalls(i: nat, j: nat)
    requires i < j
    ensures 0.0 < Term(j) < Term(i)
  {
    var x, y := i as real * 4.0 + 1.0, j as real * 4.0 + 1.0;
    TermAsProduct(i);
    TermAsProduct(j);
    SquareGrows(x, y);
    ReciprocalFalls(x * (x + 2.0), y * (y + 2.0));
    hide Term;
  }

  lemma SquareGrows(x: real, y: real)
    requires 0.0 < x < y
    ensures 0.0 < x * (x + 2.0) < y * (y + 2.0)
  {
  }

  lemma Scales(a: nat, b: nat, q: nat)
    requires a <= b
    ensures a * q <= b * q
  {
  }

  /** The error after `k` additional iterations, each of which replaces a term by an earlier one. */
  function Gap(n: nat, q: nat, k: nat): real { Boundary(q, k) - Sum(n * q, n * q + k) }

  function Gain(n: nat, q: nat, k: nat): real
    requires k > 0
  {
    Term(k * q) - Term(n * q + (k - 1))
  }

  /** One additional iteration takes an earlier term for a later one. */
  lemma OneMoreExtra(n: nat, q: nat, k: nat)
    requires 0 < k < n
    ensures 0.0 <= Gain(n, q, k) <= Term(q)
    ensures Gain(n, q, k) == 0.0 <==> k == 1 && q == 0
  {
    var taken, missed := k * q, n * q + (k - 1);
    hide Term;
    Scales(1, k, q);
    Scales(k + 1, n, q);
    Times(k + 1, q);
    TermFalls(missed, missed + 1);
    if taken < missed { TermFalls(taken, missed); }
    if q < taken { TermFalls(q, taken); }
  }

  lemma GapStartsAtZero(n: nat, q: nat)
    ensures Gap(n, q, 0) == 0.0
  {
  }

  lemma GapGrows(n: nat, q: nat, k: nat)
    requires k > 0
    ensures Gap(n, q, k) == Gap(n, q, k - 1) + Gain(n, q, k)
  {
    SumGrows(n * q, k);
    hide Term, Sum;
  }

  lemma {:induction false} DeviationPrefix(n: nat, q: nat, k: nat)
    requires k < n
    ensures 0.0 <= Gap(n, q, k) <= k as real * Term(q)
    ensures Gap(n, q, k) == 0.0 <==> k == 0 || (k == 1 && q == 0)
  {
    hide Term, Gap, Gain, Boundary, Sum;
    if k == 0 {
      GapStartsAtZero(n, q);
    } else {
      DeviationPrefix(n, q, k - 1);
      OneMoreExtra(n, q, k);
      GapGrows(n, q, k);
      Accumulates(Gap(n, q, k - 1), Gain(n, q, k), k, Term(q));
    }
  }

  lemma Accumulates(d: real, gain: real, k: nat, bound: real)
    requires k > 0 && 0.0 <= d <= (k - 1) as real * bound && 0.0 <= gain <= bound
    ensures 0.0 <= d + gain <= k as real * bound
    ensures d + gain == 0.0 <==> d == 0.0 && gain == 0.0
  {
    assert k as real * bound == (k - 1) as real * bound + bound;
  }

  lemma SumGrows(a: nat, k: nat)
    requires k > 0
    ensures Sum(a, a + k) == Sum(a, a + (k - 1)) + Term(a + (k - 1))
  {
  }

  /** The split overestimates by at most one term for each additional iteration, and it is exact
      precisely if the threads share the steps evenly or there is a single step. */
  lemma DeviationBounds(steps: nat, n: nat)
    requires n > 0
    ensures 0.0 <= Deviation(steps, n) <= Rest(steps, n) as real * Term(Share(steps, n))
    ensures Deviation(steps, n) == 0.0 <==> Rest(steps, n) == 0 || steps == 1
  {
    hide Term, Sum, Share, Boundary;
    var q, r := Share(steps, n), Rest(steps, n);
    hide Rest;
    DeviationPrefix(n, q, r);
    assert steps == 1 ==> q == 0 || r == 0 by {
      if q > 0 { Scales(1, q, n); }
    }
  }

  // ----- Which steps are summed how often -----

  function Covers(steps: nat, n: nat, k: nat, i: nat): nat
    requires n > 0
  {
    if k == 0 then 0
    else
      Covers(steps, n, k - 1, i)
      + (if StartIndex(steps, n, k - 1) <= i < EndIndex(steps, n, k - 1) then 1 else 0)
  }

  lemma QuotientTells(q: nat, t: nat, i: nat)
    requires q > 0
    ensures t * q <= i < t * q + q <==> i / q == t
    ensures i == t * q <==> i / q == t && i % q == 0
  {
    var a := i / q;
    assert i == a * q + i % q;
    if a < t { Scales(a + 1, t, q); Times(a + 1, q); }
    if t < a { Scales(t + 1, a, q); Times(t + 1, q); }
  }

  lemma {:induction false} CoversPrefix(steps: nat, n: nat, k: nat, i: nat)
    requires 0 < n <= steps && k <= n
    ensures var q := Share(steps, n);
      Covers(steps, n, k, i)
      == (if i / q < k then 1 else 0) + (if i % q == 0 && 1 <= i / q <= Min(k, Rest(steps, n)) then 1 else 0)
  {
    if k > 0 {
      CoversPrefix(steps, n, k - 1, i);
      var q := Share(steps, n);
      QuotientTells(q, k - 1, i);
      QuotientTells(q, k, i);
      Times(k, q);
    }
  }

  /** With at least as many steps as threads: the first index of each range that follows a widened
      one is summed twice, the last `Rest(steps, n)` indices are not summed, all others once. */
  lemma EachStepCovered(steps: nat, n: nat, i: nat)
    requires 0 < n <= steps && i < steps
    ensures var q, r := Share(steps, n), Rest(steps, n);
      Covers(steps, n, n, i)
      == if i >= steps - r then 0 else if i % q == 0 && 1 <= i / q <= r then 2 else 1
  {
    hide Covers, Share;
    var q, r := Share(steps, n), Rest(steps, n);
    SomeToShare(steps, n);
    CoversPrefix(steps, n, n, i);
    hide Rest;
    QuotientBelow(q, n, i);
  }

  lemma SomeToShare(steps: nat, n: nat)
    requires 0 < n <= steps
    ensures Share(steps, n) > 0
  {
  }

  lemma QuotientBelow(q: nat, n: nat, i: nat)
    requires q > 0
    ensures i / q < n <==> i < n * q
  {
    var a := i / q;
    assert i == a * q + i % q;
    if a < n { Scales(a + 1, n, q); Times(a + 1, q); } else { Scales(n, a, q); }
  }

  lemma NothingToShare(steps: nat, n: nat)
    requires steps < n
    ensures Share(steps, n) == 0 && Rest(steps, n) == steps
    ensures forall t: nat :: StartIndex(steps, n, t) == 0
  {
    assert Share(steps, n) == 0;
  }

  /** With fewer steps than threads, step 0 is summed once by each of the first `steps` threads, and
      nothing else is summed. */
  lemma {:induction false} FewSteps(steps: nat, n: nat, k: nat, i: nat)
    requires steps < n && k <= n
    ensures Covers(steps, n, k, i) == if i == 0 then Min(k, steps) else 0
  {
    NothingToShare(steps, n);
    hide Share, Rest;
    if k > 0 { FewSteps(steps, n, k - 1, i); }
  }

  function TotalLength(steps: nat, n: nat, k: nat): int
    requires n > 0
  {
    if k == 0 then 0
    else TotalLength(steps, n, k - 1) + EndIndex(steps, n, k - 1) - StartIndex(steps, n, k - 1)
  }

  lemma {:induction false} LengthsPrefix(steps: nat, n: nat, k: nat)
    requires 0 < n && k <= n
    ensures TotalLength(steps, n, k) == k * (Share(steps, n)) + Min(k, Rest(steps, n))
  {
    if k > 0 {
      LengthsPrefix(steps, n, k - 1);
      Times(k, Share(steps, n));
    }
  }

  /** The ranges have as many indices as there are steps, whether or not they tile them. */
  lemma LengthsAddUp(steps: nat, n: nat)
    requires n > 0
    ensures TotalLength(steps, n, n) == steps
  {
    LengthsPrefix(steps, n, n);
  }
}
