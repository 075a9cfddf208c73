/** Two threads print in turn by passing one token through two semaphores (lab14/main.c).
    One step is one statement of one thread. */
module TwoSemaphores {
  import opened Wrappers
  import opened Alternation

  const NUMBER_OF_SEMAPHORES := 2

  datatype Pc =
    | LoopTest   // line 80
    | Wait       // lines 81-83
    | Print      // line 88
    | Post       // line 90
    | Join       // line 117, main only
    | Done

  datatype Local = Local(pc: Pc, i: nat)

  datatype State = State(sems: seq<nat>, mainThread: Local, newThread: Local, trace: seq<Line>) {
    function At(t: Thread): Local { if t.Main? then mainThread else newThread }

    function With(t: Thread, l: Local): State {
      if t.Main? then this.(mainThread := l) else this.(newThread := l)
    }
  }

  /** `initialize_sems` gives each semaphore its own number. */
  const INITIAL_SEMS: seq<nat> := [0, 1]

  const INITIAL := State(INITIAL_SEMS, Local(LoopTest, 0), Local(LoopTest, 0), [])

  /** The `start` field of a thread's argument. */
  function Start(t: Thread): nat { if t.Main? then 1 else 0 }

  function ThisSem(t: Thread): nat { (Start(t) + 1) % NUMBER_OF_SEMAPHORES }

  function NextSem(t: Thread): nat { (ThisSem(t) + 1) % NUMBER_OF_SEMAPHORES }

  /** The next statement of thread `t`, or `None` while it waits or once it has ended. */
  function Step(n: nat, s: State, t: Thread): Option<State>
    requires |s.sems| == NUMBER_OF_SEMAPHORES
  {
    var l := s.At(t);
    match l.pc
    case LoopTest => Some(s.With(t, l.(pc := if l.i < n then Wait else if t.Main? then Join else Done)))
    case Wait =>
      if s.sems[ThisSem(t)] == 0 then None
      else Some(s.With(t, l.(pc := Print)).(sems := s.sems[ThisSem(t) := s.sems[ThisSem(t)] - 1]))
    case Print => Some(s.With(t, l.(pc := Post)).(trace := s.trace + [Line(t, l.i)]))
    case Post =>
      Some(s.With(t, Local(LoopTest, l.i + 1)).(sems := s.sems[NextSem(t) := s.sems[NextSem(t)] + 1]))
    case Join => if s.newThread.pc.Done? then Some(s.With(t, l.(pc := Done))) else None
    case Done => None
  }

  ghost predicate Next(n: nat, s: State, s': State) {
    exists t :: |s.sems| == NUMBER_OF_SEMAPHORES && Step(n, s, t) == Some(s')
  }

  /** A run under any scheduler. */
  ghost predicate IsRun(n: nat, run: seq<State>) {
    && run != [] && run[0] == INITIAL
    && forall k | 0 <= k < |run| - 1 :: Next(n, run[k], run[k + 1])
  }

  // ----- What always holds -----

  /** The thread is between its wait and its post. */
  predicate InTurn(l: Local) { l.pc.Print? || l.pc.Post? }

  function Token(l: Local): nat { if InTurn(l) then 1 else 0 }

  /** There is one token: in a semaphore or with the thread between its wait and its post. */
  predicate OneToken(s: State)
    requires |s.sems| == NUMBER_OF_SEMAPHORES
  {
    s.sems[0] + s.sems[1] + Token(s.mainThread) + Token(s.newThread) == 1
  }

  predicate Counts(n: nat, t: Thread, l: Local) {
    && l.i <= n
    && (l.pc.Wait? || InTurn(l) ==> l.i < n)
    && (l.pc.Join? || l.pc.Done? ==> l.i == n)
    && (l.pc.Join? ==> t.Main?)
  }

  /** Where the token is tells which thread is ahead. */
  predicate Rotates(s: State)
    requires |s.sems| == NUMBER_OF_SEMAPHORES
  {
    && s.mainThread.i <= s.newThread.i <= s.mainThread.i + 1
    && (s.sems[ThisSem(New)] == 1 || InTurn(s.newThread) <==> s.newThread.i == s.mainThread.i)
    && (s.mainThread.pc.Done? ==> s.newThread.pc.Done?)
  }

  function Printed(l: Local): nat { if l.pc.Post? then l.i + 1 else l.i }

  ghost predicate Inv(n: nat, s: State) {
    && |s.sems| == NUMBER_OF_SEMAPHORES && OneToken(s) && Rotates(s)
    && Counts(n, Main, s.mainThread) && Counts(n, New, s.newThread)
    && Alternates(New, n, s.trace) && |s.trace| == Printed(s.mainThread) + Printed(s.newThread)
  }

  lemma StepControl(n: nat, s: State, t: Thread)
    requires Inv(n, s) && Step(n, s, t).Some?
    ensures var s' := Step(n, s, t).value;
      && |s'.sems| == NUMBER_OF_SEMAPHORES && OneToken(s') && Rotates(s')
      && Counts(n, Main, s'.mainThread) && Counts(n, New, s'.newThread)
  {
    hide Alternates, Printed;
  }

  /** A thread that prints is the one whose turn it is. */
  lemma StepTakesTurns(n: nat, s: State, t: Thread)
    requires Inv(n, s) && Step(n, s, t).Some?
    ensures var s' := Step(n, s, t).value;
      s'.trace == if s.At(t).pc.Print? then s.trace + [Expected(New, |s.trace|)] else s.trace
    ensures s.At(t).pc.Print? ==> |s.trace| < 2 * n
  {
    hide Alternates;
  }

  lemma StepInv(n: nat, s: State, t: Thread)
    requires Inv(n, s) && Step(n, s, t).Some?
    ensures Inv(n, Step(n, s, t).value)
  {
    hide OneToken, Rotates, Counts;
    StepControl(n, s, t);
    StepTakesTurns(n, s, t);
  }

  lemma {:induction false} RunInv(n: nat, run: seq<State>, k: nat)
    requires IsRun(n, run) && k < |run|
    ensures Inv(n, run[k])
  {
    if k > 0 {
      RunInv(n, run, k - 1);
      assert Next(n, run[k - 1], run[k - 1 + 1]);
      var t :| Step(n, run[k - 1], t) == Some(run[k]);
      StepInv(n, run[k - 1], t);
    }
  }

  // ----- What the protocol is for -----

  /** Under every scheduler the program refines the turn-taking machine in which the new thread
      moves first. */
  lemma RefinesTurns(n: nat, run: seq<State>)
    requires IsRun(n, run)
    ensures TakesTurns(New, n, Traces(run, (s: State) => s.trace))
  {
    forall k | 0 <= k < |run| - 1
      ensures run[k + 1].trace == run[k].trace || Turn(New, n, run[k].trace, run[k + 1].trace)
    {
      RunInv(n, run, k);
      assert Next(n, run[k], run[k + 1]);
      var t :| Step(n, run[k], t) == Some(run[k + 1]);
      StepTakesTurns(n, run[k], t);
      hide Inv, Step;
    }
  }

  /** So the prints are new, main, new, main, ... and the new thread is ahead by one line or none. */
  lemma PrintsAlternate(n: nat, run: seq<State>, k: nat)
    requires IsRun(n, run) && k < |run|
    ensures var trace := run[k].trace;
      && Alternates(New, n, trace)
      && Lines(trace, Main) <= Lines(trace, New) <= Lines(trace, Main) + 1
  {
    RefinesTurns(n, run);
    TurnsAlternate(New, n, Traces(run, (s: State) => s.trace), k);
    Balanced(New, n, run[k].trace);
  }

  /** The token is never lost or doubled, so the threads are never both between wait and post. */
  lemma OneThreadAtATime(n: nat, run: seq<State>, k: nat)
    requires IsRun(n, run) && k < |run|
    ensures |run[k].sems| == NUMBER_OF_SEMAPHORES && OneToken(run[k])
    ensures !(InTurn(run[k].mainThread) && InTurn(run[k].newThread))
  {
    RunInv(n, run, k);
  }

  predicate Final(s: State) { s.mainThread.pc.Done? && s.newThread.pc.Done? }

  /** No deadlock: until both threads have ended, one of them can execute a statement. */
  lemma NeverStuck(n: nat, run: seq<State>, k: nat) returns (t: Thread)
    requires IsRun(n, run) && k < |run| && !Final(run[k])
    ensures |run[k].sems| == NUMBER_OF_SEMAPHORES && Step(n, run[k], t).Some?
  {
    RunInv(n, run, k);
    var s := run[k];
    t := if s.newThread.i == s.mainThread.i && !s.newThread.pc.Done? then New else Main;
    hide IsRun, Alternates;
  }

  /** Statements a thread has still to execute. */
  function Left(n: nat, l: Local): nat
    requires l.i <= n
  {
    var rounds := 4 * (n - l.i);
    match l.pc
    case LoopTest => rounds + 4
    case Wait => rounds + 3
    case Print => rounds + 2
    case Post => rounds + 1
    case Join => 1
    case Done => 0
  }

  function Measure(n: nat, s: State): nat
    requires s.mainThread.i <= n && s.newThread.i <= n
  {
    Left(n, s.mainThread) + Left(n, s.newThread)
  }

  lemma StepsCountDown(n: nat, s: State, t: Thread)
    requires Inv(n, s) && Step(n, s, t).Some?
    ensures var s' := Step(n, s, t).value;
      s'.mainThread.i <= n && s'.newThread.i <= n && Measure(n, s') < Measure(n, s)
  {
    hide OneToken, Rotates, Alternates, Printed;
  }

  /** Every step counts down, so a run of the two threads has at most `8 * n + 8` steps. */
  lemma {:induction false} RunsAreBounded(n: nat, run: seq<State>, k: nat)
    requires IsRun(n, run) && k < |run|
    ensures run[k].mainThread.i <= n && run[k].newThread.i <= n
    ensures k + Measure(n, run[k]) <= 8 * n + 8
  {
    hide Inv, Step;
    if k > 0 {
      hide Measure;
      RunsAreBounded(n, run, k - 1);
      assert Next(n, run[k - 1], run[k - 1 + 1]);
      var t :| Step(n, run[k - 1], t) == Some(run[k]);
      RunInv(n, run, k - 1);
      StepsCountDown(n, run[k - 1], t);
    }
  }

  /** Once both threads have ended, both have printed all their lines and both semaphores have
      their initial values again. */
  lemma EndsClean(n: nat, run: seq<State>, k: nat)
    requires IsRun(n, run) && k < |run| && Final(run[k])
    ensures run[k].sems == INITIAL_SEMS
    ensures Alternates(New, n, run[k].trace)
    ensures Lines(run[k].trace, Main) == n && Lines(run[k].trace, New) == n
  {
    RunInv(n, run, k);
    hide IsRun, Alternates;
    Balanced(New, n, run[k].trace);
  }
}
