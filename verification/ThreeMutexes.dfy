/** Two threads print in turn by handing three error-checking mutexes from hand to hand
    (lab11/main.c). One step is one statement of one thread. */
module ThreeMutexes {
  import opened Wrappers
  import opened Alternation

  const COUNT_MUTEXES := 3

  datatype Pc =
    | Spin          // line 139, main only
    | TestReady     // line 87
    | FirstLock     // lines 88-89
    | SetReady      // line 93
    | LoopTest      // line 95
    | Lock          // lines 96-98
    | Print         // line 103
    | Unlock        // lines 105-109
    | FinalUnlock   // line 111
    | Join          // line 143, main only
    | Done
    | Failed        // a lock or unlock call returned an error

  datatype Local = Local(pc: Pc, i: nat, thisMutex: nat)

  datatype State =
    State(owner: seq<Option<Thread>>, ready: bool, mainThread: Local, newThread: Local, trace: seq<Line>) {
    function At(t: Thread): Local { if t.Main? then mainThread else newThread }

    function With(t: Thread, l: Local): State {
      if t.Main? then this.(mainThread := l) else this.(newThread := l)
    }
  }

  /** After line 133: main holds the start mutex and the new thread is about to run. */
  const INITIAL :=
    State([Some(Main), None, None], false, Local(Spin, 0, 0), Local(TestReady, 0, 0), [])

  /** `pthread_mutex_lock` of an error-checking mutex: it blocks (`None`) on a mutex another thread
      owns, and fails on one the caller owns. */
  function LockMutex(s: State, t: Thread, m: nat, next: Local): Option<State>
    requires m < |s.owner|
  {
    if s.owner[m].None? then Some(s.With(t, next).(owner := s.owner[m := Some(t)]))
    else if s.owner[m] == Some(t) then Some(s.With(t, next.(pc := Failed)))
    else None
  }

  /** `pthread_mutex_unlock`: fails unless the caller owns the mutex. */
  function UnlockMutex(s: State, t: Thread, m: nat, next: Local): State
    requires m < |s.owner|
  {
    if s.owner[m] == Some(t) then s.With(t, next).(owner := s.owner[m := None])
    else s.With(t, next.(pc := Failed))
  }

  /** The next statement of thread `t`, or `None` while it waits or once it has ended. */
  function Step(n: nat, s: State, t: Thread): Option<State>
    requires |s.owner| == COUNT_MUTEXES && s.At(t).thisMutex < COUNT_MUTEXES
  {
    var l := s.At(t);
    var next := (l.thisMutex + 1) % COUNT_MUTEXES;
    match l.pc
    case Spin => Some(if s.ready then s.With(t, l.(pc := TestReady)) else s)
    case TestReady => Some(s.With(t, if s.ready then Local(LoopTest, 0, 0) else Local(FirstLock, 0, 2)))
    case FirstLock => LockMutex(s, t, l.thisMutex, l.(pc := SetReady))
    case SetReady => Some(s.With(t, l.(pc := LoopTest)).(ready := true))
    case LoopTest => Some(s.With(t, l.(pc := if l.i < n then Lock else FinalUnlock)))
    case Lock => LockMutex(s, t, next, l.(pc := Print))
    case Print => Some(s.With(t, l.(pc := Unlock)).(trace := s.trace + [Line(t, l.i)]))
    case Unlock => Some(UnlockMutex(s, t, l.thisMutex, Local(LoopTest, l.i + 1, next)))
    case FinalUnlock => Some(UnlockMutex(s, t, l.thisMutex, l.(pc := if t.Main? then Join else Done)))
    case Join => if s.newThread.pc.Done? || s.newThread.pc.Failed? then Some(s.With(t, l.(pc := Done))) else None
    case Done => None
    case Failed => if t.Main? then Some(s.With(t, l.(pc := Join))) else None
  }

  ghost predicate Next(n: nat, s: State, s': State) {
    exists t :: WellFormed(s) && Step(n, s, t) == Some(s')
  }

  predicate WellFormed(s: State) {
    |s.owner| == COUNT_MUTEXES && s.mainThread.thisMutex < COUNT_MUTEXES && s.newThread.thisMutex < COUNT_MUTEXES
  }

  /** A run under any scheduler. */
  ghost predicate IsRun(n: nat, run: seq<State>) {
    && run != [] && run[0] == INITIAL
    && forall k | 0 <= k < |run| - 1 :: Next(n, run[k], run[k + 1])
  }

  // ----- What always holds -----

  /** The thread has entered its critical section: it owns both its mutex and the next one. */
  predicate InTurn(l: Local) { l.pc.Print? || l.pc.Unlock? }

  predicate Starting(l: Local) { l.pc.TestReady? || l.pc.FirstLock? || l.pc.SetReady? }

  predicate Ended(l: Local) { l.pc.Join? || l.pc.Done? }

  /** The mutexes a thread owns at each point of its program. */
  predicate Holds(t: Thread, l: Local, m: nat) {
    || (m == l.thisMutex && !Ended(l) && (t.New? ==> !l.pc.TestReady? && !l.pc.FirstLock?))
    || (m == (l.thisMutex + 1) % COUNT_MUTEXES && InTurn(l))
  }

  predicate OwnersAgree(s: State)
    requires |s.owner| == COUNT_MUTEXES
  {
    && (forall m | 0 <= m < COUNT_MUTEXES :: s.owner[m] == Some(Main) <==> Holds(Main, s.mainThread, m))
    && (forall m | 0 <= m < COUNT_MUTEXES :: s.owner[m] == Some(New) <==> Holds(New, s.newThread, m))
  }

  /** The loop counter fits the place in the program. */
  predicate Counts(n: nat, l: Local) {
    && l.i <= n
    && (l.pc.Spin? || Starting(l) ==> l.i == 0)
    && (l.pc.Lock? || InTurn(l) ==> l.i < n)
    && (l.pc.FinalUnlock? || Ended(l) ==> l.i == n)
  }

  predicate Places(s: State) {
    && !s.mainThread.pc.Failed? && !s.mainThread.pc.FirstLock? && !s.mainThread.pc.SetReady?
    && !s.newThread.pc.Failed? && !s.newThread.pc.Spin? && !s.newThread.pc.Join?
    && (s.ready <==> !Starting(s.newThread))
    && (!s.ready ==> s.mainThread.pc.Spin?)
  }

  /** Ownership, modulo three, is tied to the two loop counters, and the counters to each other. */
  predicate Rotates(s: State) {
    && s.mainThread.thisMutex == s.mainThread.i % COUNT_MUTEXES
    && s.newThread.thisMutex == (if s.newThread.pc.TestReady? then 0 else (s.newThread.i + 2) % COUNT_MUTEXES)
    && s.newThread.i <= s.mainThread.i <= s.newThread.i + 1
    && (InTurn(s.mainThread) ==> s.mainThread.i == s.newThread.i)
    && (InTurn(s.newThread) ==> s.mainThread.i == s.newThread.i + 1)
    && (s.mainThread.pc.Done? ==> s.newThread.pc.Done?)
  }

  function Printed(l: Local): nat { if l.pc.Unlock? then l.i + 1 else l.i }

  ghost predicate Inv(n: nat, s: State) {
    && WellFormed(s) && Places(s) && Rotates(s)
    && Counts(n, s.mainThread) && Counts(n, s.newThread)
    && OwnersAgree(s)
    && Alternates(Main, n, s.trace) && |s.trace| == Printed(s.mainThread) + Printed(s.newThread)
  }

  lemma InitialInv(n: nat)
    ensures Inv(n, INITIAL)
  {
  }

  /** The mutex a thread's next statement locks or unlocks. */
  function Wanted(l: Local): nat {
    if l.pc.Lock? then (l.thisMutex + 1) % COUNT_MUTEXES else l.thisMutex
  }

  /** No thread locks a mutex it owns or unlocks one it does not own. */
  lemma CallsAreLegal(n: nat, s: State, t: Thread)
    requires Inv(n, s)
    ensures var l := s.At(t);
      && (l.pc.FirstLock? || l.pc.Lock? ==> s.owner[Wanted(l)] != Some(t))
      && (l.pc.Unlock? || l.pc.FinalUnlock? ==> s.owner[Wanted(l)] == Some(t))
  {
    hide Alternates, Counts, Rotates;
  }

  lemma StepControl(n: nat, s: State, t: Thread)
    requires Inv(n, s) && Step(n, s, t).Some?
    ensures var s' := Step(n, s, t).value;
      WellFormed(s') && Places(s') && Counts(n, s'.mainThread) && Counts(n, s'.newThread)
  {
    CallsAreLegal(n, s, t);
    hide Alternates, OwnersAgree;
  }

  /** A thread that passes a lock call finds the mutex free. */
  lemma LockedIsFree(n: nat, s: State, t: Thread)
    requires Inv(n, s) && Step(n, s, t).Some? && (s.At(t).pc.FirstLock? || s.At(t).pc.Lock?)
    ensures var m := Wanted(s.At(t));
      s.owner[m].None? && !Holds(Main, s.mainThread, m) && !Holds(New, s.newThread, m)
  {
    CallsAreLegal(n, s, t);
    hide Alternates, Rotates, Counts, Printed;
  }

  /** A thread that can take the next mutex has fallen behind, so the counters stay in order. */
  lemma StepRotates(n: nat, s: State, t: Thread)
    requires Inv(n, s) && Step(n, s, t).Some?
    ensures Rotates(Step(n, s, t).value)
  {
    hide Alternates, OwnersAgree, Printed;
    CallsAreLegal(n, s, t);
    if s.At(t).pc.FirstLock? || s.At(t).pc.Lock? { LockedIsFree(n, s, t); }
  }

  /** What a step does to the set of mutexes its thread owns. */
  lemma StepHolds(n: nat, s: State, t: Thread, m: nat)
    requires Inv(n, s) && Step(n, s, t).Some? && m < COUNT_MUTEXES
    ensures var l, l' := s.At(t), Step(n, s, t).value.At(t);
      Holds(t, l', m) <==>
        if m == Wanted(l) && (l.pc.FirstLock? || l.pc.Lock?) then true
        else if m == Wanted(l) && (l.pc.Unlock? || l.pc.FinalUnlock?) then false
        else Holds(t, l, m)
  {
    hide Alternates, OwnersAgree, Printed;
    CallsAreLegal(n, s, t);
    if t.Main? {
    } else {
    }
  }

  lemma OtherStays(n: nat, s: State, t: Thread)
    requires Inv(n, s) && Step(n, s, t).Some?
    ensures Step(n, s, t).value.At(Other(t)) == s.At(Other(t))
  {
    hide OwnersAgree, Alternates, Rotates, Printed, Places, Counts;
  }

  /** What a step does to the mutexes. */
  lemma StepOwner(n: nat, s: State, t: Thread, m: nat)
    requires Inv(n, s) && Step(n, s, t).Some? && m < COUNT_MUTEXES
    ensures var l, s' := s.At(t), Step(n, s, t).value;
      && |s'.owner| == COUNT_MUTEXES
      && s'.owner[m]
        == if m == Wanted(l) && (l.pc.FirstLock? || l.pc.Lock?) then Some(t)
           else if m == Wanted(l) && (l.pc.Unlock? || l.pc.FinalUnlock?) then None
           else s.owner[m]
  {
    hide Alternates, OwnersAgree, Rotates, Counts, Printed;
    CallsAreLegal(n, s, t);
  }

  lemma StepOwners(n: nat, s: State, t: Thread)
    requires Inv(n, s) && Step(n, s, t).Some?
    ensures var s' := Step(n, s, t).value; WellFormed(s') && OwnersAgree(s')
  {
    hide Alternates, Holds, Rotates, Places, Counts, Step, Printed;
    CallsAreLegal(n, s, t);
    StepControl(n, s, t);
    OtherStays(n, s, t);
    if s.At(t).pc.FirstLock? || s.At(t).pc.Lock? { LockedIsFree(n, s, t); }
    var s' := Step(n, s, t).value;
    forall m | 0 <= m < COUNT_MUTEXES
      ensures s'.owner[m] == Some(Main) <==> Holds(Main, s'.mainThread, m)
      ensures s'.owner[m] == Some(New) <==> Holds(New, s'.newThread, m)
    {
      StepHolds(n, s, t, m);
      StepOwner(n, s, t, m);
    }
  }

  lemma StepTrace(n: nat, s: State, t: Thread)
    requires Inv(n, s) && Step(n, s, t).Some?
    ensures var s' := Step(n, s, t).value;
      && Alternates(Main, n, s'.trace)
      && |s'.trace| == Printed(s'.mainThread) + Printed(s'.newThread)
  {
    hide OwnersAgree;
  }

  lemma StepInv(n: nat, s: State, t: Thread)
    requires Inv(n, s) && Step(n, s, t).Some?
    ensures Inv(n, Step(n, s, t).value)
  {
    StepControl(n, s, t);
    StepRotates(n, s, t);
    StepOwners(n, s, t);
    StepTrace(n, s, t);
    hide WellFormed, Places, Rotates, Counts, OwnersAgree, Alternates, Printed, Step;
  }

  lemma {:induction false} RunInv(n: nat, run: seq<State>, k: nat)
    requires IsRun(n, run) && k < |run|
    ensures Inv(n, run[k])
  {
    if k == 0 {
      InitialInv(n);
    } else {
      RunInv(n, run, k - 1);
      assert Next(n, run[k - 1], run[k - 1 + 1]);
      var t :| Step(n, run[k - 1], t) == Some(run[k]);
      StepInv(n, run[k - 1], t);
    }
  }

  // ----- What the protocol is for -----

  lemma StepTakesTurns(n: nat, s: State, t: Thread)
    requires Inv(n, s) && Step(n, s, t).Some?
    ensures var s' := Step(n, s, t).value;
      s'.trace == if s.At(t).pc.Print? then s.trace + [Expected(Main, |s.trace|)] else s.trace
    ensures s.At(t).pc.Print? ==> |s.trace| < 2 * n
  {
    hide OwnersAgree;
  }

  /** Under every scheduler the program refines the turn-taking machine in which main moves first. */
  lemma RefinesTurns(n: nat, run: seq<State>)
    requires IsRun(n, run)
    ensures TakesTurns(Main, n, Traces(run, (s: State) => s.trace))
  {
    forall k | 0 <= k < |run| - 1
      ensures run[k + 1].trace == run[k].trace || Turn(Main, n, run[k].trace, run[k + 1].trace)
    {
      RunInv(n, run, k);
      assert Next(n, run[k], run[k + 1]);
      var t :| Step(n, run[k], t) == Some(run[k + 1]);
      StepTakesTurns(n, run[k], t);
      hide Inv, Step;
    }
  }

  /** So the prints are main, new, main, new, ... and main is ahead by one line or by none. */
  lemma PrintsAlternate(n: nat, run: seq<State>, k: nat)
    requires IsRun(n, run) && k < |run|
    ensures var trace := run[k].trace;
      && Alternates(Main, n, trace)
      && Lines(trace, New) <= Lines(trace, Main) <= Lines(trace, New) + 1
  {
    RefinesTurns(n, run);
    TurnsAlternate(Main, n, Traces(run, (s: State) => s.trace), k);
    Balanced(Main, n, run[k].trace);
  }

  /** In every reachable state, no thread has failed, none will relock a mutex it owns, and none will
      unlock a mutex it does not own. */
  lemma EveryCallSucceeds(n: nat, run: seq<State>, k: nat, t: Thread)
    requires IsRun(n, run) && k < |run|
    ensures WellFormed(run[k])
    ensures var s := run[k];
      var l := s.At(t);
      && !l.pc.Failed?
      && (l.pc.FirstLock? || l.pc.Lock? ==> s.owner[Wanted(l)] != Some(t))
      && (l.pc.Unlock? || l.pc.FinalUnlock? ==> s.owner[Wanted(l)] == Some(t))
  {
    RunInv(n, run, k);
    CallsAreLegal(n, run[k], t);
    hide IsRun, Rotates, Counts, OwnersAgree, Alternates;
  }

  predicate Final(s: State) { s.mainThread.pc.Done? && s.newThread.pc.Done? }

  /** Statements a thread has still to execute, not counting turns of the spin loop. */
  function Left(n: nat, l: Local): nat
    requires l.i <= n
  {
    var rounds := 4 * (n - l.i);
    match l.pc
    case Spin => rounds + 7
    case TestReady => rounds + 6
    case FirstLock => rounds + 5
    case SetReady => rounds + 4
    case LoopTest => rounds + 3
    case Lock => rounds + 2
    case Print => rounds + 1
    case Unlock => rounds
    case FinalUnlock => 2
    case Join => 1
    case Done => 0
    case Failed => 0
  }

  function Measure(n: nat, s: State): nat
    requires s.mainThread.i <= n && s.newThread.i <= n
  {
    Left(n, s.mainThread) + Left(n, s.newThread)
  }

  predicate Spins(s: State, t: Thread) { s.At(t).pc.Spin? && !s.ready }

  lemma OwnCountsDown(n: nat, s: State, t: Thread)
    requires Inv(n, s) && Step(n, s, t).Some?
    ensures var l, l' := s.At(t), Step(n, s, t).value.At(t);
      l.i <= n && l'.i <= n && if Spins(s, t) then Step(n, s, t).value == s else Left(n, l') < Left(n, l)
  {
    CallsAreLegal(n, s, t);
    hide OwnersAgree, Alternates, Rotates, Printed;
  }

  /** Every step other than a turn of the spin loop makes progress, and a turn of the spin loop
      changes nothing. */
  lemma StepsCountDown(n: nat, s: State, t: Thread)
    requires Inv(n, s) && Step(n, s, t).Some?
    ensures var s' := Step(n, s, t).value;
      && s'.mainThread.i <= n && s'.newThread.i <= n
      && if Spins(s, t) then s' == s else Measure(n, s') < Measure(n, s)
  {
    hide OwnersAgree, Alternates, Rotates, Printed, Places, Step, Left;
    OtherStays(n, s, t);
    OwnCountsDown(n, s, t);
  }

  /** How often a run changes its state before position `k`. */
  function Moves(run: seq<State>, k: nat): nat
    requires k < |run|
  {
    if k == 0 then 0 else Moves(run, k - 1) + (if run[k] == run[k - 1] then 0 else 1)
  }

  /** However long it spins, a run changes its state at most `8 * n + 13` times. */
  lemma {:induction false} MovesAreBounded(n: nat, run: seq<State>, k: nat)
    requires IsRun(n, run) && k < |run|
    ensures run[k].mainThread.i <= n && run[k].newThread.i <= n
    ensures Moves(run, k) + Measure(n, run[k]) <= 8 * n + 13
  {
    RunInv(n, run, k);
    if k > 0 {
      hide Inv, Step, Measure;
      MovesAreBounded(n, run, k - 1);
      assert Next(n, run[k - 1], run[k - 1 + 1]);
      var t :| Step(n, run[k - 1], t) == Some(run[k]);
      RunInv(n, run, k - 1);
      StepsCountDown(n, run[k - 1], t);
    }
  }

  /** No deadlock: until both threads have ended, one of them can execute a statement that is not a
      turn of the spin loop. */
  lemma NeverStuck(n: nat, run: seq<State>, k: nat) returns (t: Thread)
    requires IsRun(n, run) && k < |run| && !Final(run[k])
    ensures WellFormed(run[k]) && Step(n, run[k], t).Some? && !Spins(run[k], t)
  {
    RunInv(n, run, k);
    t := Runnable(n, run[k]);
    hide IsRun, Inv, Step;
  }

  lemma FreeIfNobodyHolds(s: State, m: nat)
    requires WellFormed(s) && OwnersAgree(s) && m < COUNT_MUTEXES
    requires !Holds(Main, s.mainThread, m) && !Holds(New, s.newThread, m)
    ensures s.owner[m].None?
  {
    match s.owner[m]
    case None =>
    case Some(Main) =>
    case Some(New) =>
  }

  /** Whoever is behind can go on; at a tie that is main, unless it waits for the other to end. */
  lemma Runnable(n: nat, s: State) returns (t: Thread)
    requires Inv(n, s) && !Final(s)
    ensures Step(n, s, t).Some? && !Spins(s, t)
  {
    hide Alternates, OwnersAgree;
    var tie := s.mainThread.i == s.newThread.i;
    t := if s.ready && tie && (!s.mainThread.pc.Join? || s.newThread.pc.Done?) then Main else New;
    if s.At(t).pc.FirstLock? || s.At(t).pc.Lock? {
      FreeIfNobodyHolds(s, Wanted(s.At(t)));
    }
  }

  /** Once both threads have ended, both have printed all their lines and every mutex is free, so
      that destroying the mutexes succeeds. */
  lemma EndsClean(n: nat, run: seq<State>, k: nat)
    requires IsRun(n, run) && k < |run| && Final(run[k])
    ensures run[k].owner == [None, None, None]
    ensures Alternates(Main, n, run[k].trace)
    ensures Lines(run[k].trace, Main) == n && Lines(run[k].trace, New) == n
  {
    RunInv(n, run, k);
    var s := run[k];
    hide IsRun, Alternates, OwnersAgree;
    forall m | 0 <= m < COUNT_MUTEXES ensures s.owner[m] == None {
      FreeIfNobodyHolds(s, m);
    }
    Balanced(Main, n, s.trace);
  }
}
