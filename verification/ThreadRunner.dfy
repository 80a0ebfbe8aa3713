/**
 The worker thread that sleeps on a condition variable until it is started, and leaves when its
 owner is destroyed: every interleaving of the worker, of any number of callers of start and stop,
 and of the destructor, one atomic access at a time.
 */
module ThreadRunner {
  import opened Basics

  datatype Owner = Nobody | Worker | Caller(i: nat) | Destroyer

  /** Where the worker stands in its loop; `Stepping` is inside the user's step. */
  datatype WorkerAt = Outer | Locking | TestRunning | TestTerminating | Blocking | Blocked | Woken
                    | TestBreak | Unlocking | ReadHz | Inner | Stepping | Exited

  datatype CallAt = Idle | Checked(hz: int) | HzSet | Holding | Notifying | Releasing | Stopping | InOnStop

  datatype DestroyAt = Alive | Locked | Raised | Unlocked | Joining | Gone

  datatype State = State(running: bool, terminating: bool, hz: Option<int>, mutex: Owner,
                         worker: WorkerAt, calls: seq<CallAt>, destroyer: DestroyAt)

  /** A constructed runner with `n` threads that may call it. */
  function Initial(n: nat): State {
    State(false, false, None, Nobody, Outer, seq(n, _ => Idle), Alive)
  }

  datatype Action =
    | Work
    | WakeSpuriously
    | Start(i: nat, hz: int)
    | Stop(i: nat)
    | Continue(i: nat)
    | Destroy

  // ---------- the steps ----------

  /** One access by the worker; a lock that is taken makes it wait. */
  function WorkStep(s: State): State {
    match s.worker
    case Outer => s.(worker := if s.terminating then Exited else Locking)
    case Locking => if s.mutex == Nobody then s.(mutex := Worker, worker := TestRunning) else s
    case TestRunning => s.(worker := if s.running then TestBreak else TestTerminating)
    case TestTerminating => s.(worker := if s.terminating then TestBreak else Blocking)
    case Blocking => s.(mutex := Nobody, worker := Blocked)
    case Blocked => s
    case Woken => if s.mutex == Nobody then s.(mutex := Worker, worker := TestRunning) else s
    case TestBreak => if s.terminating then s.(mutex := Nobody, worker := Exited) else s.(worker := Unlocking)
    case Unlocking => s.(mutex := Nobody, worker := ReadHz)
    case ReadHz => s.(worker := Inner)
    case Inner => s.(worker := if s.running then Stepping else Outer)
    case Stepping => s.(worker := Inner)
    case Exited => s
  }

  /** A notification reaches the worker only if it is blocked. */
  function Notified(w: WorkerAt): WorkerAt {
    if w == Blocked then Woken else w
  }

  function CallStep(s: State, i: nat): State
    requires i < |s.calls|
  {
    match s.calls[i]
    case Idle => s
    case Checked(hz) => s.(hz := Some(hz), calls := s.calls[i := HzSet])
    case HzSet => if s.mutex == Nobody then s.(mutex := Caller(i), calls := s.calls[i := Holding]) else s
    case Holding => s.(running := true, calls := s.calls[i := Notifying])
    case Notifying => s.(worker := Notified(s.worker), calls := s.calls[i := Releasing])
    case Releasing => s.(mutex := Nobody, calls := s.calls[i := Idle])
    case Stopping => s.(running := false, calls := s.calls[i := InOnStop])
    case InOnStop => s.(calls := s.calls[i := Idle])
  }

  function DestroyStep(s: State): State {
    match s.destroyer
    case Alive => if s.mutex == Nobody then s.(mutex := Destroyer, destroyer := Locked) else s
    case Locked => s.(terminating := true, destroyer := Raised)
    case Raised => s.(mutex := Nobody, destroyer := Unlocked)
    case Unlocked => s.(worker := Notified(s.worker), destroyer := Joining)
    case Joining => if s.worker == Exited then s.(destroyer := Gone) else s
    case Gone => s
  }

  /** An action that is not possible changes nothing. */
  function Step(s: State, a: Action): State {
    match a
    case Work => WorkStep(s)
    case WakeSpuriously => s.(worker := Notified(s.worker))
    case Start(i, hz) =>
      if i < |s.calls| && s.calls[i] == Idle && !s.running then s.(calls := s.calls[i := Checked(hz)]) else s
    case Stop(i) =>
      if i < |s.calls| && s.calls[i] == Idle && s.running then s.(calls := s.calls[i := Stopping]) else s
    case Continue(i) => if i < |s.calls| then CallStep(s, i) else s
    case Destroy => DestroyStep(s)
  }

  function Run(s: State, run: seq<Action>): State
    decreases |run|
  {
    if run == [] then s else Run(Step(s, run[0]), run[1..])
  }

  // ---------- what every interleaving keeps ----------

  predicate WorkerHolds(w: WorkerAt) {
    w == TestRunning || w == TestTerminating || w == Blocking || w == TestBreak || w == Unlocking
  }

  predicate CallHolds(c: CallAt) {
    c == Holding || c == Notifying || c == Releasing
  }

  /** The mutex has one holder, and the holder knows it. */
  ghost predicate Exclusive(s: State) {
    && (s.mutex == Worker <==> WorkerHolds(s.worker))
    && (s.mutex == Destroyer <==> s.destroyer == Locked || s.destroyer == Raised)
    && (s.mutex.Caller? ==> s.mutex.i < |s.calls|)
    && forall i :: 0 <= i < |s.calls| ==> (CallHolds(s.calls[i]) <==> s.mutex == Caller(i))
  }

  /** What the worker has read is still so, because it holds the mutex; and what it has not read is announced. */
  ghost predicate Announced(s: State) {
    && (s.terminating <==> s.destroyer != Alive && s.destroyer != Locked)
    && (s.worker == TestTerminating ==> !s.running)
    && (s.worker == Blocking ==> !s.running && !s.terminating)
    && (s.worker == Blocked && s.running ==> s.mutex.Caller? && s.mutex.i < |s.calls| && s.calls[s.mutex.i] == Notifying)
    && (s.worker == Blocked && s.terminating ==> s.destroyer == Raised || s.destroyer == Unlocked)
    && (s.destroyer == Gone ==> s.worker == Exited)
    && (s.worker == Exited ==> s.terminating)
  }

  ghost predicate RateKnown(s: State) {
    && (s.running ==> s.hz.Some?)
    && (forall i :: 0 <= i < |s.calls| && (s.calls[i] == HzSet || CallHolds(s.calls[i])) ==> s.hz.Some?)
    && (s.worker == TestBreak ==> s.terminating || s.hz.Some?)
    && (s.worker == Unlocking || s.worker == ReadHz || s.worker == Inner || s.worker == Stepping ==> s.hz.Some?)
  }

  ghost predicate Inv(s: State) {
    Exclusive(s) && Announced(s) && RateKnown(s)
  }

  lemma WorkKeepsExclusive(s: State)
    requires Exclusive(s)
    ensures Exclusive(WorkStep(s))
  {
    assert WorkStep(s).calls == s.calls;
  }

  lemma WorkKeepsAnnounced(s: State)
    requires Exclusive(s) && Announced(s)
    ensures Announced(WorkStep(s))
  {
  }

  lemma WorkKeepsRate(s: State)
    requires Announced(s) && RateKnown(s)
    ensures RateKnown(WorkStep(s))
  {
  }

  lemma WorkKeeps(s: State)
    requires Inv(s)
    ensures Inv(WorkStep(s))
  {
    WorkKeepsExclusive(s);
    WorkKeepsAnnounced(s);
    WorkKeepsRate(s);
  }

  lemma CallKeepsExclusive(s: State, i: nat)
    requires Exclusive(s) && i < |s.calls|
    ensures Exclusive(CallStep(s, i))
  {
    var t := CallStep(s, i);
    assert |t.calls| == |s.calls| && forall j :: 0 <= j < |s.calls| && j != i ==> t.calls[j] == s.calls[j];
    assert WorkerHolds(t.worker) <==> WorkerHolds(s.worker);
    assert CallHolds(s.calls[i]) <==> s.mutex == Caller(i);
    assert CallHolds(t.calls[i]) <==> t.mutex == Caller(i);
  }

  lemma CallKeepsRate(s: State, i: nat)
    requires Exclusive(s) && RateKnown(s) && i < |s.calls|
    ensures RateKnown(CallStep(s, i))
  {
    var t := CallStep(s, i);
    assert |t.calls| == |s.calls| && forall j :: 0 <= j < |s.calls| && j != i ==> t.calls[j] == s.calls[j];
    assert s.hz.Some? ==> t.hz.Some?;
  }

  lemma CallKeepsAnnounced(s: State, i: nat)
    requires Exclusive(s) && Announced(s) && i < |s.calls|
    ensures Announced(CallStep(s, i))
  {
    assert CallHolds(s.calls[i]) <==> s.mutex == Caller(i);
    assert s.mutex == Caller(i) ==> !WorkerHolds(s.worker);
  }

  lemma CallKeeps(s: State, i: nat)
    requires Inv(s) && i < |s.calls|
    ensures Inv(CallStep(s, i)) && |CallStep(s, i).calls| == |s.calls|
  {
    CallKeepsExclusive(s, i);
    CallKeepsAnnounced(s, i);
    CallKeepsRate(s, i);
  }

  lemma DestroyKeeps(s: State)
    requires Inv(s)
    ensures Inv(DestroyStep(s))
  {
  }

  lemma StepKeeps(s: State, a: Action)
    requires Inv(s)
    ensures Inv(Step(s, a)) && |Step(s, a).calls| == |s.calls|
  {
    match a
    case Work => WorkKeeps(s);
    case WakeSpuriously =>
    case Start(i, hz) =>
    case Stop(i) =>
    case Continue(i) => if i < |s.calls| { CallKeeps(s, i); }
    case Destroy => DestroyKeeps(s);
  }

  lemma {:induction false} RunKeeps(s: State, run: seq<Action>)
    requires Inv(s)
    ensures Inv(Run(s, run))
    decreases |run|
  {
    if run != [] {
      StepKeeps(s, run[0]);
      RunKeeps(Step(s, run[0]), run[1..]);
    }
  }

  ghost predicate NotificationDue(s: State) {
    || (exists i :: 0 <= i < |s.calls| && s.calls[i] == Notifying)
    || s.destroyer == Raised || s.destroyer == Unlocked
  }

  /** No wake-up is lost, whatever the interleaving and however many callers there are. */
  lemma NoLostWakeUp(n: nat, run: seq<Action>)
    ensures var s := Run(Initial(n), run);
            s.worker == Blocked && !NotificationDue(s) ==> !s.running && !s.terminating
  {
    RunKeeps(Initial(n), run);
  }

  /** The rate the worker divides by was passed to some start, and the mutex has at most one holder. */
  lemma RateIsSet(n: nat, run: seq<Action>)
    ensures var s := Run(Initial(n), run);
            (s.worker == ReadHz ==> s.hz.Some?) &&
            forall i, j :: 0 <= i < j < |s.calls| ==> !(CallHolds(s.calls[i]) && CallHolds(s.calls[j]))
  {
    RunKeeps(Initial(n), run);
  }

  // ---------- who leaves the loop ----------

  function Alone(s: State, steps: nat): State
    decreases steps
  {
    if steps == 0 then s else Alone(WorkStep(s), steps - 1)
  }

  ghost predicate Leaves(s: State) {
    exists steps: nat :: Alone(s, steps).worker == Exited
  }

  /** The destructor waits for the worker and nobody is in a call. */
  ghost predicate Joined(s: State) {
    s.destroyer == Joining && forall i :: 0 <= i < |s.calls| ==> s.calls[i] == Idle
  }

  /** The worker has seen a start and has not seen the end of it. */
  predicate InRun(w: WorkerAt) {
    w == Unlocking || w == ReadHz || w == Inner || w == Stepping
  }

  lemma {:induction false} RunningWorkerStays(s: State, steps: nat)
    requires s.running && InRun(s.worker)
    ensures InRun(Alone(s, steps).worker)
    decreases steps
  {
    if steps > 0 { RunningWorkerStays(WorkStep(s), steps - 1); }
  }

  lemma WorkerLeaves(s: State)
    requires Inv(s) && Joined(s) && !(s.running && InRun(s.worker))
    ensures Leaves(s)
  {
    assert s.mutex == Nobody || s.mutex == Worker;
    var s1 := WorkStep(s);
    var s2 := WorkStep(s1);
    var s3 := WorkStep(s2);
    var s4 := WorkStep(s3);
    assert Alone(s4, 0) == s4;
    assert Alone(s3, 1) == Alone(s4, 0);
    assert Alone(s2, 2) == Alone(s3, 1);
    assert Alone(s1, 3) == Alone(s2, 2);
    assert Alone(s, 4) == Alone(s1, 3);
    assert s4.worker == Exited;
  }

  /**
   The destructor returns exactly if the worker is not in a run that nobody has stopped: the inner loop
   never looks at the flag that the destructor raises.
   */
  lemma JoinEndsExactly(n: nat, run: seq<Action>)
    requires Joined(Run(Initial(n), run))
    ensures var s := Run(Initial(n), run); Leaves(s) <==> !(s.running && InRun(s.worker))
  {
    var s := Run(Initial(n), run);
    RunKeeps(Initial(n), run);
    if s.running && InRun(s.worker) {
      forall steps: nat ensures Alone(s, steps).worker != Exited {
        RunningWorkerStays(s, steps);
      }
    } else {
      WorkerLeaves(s);
    }
  }

  /** And every idle, running runner gets there when it is destroyed without a stop. */
  lemma DestroyedWhileRunning(s: State)
    requires s.running && InRun(s.worker) && s.mutex == Nobody && s.destroyer == Alive
    requires forall i :: 0 <= i < |s.calls| ==> s.calls[i] == Idle
    ensures var t := DestroyStep(DestroyStep(DestroyStep(DestroyStep(s)))); Joined(t) && !Leaves(t)
  {
    var t := DestroyStep(DestroyStep(DestroyStep(DestroyStep(s))));
    forall steps: nat ensures Alone(t, steps).worker != Exited {
      RunningWorkerStays(t, steps);
    }
  }

  lemma {:induction false} RunAppend(s: State, a: seq<Action>, b: seq<Action>)
    ensures Run(s, a + b) == Run(Run(s, a), b)
    decreases |a|
  {
    if a == [] {
      assert a + b == b;
    } else {
      assert (a + b)[1..] == a[1..] + b;
      RunAppend(Step(s, a[0]), a[1..], b);
    }
  }

  /** A start of the first caller, not interrupted by anybody. */
  function Starting(hz: int): seq<Action> {
    [Start(0, hz), Continue(0), Continue(0), Continue(0), Continue(0), Continue(0)]
  }

  const WORKING: seq<Action> := [Work, Work, Work, Work, Work]

  lemma StartedRunner(n: nat, hz: int)
    requires n > 0
    ensures Run(Initial(n), Starting(hz)) == Initial(n).(running := true, hz := Some(hz))
  {
    var s := Initial(n);
    var s1 := Step(s, Start(0, hz));
    var s2 := Step(s1, Continue(0));
    var s3 := Step(s2, Continue(0));
    var s4 := Step(s3, Continue(0));
    var s5 := Step(s4, Continue(0));
    var s6 := Step(s5, Continue(0));
    assert s6.calls == s.calls;
    assert Run(s5, [Continue(0)]) == Run(s6, []) == s6;
    assert Run(s4, [Continue(0), Continue(0)]) == Run(s5, [Continue(0)]);
    assert Run(s3, [Continue(0), Continue(0), Continue(0)]) == Run(s4, [Continue(0), Continue(0)]);
    assert Run(s2, [Continue(0), Continue(0), Continue(0), Continue(0)]) == Run(s3, [Continue(0), Continue(0), Continue(0)]);
    assert Run(s1, [Continue(0), Continue(0), Continue(0), Continue(0), Continue(0)])
      == Run(s2, [Continue(0), Continue(0), Continue(0), Continue(0)]);
    assert Starting(hz)[1..] == [Continue(0), Continue(0), Continue(0), Continue(0), Continue(0)];
  }

  lemma WorkingRunner(s: State)
    requires s.worker == Outer && s.running && !s.terminating && s.mutex == Nobody
    ensures Run(s, WORKING) == s.(worker := ReadHz)
  {
    var s1 := Step(s, Work);
    var s2 := Step(s1, Work);
    var s3 := Step(s2, Work);
    var s4 := Step(s3, Work);
    var s5 := Step(s4, Work);
    assert Run(s4, [Work]) == Run(s5, []) == s5;
    assert Run(s3, [Work, Work]) == Run(s4, [Work]);
    assert Run(s2, [Work, Work, Work]) == Run(s3, [Work, Work]);
    assert Run(s1, [Work, Work, Work, Work]) == Run(s2, [Work, Work, Work]);
    assert WORKING[1..] == [Work, Work, Work, Work];
  }

  lemma DestroyedRunner(s: State)
    ensures Run(s, [Destroy, Destroy, Destroy, Destroy]) == DestroyStep(DestroyStep(DestroyStep(DestroyStep(s))))
  {
    var s1 := Step(s, Destroy);
    var s2 := Step(s1, Destroy);
    var s3 := Step(s2, Destroy);
    assert Run(s3, [Destroy]) == Run(Step(s3, Destroy), []);
    assert Run(s2, [Destroy, Destroy]) == Run(s3, [Destroy]);
    assert Run(s1, [Destroy, Destroy, Destroy]) == Run(s2, [Destroy, Destroy]);
  }

  /** From a new runner with any number of callers: start, let the worker begin, destroy; the destructor never returns. */
  lemma StartThenDestroyHangs(n: nat, hz: int)
    requires n > 0
    ensures var s := Run(Initial(n), Starting(hz) + WORKING + [Destroy, Destroy, Destroy, Destroy]);
            Joined(s) && !Leaves(s)
  {
    StartedRunner(n, hz);
    var started := Initial(n).(running := true, hz := Some(hz));
    WorkingRunner(started);
    RunAppend(Initial(n), Starting(hz), WORKING);
    RunAppend(Initial(n), Starting(hz) + WORKING, [Destroy, Destroy, Destroy, Destroy]);
    DestroyedRunner(started.(worker := ReadHz));
    DestroyedWhileRunning(started.(worker := ReadHz));
  }

  /** With a stop before the destruction, the destructor gets its worker back. */
  lemma StopThenDestroyReturns(n: nat, hz: int)
    requires n > 0
    ensures var s := Run(Initial(n), Starting(hz) + WORKING + [Stop(0), Continue(0), Continue(0)] + [Destroy, Destroy, Destroy, Destroy]);
            Joined(s) && Leaves(s)
  {
    StartedRunner(n, hz);
    var started := Initial(n).(running := true, hz := Some(hz));
    WorkingRunner(started);
    RunAppend(Initial(n), Starting(hz), WORKING);
    var run := Starting(hz) + WORKING;
    RunAppend(Initial(n), run, [Stop(0), Continue(0), Continue(0)]);
    StoppedRunner(started.(worker := ReadHz));
    RunAppend(Initial(n), run + [Stop(0), Continue(0), Continue(0)], [Destroy, Destroy, Destroy, Destroy]);
    DestroyedRunner(started.(worker := ReadHz, running := false));
    JoinEndsExactly(n, run + [Stop(0), Continue(0), Continue(0)] + [Destroy, Destroy, Destroy, Destroy]);
  }

  lemma StoppedRunner(s: State)
    requires s.calls != [] && s.calls[0] == Idle && s.running
    ensures Run(s, [Stop(0), Continue(0), Continue(0)]) == s.(running := false)
  {
    var s1 := Step(s, Stop(0));
    var s2 := Step(s1, Continue(0));
    var s3 := Step(s2, Continue(0));
    assert s3.calls == s.calls;
    assert Run(s2, [Continue(0)]) == Run(s3, []) == s3;
    assert Run(s1, [Continue(0), Continue(0)]) == Run(s2, [Continue(0)]);
  }
}
