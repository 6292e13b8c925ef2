/**
  CCheckQueue as a state machine. A step is one stay inside the mutex, or the running of a
  batch outside it; any number of workers interleave in any order over any number of rounds.
  Thread 0 is the controller, which adds checks and, in Complete, joins the pool as master.
 */
module CheckQueue {
  import opened Wrappers
  import IntMath

  /** A queued verification. `outcome` is what calling it returns: nothing, or an error. */
  datatype Check = Check(id: nat, outcome: Option<nat>)

  datatype Phase =
    | Outside   // not in Loop
    | Active    // inside the mutex
    | Waiting   // blocked on its condition variable
    | Holding   // took a batch, has not run it
    | Finished  // ran its batch, has not reported it
    | Stopped   // left Loop because the queue is being destroyed

  /** The locals of one call to Loop. `notified` says a wake-up was sent since the thread began to wait. */
  datatype Thread = Thread(phase: Phase, vChecks: seq<Check>, nNow: nat, doWork: bool, local: Option<nat>,
                           notified: bool) {
    predicate HasBatch() {
      phase == Holding || phase == Finished
    }
  }

  /** `round` and `done` are history: the checks added since Complete last returned, and those reported. */
  datatype State = State(
    queue: seq<Check>, nIdle: int, nTotal: int, result: Option<nat>, nTodo: int, stop: bool,
    threads: seq<Thread>, round: seq<Check>, done: seq<Check>)

  const IDLE := Thread(Outside, [], 0, false, None, false)

  // ---- Steps ----

  function FirstFailure(checks: seq<Check>): Option<nat> {
    if checks == [] then None
    else if checks[0].outcome.Some? then checks[0].outcome
    else FirstFailure(checks[1..])
  }

  function Min(a: int, b: int): int {
    if a < b then a else b
  }

  function Max(a: int, b: int): int {
    if a < b then b else a
  }

  /** How many checks to take. */
  function BatchSize(s: State, batchSize: nat): int
    requires s.nTotal + s.nIdle + 1 > 0
  {
    Max(1, Min(batchSize, |s.queue| / (s.nTotal + s.nIdle + 1)))
  }

  /** The clean-up of the previous batch, at the top of the critical section. */
  function Report(s: State, t: nat): State
    requires t < |s.threads|
  {
    var th := s.threads[t];
    var swaps := th.local.Some? && s.result.None?;
    var todo := s.nTodo - th.nNow;
    var threads := s.threads[t := th.(phase := Active, local := if swaps then s.result else th.local)];
    s.(result := if swaps then th.local else s.result,
       nTodo := todo,
       done := s.done + th.vChecks,
       threads := if todo == 0 && t != 0 then Notify(threads) else threads)
  }

  /** m_master_cv.notify_one(). */
  function Notify(threads: seq<Thread>): seq<Thread>
    requires threads != []
  {
    if threads[0].phase == Waiting then threads[0 := threads[0].(notified := true)] else threads
  }

  /** The rest of the critical section: return, wait, stop, or take a batch. */
  function LoopTop(s: State, t: nat, batchSize: nat): State
    requires t < |s.threads| && Defined(s, batchSize)
  {
    var th := s.threads[t];
    if s.queue == [] && !s.stop then
      if t == 0 && s.nTodo == 0 then
        s.(nTotal := s.nTotal - 1, result := None, threads := s.threads[t := IDLE], round := [], done := [])
      else
        s.(nIdle := s.nIdle + 1, threads := s.threads[t := th.(phase := Waiting, notified := false)])
    else if s.stop then
      s.(threads := s.threads[t := th.(phase := Stopped)])
    else
      var n := BatchSize(s, batchSize);
      var start := |s.queue| - n;
      s.(queue := s.queue[..start],
         threads := s.threads[t := th.(phase := Holding, vChecks := s.queue[start..], nNow := n,
           doWork := s.result.None?)])
  }

  /** Locking the mutex, up to the waiting loop. */
  function Entering(s: State, t: nat): State
    requires t < |s.threads| && CanLock(s.threads[t])
  {
    var active := s.threads[t := s.threads[t].(phase := Active)];
    match s.threads[t].phase
    case Outside => s.(nTotal := s.nTotal + 1, threads := active)
    case Waiting => s.(nIdle := s.nIdle - 1, threads := active)
    case _ => Report(s, t)
  }

  predicate CanLock(th: Thread) {
    th.phase == Outside || th.phase == Waiting || th.phase == Finished
  }

  /**
    The unsigned arithmetic of the critical section is defined: a positive divisor, a batch no longer than the queue.
   */
  predicate Defined(s: State, batchSize: nat) {
    s.nTotal + s.nIdle + 1 > 0 && (s.queue != [] ==> BatchSize(s, batchSize) <= |s.queue|)
  }

  /** One stay of a thread inside the mutex. */
  ghost predicate Locked(s: State, s': State, t: nat, batchSize: nat) {
    && t < |s.threads| && CanLock(s.threads[t])
    && Defined(Entering(s, t), batchSize)
    && s' == LoopTop(Entering(s, t), t, batchSize)
  }

  /** Running the batch, outside the mutex. */
  ghost predicate Executes(s: State, s': State, t: nat) {
    && t < |s.threads|
    && s.threads[t].phase == Holding
    && var th := s.threads[t];
       s' == s.(threads := s.threads[t := th.(phase := Finished,
                                              local := if th.doWork then FirstFailure(th.vChecks) else th.local)])
  }

  /** Add, called by the controller while it is not inside Complete. */
  ghost predicate Adds(s: State, s': State, checks: seq<Check>) {
    && s.threads != [] && s.threads[0].phase == Outside && !s.stop
    && s' == s.(queue := s.queue + checks, nTodo := s.nTodo + |checks|, round := s.round + checks)
  }

  /** The destructor's request to stop. */
  ghost predicate Stops(s: State, s': State) {
    s.threads != [] && s.threads[0].phase == Outside && s' == s.(stop := true)
  }

  datatype Step = Lock(t: nat) | Execute(t: nat) | Add(checks: seq<Check>) | Stop

  ghost predicate Next(s: State, s': State, step: Step, batchSize: nat) {
    match step
    case Lock(t) => (t == 0 ==> !s.stop) && Locked(s, s', t, batchSize)
    case Execute(t) => Executes(s, s', t)
    case Add(checks) => Adds(s, s', checks)
    case Stop => Stops(s, s')
  }

  function Init(workers: nat): State {
    State([], 0, 0, None, 0, false, seq(workers + 1, _ => IDLE), [], [])
  }

  // ---- Sums over the threads ----

  ghost function Sum(f: Thread -> nat, threads: seq<Thread>): nat {
    if threads == [] then 0 else f(threads[0]) + Sum(f, threads[1..])
  }

  lemma {:induction false} SumUpdate(f: Thread -> nat, threads: seq<Thread>, t: nat, th: Thread)
    requires t < |threads|
    ensures Sum(f, threads[t := th]) + f(threads[t]) == Sum(f, threads) + f(th)
  {
    if t == 0 {
      assert threads[t := th][1..] == threads[1..];
    } else {
      SumUpdate(f, threads[1..], t - 1, th);
      assert threads[t := th][1..] == threads[1..][t - 1 := th];
    }
  }

  lemma {:induction false} SumAtLeast(f: Thread -> nat, threads: seq<Thread>, t: nat)
    requires t < |threads|
    ensures f(threads[t]) <= Sum(f, threads)
  {
    if t > 0 {
      SumAtLeast(f, threads[1..], t - 1);
    }
  }

  lemma {:induction false} SomePositive(f: Thread -> nat, threads: seq<Thread>)
    requires Sum(f, threads) > 0
    ensures exists i: nat | i < |threads| :: f(threads[i]) > 0
  {
    if f(threads[0]) == 0 {
      SomePositive(f, threads[1..]);
      var i: nat :| i < |threads[1..]| && f(threads[1..][i]) > 0;
      assert threads[i + 1] == threads[1..][i];
    }
  }

  ghost function Idle(th: Thread): nat {
    if th.phase == Waiting then 1 else 0
  }

  ghost function Inside(th: Thread): nat {
    if th.phase == Outside then 0 else 1
  }

  /** How many checks a thread holds. */
  ghost function Held(th: Thread): nat {
    if th.HasBatch() then |th.vChecks| else 0
  }

  ghost function Occurs(c: Check, checks: seq<Check>): nat {
    multiset(checks)[c]
  }

  /** How often a thread holds the check `c`. */
  ghost function HeldOf(c: Check): Thread -> nat {
    (th: Thread) => if th.HasBatch() then Occurs(c, th.vChecks) else 0
  }

  lemma OccursConcat(c: Check, a: seq<Check>, b: seq<Check>)
    ensures Occurs(c, a + b) == Occurs(c, a) + Occurs(c, b)
  {
    assert multiset(a + b) == multiset(a) + multiset(b);
  }

  // ---- The invariant ----

  ghost predicate ThreadOk(th: Thread, result: Option<nat>) {
    th.HasBatch() ==>
      && |th.vChecks| == th.nNow && th.nNow >= 1
      && (!th.doWork ==> result.Some?)
      && (th.doWork && th.phase == Finished ==> th.local == FirstFailure(th.vChecks))
  }

  ghost predicate ResultOk(result: Option<nat>, done: seq<Check>) {
    && (result.None? ==> forall c | c in done :: c.outcome.None?)
    && (result.Some? ==> exists c | c in done :: c.outcome == result)
  }

  /** The counters are exact. */
  ghost predicate Counted(s: State) {
    && s.nIdle == Sum(Idle, s.threads)
    && s.nTotal == Sum(Inside, s.threads)
    && s.nTodo == |s.queue| + Sum(Held, s.threads)
  }

  /** Every check of the round is queued, held or done, as often as it was added. */
  ghost predicate Conserved(s: State) {
    forall c :: Occurs(c, s.round) == Occurs(c, s.queue) + Sum(HeldOf(c), s.threads) + Occurs(c, s.done)
  }

  /** A master that waits and has not been woken still has work to wait for. */
  ghost predicate NoLostWakeup(s: State)
    requires s.threads != []
  {
    s.threads[0].phase == Waiting && !s.threads[0].notified ==> s.queue == [] && s.nTodo > 0
  }

  ghost predicate Inv(s: State) {
    && s.threads != []
    && Counted(s) && Conserved(s) && NoLostWakeup(s)
    && (forall i | 0 <= i < |s.threads| :: ThreadOk(s.threads[i], s.result))
    && ResultOk(s.result, s.done)
  }

  lemma {:induction false} FirstFailureMeaning(checks: seq<Check>)
    ensures FirstFailure(checks).None? <==> forall c | c in checks :: c.outcome.None?
    ensures FirstFailure(checks).Some? ==> exists c | c in checks :: c.outcome == FirstFailure(checks)
  {
    if checks != [] {
      FirstFailureMeaning(checks[1..]);
      assert checks == [checks[0]] + checks[1..];
    }
  }

  /** The counters when one thread changes. */
  lemma Recount(s: State, t: nat, th: Thread, s': State)
    requires Counted(s) && t < |s.threads| && s'.threads == s.threads[t := th]
    requires s'.nIdle == s.nIdle - Idle(s.threads[t]) + Idle(th)
    requires s'.nTotal == s.nTotal - Inside(s.threads[t]) + Inside(th)
    requires s'.nTodo - |s'.queue| == s.nTodo - |s.queue| - Held(s.threads[t]) + Held(th)
    ensures Counted(s')
  {
    SumUpdate(Idle, s.threads, t, th);
    SumUpdate(Inside, s.threads, t, th);
    SumUpdate(Held, s.threads, t, th);
  }

  lemma Reconserve(s: State, t: nat, th: Thread, s': State)
    requires Conserved(s) && t < |s.threads| && s'.threads == s.threads[t := th] && s'.round == s.round
    requires forall c :: Occurs(c, s'.queue) + HeldOf(c)(th) + Occurs(c, s'.done) ==
                         Occurs(c, s.queue) + HeldOf(c)(s.threads[t]) + Occurs(c, s.done)
    ensures Conserved(s')
  {
    forall c
      ensures Occurs(c, s'.round) == Occurs(c, s'.queue) + Sum(HeldOf(c), s'.threads) + Occurs(c, s'.done)
    {
      SumUpdate(HeldOf(c), s.threads, t, th);
    }
  }

  /** Setting the wake-up mark moves no count. */
  lemma NotifyKeeps(s: State, s': State)
    requires s.threads != [] && s' == s.(threads := Notify(s.threads))
    requires Counted(s) && Conserved(s)
    ensures Counted(s') && Conserved(s')
  {
    if s'.threads != s.threads {
      var th := s.threads[0].(notified := true);
      Recount(s, 0, th, s');
      Reconserve(s, 0, th, s');
    }
  }

  lemma ReportResult(s: State, th: Thread, result: Option<nat>)
    requires ResultOk(s.result, s.done) && ThreadOk(th, s.result) && th.phase == Finished
    requires result == if th.local.Some? && s.result.None? then th.local else s.result
    ensures ResultOk(result, s.done + th.vChecks)
  {
    FirstFailureMeaning(th.vChecks);
  }

  /** Reporting a batch: its checks are done, and the shared result stays truthful. */
  lemma ReportKeeps(s: State, t: nat)
    requires Inv(s) && t < |s.threads| && s.threads[t].phase == Finished
    ensures Inv(Report(s, t)) && Report(s, t).threads[t].phase == Active
    ensures Report(s, t).nTodo >= 0
  {
    hide Sum, Occurs, FirstFailure, Conserved, ResultOk;
    var th := s.threads[t];
    var th' := s.threads[t].(phase := Active, local := if th.local.Some? && s.result.None? then s.result else th.local);
    var mid := Report(s, t).(threads := s.threads[t := th']);
    assert ThreadOk(th, s.result);
    ReportResult(s, th, mid.result);
    Recount(s, t, th', mid);
    forall c
      ensures Occurs(c, mid.done) == Occurs(c, s.done) + Occurs(c, th.vChecks)
    {
      OccursConcat(c, s.done, th.vChecks);
    }
    Reconserve(s, t, th', mid);
    NotifyKeeps(mid, mid.(threads := Notify(mid.threads)));
  }

  lemma EnteringKeeps(s: State, t: nat)
    requires Inv(s) && t < |s.threads| && CanLock(s.threads[t])
    ensures Inv(Entering(s, t)) && Entering(s, t).threads[t].phase == Active
  {
    if s.threads[t].phase == Finished {
      ReportKeeps(s, t);
    } else {
      Recount(s, t, s.threads[t].(phase := Active), Entering(s, t));
      Reconserve(s, t, s.threads[t].(phase := Active), Entering(s, t));
    }
  }

  /** The batch size is at least one and never exceeds a non-empty queue. */
  lemma BatchFits(s: State, batchSize: nat)
    requires s.nTotal >= 0 && s.nIdle >= 0
    ensures Defined(s, batchSize)
    ensures s.queue != [] ==> 1 <= BatchSize(s, batchSize) <= |s.queue|
  {
    IntMath.QuotientBound(|s.queue|, s.nTotal + s.nIdle + 1);
  }

  /** With nothing queued and nothing to do, no thread holds work and the round is all done. */
  lemma RoundOver(s: State)
    requires Inv(s) && s.queue == [] && s.nTodo == 0
    ensures forall c :: c in s.round <==> c in s.done
    ensures forall i | 0 <= i < |s.threads| :: !s.threads[i].HasBatch()
    ensures forall c :: Sum(HeldOf(c), s.threads) == 0
  {
    forall i | 0 <= i < |s.threads|
      ensures !s.threads[i].HasBatch()
    {
      SumAtLeast(Held, s.threads, i);
      assert ThreadOk(s.threads[i], s.result);
    }
    forall c
      ensures Sum(HeldOf(c), s.threads) == 0
      ensures c in s.round <==> c in s.done
    {
      if Sum(HeldOf(c), s.threads) > 0 {
        SomePositive(HeldOf(c), s.threads);
      }
      assert Occurs(c, s.round) == Occurs(c, s.done);
    }
  }

  /** Complete returns: a new round begins with nothing pending. */
  lemma ReturnKeeps(s: State, batchSize: nat)
    requires Inv(s) && s.threads[0].phase == Active && s.queue == [] && !s.stop && s.nTodo == 0
    requires Defined(s, batchSize)
    ensures Inv(LoopTop(s, 0, batchSize))
  {
    hide Sum, FirstFailure;
    var s' := LoopTop(s, 0, batchSize);
    Recount(s, 0, IDLE, s');
    RoundOver(s);
    forall c
      ensures Sum(HeldOf(c), s'.threads) == 0
    {
      SumUpdate(HeldOf(c), s.threads, 0, IDLE);
    }
  }

  lemma TakeKeeps(s: State, t: nat, batchSize: nat)
    requires Inv(s) && t < |s.threads| && s.threads[t].phase == Active && s.queue != [] && !s.stop
    requires Defined(s, batchSize)
    ensures Inv(LoopTop(s, t, batchSize))
  {
    hide Sum, FirstFailure, ResultOk;
    var s' := LoopTop(s, t, batchSize);
    var start := |s.queue| - BatchSize(s, batchSize);
    Recount(s, t, s'.threads[t], s');
    forall c
      ensures Occurs(c, s.queue) == Occurs(c, s.queue[..start]) + Occurs(c, s.queue[start..])
    {
      OccursConcat(c, s.queue[..start], s.queue[start..]);
      assert s.queue == s.queue[..start] + s.queue[start..];
    }
    Reconserve(s, t, s'.threads[t], s');
  }

  lemma LoopTopKeeps(s: State, t: nat, batchSize: nat)
    requires Inv(s) && t < |s.threads| && s.threads[t].phase == Active
    ensures Defined(s, batchSize)
    ensures Inv(LoopTop(s, t, batchSize))
  {
    hide Sum, FirstFailure, ResultOk;
    BatchFits(s, batchSize);
    if s.queue == [] && !s.stop && t == 0 && s.nTodo == 0 {
      ReturnKeeps(s, batchSize);
    } else if s.queue != [] && !s.stop {
      TakeKeeps(s, t, batchSize);
    } else {
      var s' := LoopTop(s, t, batchSize);
      Recount(s, t, s'.threads[t], s');
      Reconserve(s, t, s'.threads[t], s');
    }
  }

  lemma ExecuteKeeps(s: State, s': State, t: nat)
    requires Inv(s) && Executes(s, s', t)
    ensures Inv(s')
  {
    Recount(s, t, s'.threads[t], s');
    Reconserve(s, t, s'.threads[t], s');
  }

  lemma AddKeeps(s: State, s': State, checks: seq<Check>)
    requires Inv(s) && Adds(s, s', checks)
    ensures Inv(s')
  {
    forall c
      ensures Occurs(c, s'.queue) == Occurs(c, s.queue) + Occurs(c, checks)
      ensures Occurs(c, s'.round) == Occurs(c, s.round) + Occurs(c, checks)
    {
      OccursConcat(c, s.queue, checks);
      OccursConcat(c, s.round, checks);
    }
  }

  lemma NextKeeps(s: State, s': State, step: Step, batchSize: nat)
    requires Inv(s) && Next(s, s', step, batchSize)
    ensures Inv(s') && |s'.threads| == |s.threads|
    ensures s'.round == if step.Add? then s.round + step.checks else if Completes(s', step) then [] else s.round
  {
    hide Sum, ResultOk, ThreadOk;
    match step
    case Lock(t) =>
      EnteringKeeps(s, t);
      LoopTopKeeps(Entering(s, t), t, batchSize);
    case Execute(t) => ExecuteKeeps(s, s', t);
    case Add(checks) => AddKeeps(s, s', checks);
    case Stop =>
  }

  lemma {:induction false} AllIdle(f: Thread -> nat, threads: seq<Thread>)
    requires f(IDLE) == 0 && forall i | 0 <= i < |threads| :: threads[i] == IDLE
    ensures Sum(f, threads) == 0
  {
    if threads != [] {
      AllIdle(f, threads[1..]);
    }
  }

  lemma InitInv(workers: nat)
    ensures Inv(Init(workers))
  {
    var threads := Init(workers).threads;
    AllIdle(Idle, threads);
    AllIdle(Inside, threads);
    AllIdle(Held, threads);
    forall c
      ensures Sum(HeldOf(c), threads) == 0
    {
      AllIdle(HeldOf(c), threads);
    }
  }

  // ---- Runs ----

  ghost predicate IsRun(states: seq<State>, steps: seq<Step>, workers: nat, batchSize: nat) {
    && |states| == |steps| + 1
    && states[0] == Init(workers)
    && forall i | 0 <= i < |steps| :: Next(states[i], states[i + 1], steps[i], batchSize)
  }

  /** This step ends a call to Complete. */
  ghost predicate Completes(s': State, step: Step) {
    step == Lock(0) && s'.threads != [] && s'.threads[0].phase == Outside
  }

  /** The checks added since the last call to Complete that ended before step `i`. */
  ghost function AddedSince(states: seq<State>, steps: seq<Step>, i: nat): seq<Check>
    requires i <= |steps| && |states| == |steps| + 1
  {
    if i == 0 then []
    else if steps[i - 1].Add? then AddedSince(states, steps, i - 1) + steps[i - 1].checks
    else if Completes(states[i], steps[i - 1]) then []
    else AddedSince(states, steps, i - 1)
  }

  lemma {:induction false} RunInv(states: seq<State>, steps: seq<Step>, workers: nat, batchSize: nat, i: nat)
    requires IsRun(states, steps, workers, batchSize) && i < |states|
    ensures Inv(states[i]) && |states[i].threads| == workers + 1
    ensures states[i].round == AddedSince(states, steps, i)
  {
    if i == 0 {
      InitInv(workers);
    } else {
      RunInv(states, steps, workers, batchSize, i - 1);
      assert Next(states[i - 1], states[i - 1 + 1], steps[i - 1], batchSize);
      NextKeeps(states[i - 1], states[i], steps[i - 1], batchSize);
    }
  }

  /**
    Complete returns nothing exactly when every check added in its round succeeds, and
    otherwise an error that a check of that very round produced.
   */
  lemma CompleteIsCorrect(states: seq<State>, steps: seq<Step>, workers: nat, batchSize: nat, i: nat)
    requires IsRun(states, steps, workers, batchSize) && i < |steps| && Completes(states[i + 1], steps[i])
    ensures 0 < |states[i].threads| && CanLock(states[i].threads[0])
    ensures
      var returned := Entering(states[i], 0).result;
      var added := AddedSince(states, steps, i);
      && (returned.None? <==> forall c | c in added :: c.outcome.None?)
      && (returned.Some? ==> exists c | c in added :: c.outcome == returned)
  {
    RunInv(states, steps, workers, batchSize, i);
    assert Next(states[i], states[i + 1], steps[i], batchSize);
    EnteringKeeps(states[i], 0);
    var mid := Entering(states[i], 0);
    assert states[i + 1] == LoopTop(mid, 0, batchSize);
    RoundOver(mid);
    var added := AddedSince(states, steps, i);
    assert mid.round == added;
    if mid.result.Some? {
      var c :| c in mid.done && c.outcome == mid.result;
      assert c in added && added != [];
    }
  }

  /** Whatever thread locks the mutex next, the counters are exact and the batch it takes fits the queue. */
  lemma LockIsSafe(states: seq<State>, steps: seq<Step>, workers: nat, batchSize: nat, i: nat, t: nat)
    requires IsRun(states, steps, workers, batchSize) && i < |states|
    requires t < |states[i].threads| && CanLock(states[i].threads[t])
    ensures states[i].nTodo == |states[i].queue| + Sum(Held, states[i].threads)
    ensures states[i].nIdle == Sum(Idle, states[i].threads) && states[i].nTotal == Sum(Inside, states[i].threads)
    ensures
      var mid := Entering(states[i], t);
      mid.nTodo >= 0 && Defined(mid, batchSize) && (mid.queue != [] ==> 1 <= BatchSize(mid, batchSize) <= |mid.queue|)
  {
    RunInv(states, steps, workers, batchSize, i);
    EnteringKeeps(states[i], t);
    BatchFits(Entering(states[i], t), batchSize);
  }

  /** A master asleep without a wake-up pending has some worker still holding work. */
  lemma SleepingMasterHasWorker(states: seq<State>, steps: seq<Step>, workers: nat, batchSize: nat, i: nat)
    requires IsRun(states, steps, workers, batchSize) && i < |states|
    requires states[i].threads != [] && states[i].threads[0].phase == Waiting && !states[i].threads[0].notified
    ensures exists t: nat | 0 < t < |states[i].threads| :: states[i].threads[t].HasBatch()
  {
    RunInv(states, steps, workers, batchSize, i);
    SomePositive(Held, states[i].threads);
    var t: nat :| t < |states[i].threads| && Held(states[i].threads[t]) > 0;
    assert t != 0;
  }

  /** Whenever no work is left, a waiting master has been woken. */
  lemma LastReportWakes(states: seq<State>, steps: seq<Step>, workers: nat, batchSize: nat, i: nat)
    requires IsRun(states, steps, workers, batchSize) && i < |states| && states[i].nTodo == 0
    requires states[i].threads != [] && states[i].threads[0].phase == Waiting
    ensures states[i].threads[0].notified
  {
    RunInv(states, steps, workers, batchSize, i);
  }
}
