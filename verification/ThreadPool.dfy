/** The thread pool as a protocol of steps (include/ThreadPool.hpp,
    src/ThreadPool.cpp): workers, callers of enqueue, one mutex, one condition
    variable and a stop flag that is stored without the mutex. */
module ThreadPool {

  datatype Worker =
    | Ready              // about to take the mutex
    | Testing            // holds it, evaluates the wait predicate
    | Parking            // holds it, the predicate was false
    | Asleep             // blocked on the condition variable
    | Deciding           // holds it, the predicate was true
    | Running(task: nat) // executes a task, without the mutex
    | Exited
    | Broken             // popped an empty queue: undefined behaviour

  /** The i-th caller hands over task i. */
  datatype Caller =
    | Outside
    | Checking           // holds the mutex, about to read the stop flag
    | Pushing            // holds it, the flag was clear
    | Notifying          // released it, about to notify one worker
    | Returned
    | Refused

  datatype Owner = Free | ByWorker(w: nat) | ByCaller(c: nat)

  datatype Pool = Pool(
    workers: seq<Worker>,
    callers: seq<Caller>,
    owner: Owner,
    queue: seq<nat>,
    stop: bool,
    accepted: seq<nat>,  // every task ever pushed, in order
    taken: seq<nat>,     // every task ever popped, in order
    finished: set<nat>)

  /** The constructor: two workers if it is asked for none. */
  function Start(numThreads: nat, numCallers: nat): Pool {
    Pool(seq(if numThreads == 0 then 2 else numThreads, _ => Ready), seq(numCallers, _ => Outside),
         Free, [], false, [], [], {})
  }

  datatype Step =
    | Lock(w: nat)
    | Test(w: nat)
    | Park(w: nat)
    | Wake(w: nat)                       // a spurious wakeup
    | Decide(w: nat)
    | Finish(w: nat)
    | Enter(c: nat)
    | Check(c: nat)
    | Push(c: nat)
    | Notify(c: nat, sleepers: seq<nat>) // at most one sleeper, and one if there is any
    | Stop
    | NotifyAll

  predicate IsWorker(p: Pool, w: nat) {
    w < |p.workers|
  }

  predicate IsCaller(p: Pool, c: nat) {
    c < |p.callers|
  }

  predicate Sleeps(p: Pool, w: nat) {
    IsWorker(p, w) && p.workers[w].Asleep?
  }

  ghost predicate Enabled(p: Pool, s: Step) {
    match s
    case Lock(w) => IsWorker(p, w) && p.workers[w].Ready? && p.owner == Free
    case Test(w) => IsWorker(p, w) && p.workers[w].Testing?
    case Park(w) => IsWorker(p, w) && p.workers[w].Parking?
    case Wake(w) => Sleeps(p, w)
    case Decide(w) => IsWorker(p, w) && p.workers[w].Deciding?
    case Finish(w) => IsWorker(p, w) && p.workers[w].Running?
    case Enter(c) => IsCaller(p, c) && p.callers[c].Outside? && p.owner == Free
    case Check(c) => IsCaller(p, c) && p.callers[c].Checking?
    case Push(c) => IsCaller(p, c) && p.callers[c].Pushing?
    case Notify(c, sleepers) =>
      && IsCaller(p, c) && p.callers[c].Notifying?
      && (if sleepers == [] then forall w :: IsWorker(p, w) ==> !Sleeps(p, w)
          else |sleepers| == 1 && Sleeps(p, sleepers[0]))
    case Stop => !p.stop
    case NotifyAll => p.stop
  }

  function SetWorker(p: Pool, w: nat, to: Worker): Pool
    requires IsWorker(p, w)
  {
    p.(workers := p.workers[w := to])
  }

  function SetCaller(p: Pool, c: nat, to: Caller): Pool
    requires IsCaller(p, c)
  {
    p.(callers := p.callers[c := to])
  }

  function Do(p: Pool, s: Step): Pool
    requires Enabled(p, s)
  {
    match s
    case Lock(w) => SetWorker(p, w, Testing).(owner := ByWorker(w))
    case Test(w) => SetWorker(p, w, if p.stop || p.queue != [] then Deciding else Parking)
    case Park(w) => SetWorker(p, w, Asleep).(owner := Free)
    case Wake(w) => SetWorker(p, w, Ready)
    case Decide(w) =>
      if p.queue == [] then SetWorker(p, w, if p.stop then Exited else Broken).(owner := Free)
      else SetWorker(p, w, Running(p.queue[0])).(owner := Free, queue := p.queue[1..], taken := p.taken + [p.queue[0]])
    case Finish(w) => SetWorker(p, w, Ready).(finished := p.finished + {p.workers[w].task})
    case Enter(c) => SetCaller(p, c, Checking).(owner := ByCaller(c))
    case Check(c) => if p.stop then SetCaller(p, c, Refused).(owner := Free) else SetCaller(p, c, Pushing)
    case Push(c) => SetCaller(p, c, Notifying).(owner := Free, queue := p.queue + [c], accepted := p.accepted + [c])
    case Notify(c, sleepers) =>
      var q := SetCaller(p, c, Returned);
      if sleepers == [] then q else SetWorker(q, sleepers[0], Ready)
    case Stop => p.(stop := true)
    case NotifyAll => p.(workers := seq(|p.workers|, w requires 0 <= w < |p.workers| =>
        if p.workers[w].Asleep? then Ready else p.workers[w]))
  }

  // ---- the invariant ------------------------------------------------------------

  predicate WorkerLocks(w: Worker) {
    w.Testing? || w.Parking? || w.Deciding?
  }

  predicate CallerLocks(c: Caller) {
    c.Checking? || c.Pushing?
  }

  /** Mutual exclusion, and what the holder of the mutex knows. */
  ghost predicate MutexInv(p: Pool) {
    && |p.workers| > 0
    && (p.owner.ByWorker? ==> IsWorker(p, p.owner.w))
    && (p.owner.ByCaller? ==> IsCaller(p, p.owner.c))
    && (forall w: nat :: IsWorker(p, w) ==> !p.workers[w].Broken?)
    && (forall w: nat :: IsWorker(p, w) ==> (WorkerLocks(p.workers[w]) <==> p.owner == ByWorker(w)))
    && (forall c: nat :: IsCaller(p, c) ==> (CallerLocks(p.callers[c]) <==> p.owner == ByCaller(c)))
    && (forall w: nat :: IsWorker(p, w) && p.workers[w].Deciding? ==> p.stop || p.queue != [])
    && (forall w: nat :: IsWorker(p, w) && p.workers[w].Parking? ==> p.queue == [])
  }

  predicate Accepted(c: Caller) {
    c.Notifying? || c.Returned?
  }

  predicate Distinct(s: seq<nat>) {
    forall i, j :: 0 <= i < j < |s| ==> s[i] != s[j]
  }

  /** A task that left the queue is finished or held by a worker, not both. */
  ghost predicate TaskInv(p: Pool) {
    && p.accepted == p.taken + p.queue
    && Distinct(p.accepted)
    && (forall c: nat :: c in p.accepted <==> IsCaller(p, c) && Accepted(p.callers[c]))
    && (forall w: nat :: IsWorker(p, w) && p.workers[w].Running? ==>
          p.workers[w].task in p.taken && p.workers[w].task !in p.finished)
    && (forall v: nat, w: nat, t: nat :: Holds(p, v, t) && Holds(p, w, t) ==> v == w)
    && (forall t :: t in p.finished ==> t in p.taken)
    && (forall t :: t in p.taken ==> t in p.finished || exists w: nat :: Holds(p, w, t))
  }

  predicate Holds(p: Pool, w: nat, t: nat) {
    IsWorker(p, w) && p.workers[w] == Running(t)
  }

  predicate Awake(p: Pool, w: nat) {
    IsWorker(p, w) && !p.workers[w].Asleep? && !p.workers[w].Exited? && !p.workers[w].Broken?
  }

  predicate AboutToNotify(p: Pool, c: nat) {
    IsCaller(p, c) && p.callers[c].Notifying?
  }

  /** Where tasks wait, a worker is awake or is about to be notified. */
  ghost predicate WakeInv(p: Pool) {
    p.queue != [] ==> (exists c: nat :: AboutToNotify(p, c)) || (exists w: nat :: Awake(p, w))
  }

  /** After the first exit nothing waits and nothing can be pushed any more. */
  ghost predicate ExitInv(p: Pool) {
    forall w: nat :: IsWorker(p, w) && p.workers[w].Exited? ==>
      p.stop && p.queue == [] && forall c: nat :: IsCaller(p, c) ==> !p.callers[c].Pushing?
  }

  /** Nobody is turned away before the pool is stopped. */
  ghost predicate RefusalInv(p: Pool) {
    forall c: nat :: IsCaller(p, c) && p.callers[c].Refused? ==> p.stop
  }

  ghost predicate Inv(p: Pool) {
    MutexInv(p) && TaskInv(p) && WakeInv(p) && ExitInv(p)
  }

  lemma StartInv(numThreads: nat, numCallers: nat)
    ensures Inv(Start(numThreads, numCallers)) && RefusalInv(Start(numThreads, numCallers))
    ensures |Start(numThreads, numCallers).workers| == if numThreads == 0 then 2 else numThreads
    ensures !Start(numThreads, numCallers).stop
  {
  }

  /** In no run does a worker pop an empty queue, although the flag may have been
      stored between its two reads. */
  lemma NeverPopsEmptyQueue(states: seq<Pool>, steps: seq<Step>, i: nat)
    requires IsRun(states, steps) && Inv(states[0]) && i < |states|
    ensures forall w: nat :: IsWorker(states[i], w) ==> !states[i].workers[w].Broken?
    ensures forall w: nat :: Enabled(states[i], Decide(w)) ==> states[i].queue != [] || states[i].stop
  {
    RunKeepsInv(states, steps, i);
    hide TaskInv, WakeInv, ExitInv, IsRun;
  }

  lemma StepKeepsMutex(p: Pool, s: Step)
    requires MutexInv(p) && Enabled(p, s)
    ensures MutexInv(Do(p, s))
  {
    hide MutexInv, Do;
    match s {
      case Enter(_) => CallerKeepsMutex(p, s);
      case Check(_) => CallerKeepsMutex(p, s);
      case Push(_) => CallerKeepsMutex(p, s);
      case Notify(_, _) => NotifyKeepsMutex(p, s);
      case Stop => NotifyKeepsMutex(p, s);
      case NotifyAll => NotifyKeepsMutex(p, s);
      case Decide(_) => DecideKeepsMutex(p, s);
      case Finish(_) => DecideKeepsMutex(p, s);
      case Wake(_) => DecideKeepsMutex(p, s);
      case _ => WorkerKeepsMutex(p, s);
    }
  }

  lemma WorkerKeepsMutex(p: Pool, s: Step)
    requires MutexInv(p) && Enabled(p, s) && (s.Lock? || s.Test? || s.Park?)
    ensures MutexInv(Do(p, s))
  {
  }

  lemma DecideKeepsMutex(p: Pool, s: Step)
    requires MutexInv(p) && Enabled(p, s) && (s.Decide? || s.Finish? || s.Wake?)
    ensures MutexInv(Do(p, s))
  {
  }

  lemma CallerKeepsMutex(p: Pool, s: Step)
    requires MutexInv(p) && Enabled(p, s) && (s.Enter? || s.Check? || s.Push?)
    ensures MutexInv(Do(p, s))
  {
  }

  lemma NotifyKeepsMutex(p: Pool, s: Step)
    requires MutexInv(p) && Enabled(p, s) && (s.Notify? || s.Stop? || s.NotifyAll?)
    ensures MutexInv(Do(p, s))
  {
    var q := Do(p, s);
    forall w: nat | IsWorker(q, w)
      ensures IsWorker(p, w) && (WorkerLocks(q.workers[w]) <==> WorkerLocks(p.workers[w]))
      ensures WorkerLocks(q.workers[w]) ==> q.workers[w] == p.workers[w]
    {
    }
  }

  lemma StepKeepsExit(p: Pool, s: Step)
    requires MutexInv(p) && ExitInv(p) && Enabled(p, s)
    ensures ExitInv(Do(p, s))
  {
  }

  lemma StepKeepsTasks(p: Pool, s: Step)
    requires MutexInv(p) && TaskInv(p) && Enabled(p, s)
    ensures TaskInv(Do(p, s))
  {
    match s {
      case Push(c) => PushKeepsTasks(p, c);
      case Decide(w) =>
        if !(p.stop && p.queue == []) {
          PopKeepsTasks(p, w);
        } else {
          OthersKeepTasks(p, Do(p, s));
        }
      case Finish(w) => FinishKeepsTasks(p, w);
      case _ => OthersKeepTasks(p, Do(p, s));
    }
  }

  /** Steps that neither accept nor move a task. */
  lemma OthersKeepTasks(p: Pool, q: Pool)
    requires TaskInv(p)
    requires q.accepted == p.accepted && q.taken == p.taken && q.queue == p.queue && q.finished == p.finished
    requires |q.workers| == |p.workers| && |q.callers| == |p.callers|
    requires forall w: nat, t :: Holds(q, w, t) <==> Holds(p, w, t)
    requires forall c: nat :: IsCaller(p, c) ==> (Accepted(q.callers[c]) <==> Accepted(p.callers[c]))
    ensures TaskInv(q)
  {
    hide Distinct, Accepted;
    forall w: nat | IsWorker(q, w) && q.workers[w].Running? ensures Holds(p, w, q.workers[w].task) {
      assert Holds(q, w, q.workers[w].task);
    }
    forall t | t in q.taken ensures t in q.finished || exists w: nat :: Holds(q, w, t) {
      if t !in p.finished {
        var w: nat :| Holds(p, w, t);
        assert Holds(q, w, t);
      }
    }
  }

  lemma PushKeepsTasks(p: Pool, c: nat)
    requires TaskInv(p) && Enabled(p, Push(c))
    ensures TaskInv(Do(p, Push(c)))
  {
    var q := Do(p, Push(c));
    assert c !in p.accepted;
    assert q.accepted == q.taken + q.queue;
    assert forall w: nat, t: nat :: Holds(q, w, t) <==> Holds(p, w, t);
    forall t | t in q.taken ensures t in q.finished || exists w: nat :: Holds(q, w, t) {
      if t !in p.finished {
        var w: nat :| Holds(p, w, t);
        assert Holds(q, w, t);
      }
    }
  }

  lemma PopKeepsTasks(p: Pool, w: nat)
    requires TaskInv(p) && Enabled(p, Decide(w)) && p.queue != []
    ensures TaskInv(Do(p, Decide(w)))
  {
    var t := p.queue[0];
    var q := Do(p, Decide(w));
    assert q.accepted == q.taken + q.queue;
    assert p.accepted[|p.taken|] == t;
    forall i | 0 <= i < |p.taken| ensures p.taken[i] != t {
      assert p.accepted[i] == p.taken[i];
    }
    assert t !in p.taken;
    assert Holds(q, w, t);
    forall v: nat, u: nat | Holds(q, v, u) && v != w ensures Holds(p, v, u) && u != t {
      assert p.workers[v].task == u;
    }
    forall u | u in q.taken ensures u in q.finished || exists v: nat :: Holds(q, v, u) {
      if u != t && u !in p.finished {
        var v: nat :| Holds(p, v, u);
        assert Holds(q, v, u);
      }
    }
  }

  lemma FinishKeepsTasks(p: Pool, w: nat)
    requires TaskInv(p) && Enabled(p, Finish(w))
    ensures TaskInv(Do(p, Finish(w)))
  {
    var q := Do(p, Finish(w));
    assert Holds(p, w, p.workers[w].task);
    forall v: nat, u: nat | Holds(q, v, u) ensures Holds(p, v, u) && v != w && u != p.workers[w].task {
      assert Holds(p, v, u) && v != w;
      assert u == p.workers[w].task ==> Holds(p, w, u);
    }
    forall v: nat | IsWorker(q, v) && q.workers[v].Running? ensures Holds(q, v, q.workers[v].task) {
    }
    forall u | u in q.taken ensures u in q.finished || exists v: nat :: Holds(q, v, u) {
      if u !in q.finished {
        var v: nat :| Holds(p, v, u);
        assert Holds(q, v, u);
      }
    }
  }

  lemma StepKeepsWake(p: Pool, s: Step)
    requires MutexInv(p) && WakeInv(p) && ExitInv(p) && Enabled(p, s)
    ensures WakeInv(Do(p, s))
  {
    hide Accepted, Distinct;
    var q := Do(p, s);
    if q.queue != [] {
      match s {
        case Push(c) =>
          assert AboutToNotify(q, c);
        case Notify(c, sleepers) =>
          if sleepers == [] {
            assert !p.workers[0].Exited?;
            assert !Sleeps(p, 0);
            assert Awake(q, 0);
          } else {
            assert Awake(q, sleepers[0]);
          }
        case Park(w) =>
        case Lock(w) => assert Awake(q, w);
        case Test(w) => assert Awake(q, w);
        case Wake(w) => assert Awake(q, w);
        case Decide(w) => assert Awake(q, w);
        case Finish(w) => assert Awake(q, w);
        case _ =>
          if c: nat :| AboutToNotify(p, c) {
            assert AboutToNotify(q, c);
          } else {
            var w: nat :| Awake(p, w);
            assert Awake(q, w);
          }
      }
    }
  }

  lemma StepKeepsInv(p: Pool, s: Step)
    requires Inv(p) && Enabled(p, s)
    ensures Inv(Do(p, s))
  {
    hide MutexInv, TaskInv, WakeInv, ExitInv, Do, Enabled;
    StepKeepsMutex(p, s);
    StepKeepsTasks(p, s);
    StepKeepsWake(p, s);
    StepKeepsExit(p, s);
  }

  // ---- runs -------------------------------------------------------------------

  /** The states a run passes through, each reached from the last by one step. */
  ghost predicate IsRun(states: seq<Pool>, steps: seq<Step>) {
    && |states| == |steps| + 1
    && forall i {:trigger steps[i]} :: 0 <= i < |steps| ==>
        && Enabled(states[i], steps[i])
        && states[i + 1] == Do(states[i], steps[i])
  }

  lemma {:induction false} RunKeepsInv(states: seq<Pool>, steps: seq<Step>, i: nat)
    requires IsRun(states, steps) && Inv(states[0]) && i < |states|
    ensures Inv(states[i])
  {
    if i > 0 {
      RunKeepsInv(states, steps, i - 1);
      StepKeepsInv(states[i - 1], steps[i - 1]);
    }
  }

  lemma RunStep(states: seq<Pool>, steps: seq<Step>, i: nat)
    requires IsRun(states, steps) && i + 1 < |states|
    ensures i < |steps| && Enabled(states[i], steps[i])
    ensures states[i + 1] == Do(states[i], steps[i])
  {
  }

  predicate Queued(p: Pool, t: nat) {
    t in p.queue
  }

  /** No stranded task: in every reachable state each accepted task is in exactly
      one of the queue, one worker's hands, or the finished set; tasks are taken in
      the order in which they were accepted. */
  lemma NoStrandedTask(p: Pool, t: nat)
    requires Inv(p)
    ensures t in p.accepted <==> Queued(p, t) || t in p.finished || exists w: nat :: Holds(p, w, t)
    ensures Queued(p, t) ==> t !in p.finished && forall w: nat :: !Holds(p, w, t)
    ensures t in p.finished ==> forall w: nat :: !Holds(p, w, t)
    ensures forall v: nat, w: nat :: Holds(p, v, t) && Holds(p, w, t) ==> v == w
    ensures p.taken <= p.accepted && p.accepted[|p.taken|..] == p.queue && Distinct(p.accepted)
  {
    assert p.accepted[|p.taken|..] == p.queue;
    forall i, j | 0 <= i < |p.taken| && 0 <= j < |p.queue| ensures p.taken[i] != p.queue[j] {
      assert p.accepted[i] == p.taken[i] && p.accepted[|p.taken| + j] == p.queue[j];
    }
    forall w: nat | Holds(p, w, t) ensures t in p.taken {
      assert p.workers[w].task == t;
    }
  }

  /** Once any worker has exited the queue is empty for ever, and every accepted
      task is finished or being run. */
  lemma {:induction false} NothingLeftAfterExit(states: seq<Pool>, steps: seq<Step>, i: nat, j: nat, w: nat)
    requires IsRun(states, steps) && Inv(states[0]) && i <= j < |states|
    requires IsWorker(states[i], w) && states[i].workers[w].Exited?
    ensures states[j].stop && states[j].queue == []
    ensures states[j].accepted == states[i].accepted
    ensures IsWorker(states[j], w) && states[j].workers[w].Exited?
    decreases j
  {
    hide Inv, Do, Enabled, IsRun;
    RunKeepsInv(states, steps, j);
    ExitSays(states[j]);
    if i < j {
      RunStep(states, steps, j - 1);
      NothingLeftAfterExit(states, steps, i, j - 1, w);
      RunKeepsInv(states, steps, j - 1);
      ExitIsFinal(states[j - 1], steps[j - 1], w);
    }
  }

  lemma ExitSays(p: Pool)
    requires Inv(p)
    ensures forall w: nat :: IsWorker(p, w) && p.workers[w].Exited? ==> p.stop && p.queue == []
  {
  }

  lemma ExitIsFinal(p: Pool, s: Step, w: nat)
    requires Inv(p) && Enabled(p, s)
    requires IsWorker(p, w) && p.workers[w].Exited?
    ensures IsWorker(Do(p, s), w) && Do(p, s).workers[w].Exited? && Do(p, s).accepted == p.accepted
  {
  }

  /** No lost wakeup: where tasks wait and no caller is between its push and its
      notify, a worker is awake. */
  lemma NoLostWakeup(p: Pool)
    requires Inv(p) && p.queue != [] && forall c: nat :: !AboutToNotify(p, c)
    ensures exists w: nat :: Awake(p, w)
  {
  }

  // ---- draining -----------------------------------------------------------------

  /** What the pool and its callers do of themselves once a call has begun. A new call,
      a spurious wakeup, and the destructor's store and broadcast come from outside. */
  predicate Progress(s: Step) {
    WorkerStep(s) || s.Check? || s.Push? || s.Notify?
  }

  predicate WorkerStep(s: Step) {
    s.Lock? || s.Test? || s.Park? || s.Decide? || s.Finish?
  }

  function WorkerRank(w: Worker): nat {
    match w
    case Running(_) => 5
    case Ready => 4
    case Testing => 3
    case Deciding => 2
    case Parking => 1
    case Asleep => 0
    case Exited => 0
    case Broken => 0
  }

  /** A caller may still push a task, worth 4, and wake a sleeper, worth 4. */
  function CallerRank(c: Caller): nat {
    match c
    case Outside => 12
    case Checking => 11
    case Pushing => 10
    case Notifying => 5
    case Returned => 0
    case Refused => 0
  }

  function WorkerRanks(workers: seq<Worker>): nat {
    if workers == [] then 0 else WorkerRank(workers[0]) + WorkerRanks(workers[1..])
  }

  function CallerRanks(callers: seq<Caller>): nat {
    if callers == [] then 0 else CallerRank(callers[0]) + CallerRanks(callers[1..])
  }

  function Measure(p: Pool): nat {
    4 * |p.queue| + WorkerRanks(p.workers) + CallerRanks(p.callers)
  }

  lemma {:induction false} WorkerUpdate(workers: seq<Worker>, w: nat, to: Worker)
    requires w < |workers|
    ensures WorkerRanks(workers[w := to]) == WorkerRanks(workers) - WorkerRank(workers[w]) + WorkerRank(to)
  {
    if w == 0 {
      assert workers[0 := to][1..] == workers[1..];
    } else {
      WorkerUpdate(workers[1..], w - 1, to);
      assert workers[w := to][1..] == workers[1..][w - 1 := to];
    }
  }

  lemma {:induction false} CallerUpdate(callers: seq<Caller>, c: nat, to: Caller)
    requires c < |callers|
    ensures CallerRanks(callers[c := to]) == CallerRanks(callers) - CallerRank(callers[c]) + CallerRank(to)
  {
    if c == 0 {
      assert callers[0 := to][1..] == callers[1..];
    } else {
      CallerUpdate(callers[1..], c - 1, to);
      assert callers[c := to][1..] == callers[1..][c - 1 := to];
    }
  }

  /** What a broadcast can raise the workers' ranks to. */
  lemma {:induction false} BroadcastRanks(before: seq<Worker>, after: seq<Worker>)
    requires |after| == |before|
    requires forall w :: 0 <= w < |before| ==> after[w] == if before[w].Asleep? then Ready else before[w]
    ensures WorkerRanks(after) <= WorkerRanks(before) + 4 * |before|
  {
    if before != [] { BroadcastRanks(before[1..], after[1..]); }
  }

  /** What a step may add to the measure: nothing, but for wakeups from outside. */
  function Raise(p: Pool, s: Step): nat {
    if s.Wake? then 4 else if s.NotifyAll? then 4 * |p.workers| else 0
  }

  /** Every step of the pool and of its callers, new calls included, lowers the measure. */
  lemma StepsDecrease(p: Pool, s: Step)
    requires MutexInv(p) && Enabled(p, s)
    ensures Measure(Do(p, s)) <= Measure(p) + Raise(p, s)
    ensures Progress(s) || s.Enter? ==> Measure(Do(p, s)) < Measure(p)
    ensures |Do(p, s).workers| == |p.workers|
  {
    hide WorkerRanks, CallerRanks;
    match s {
      case Enter(c) => CallerUpdate(p.callers, c, Do(p, s).callers[c]);
      case Check(c) => CallerUpdate(p.callers, c, Do(p, s).callers[c]);
      case Push(c) => CallerUpdate(p.callers, c, Notifying);
      case Notify(c, sleepers) =>
        CallerUpdate(p.callers, c, Returned);
        if sleepers != [] { WorkerUpdate(p.workers, sleepers[0], Ready); }
      case Stop =>
      case NotifyAll => BroadcastRanks(p.workers, Do(p, s).workers);
      case _ => WorkerUpdate(p.workers, s.w, Do(p, s).workers[s.w]);
    }
  }

  /** Where tasks wait, something in the pool or in a call under way can move. */
  lemma WaitingMeansMoving(p: Pool)
    requires Inv(p) && p.queue != []
    ensures exists s :: Progress(s) && Enabled(p, s)
  {
    if p.owner != Free {
      HolderMoves(p);
    } else if c: nat :| AboutToNotify(p, c) {
      NotifyIsEnabled(p, c);
    } else {
      var w: nat :| Awake(p, w);
      assert Enabled(p, if p.workers[w].Ready? then Lock(w) else Finish(w));
    }
  }

  /** Whoever holds the mutex can go on. */
  lemma HolderMoves(p: Pool)
    requires MutexInv(p) && p.owner != Free
    ensures exists s :: Progress(s) && Enabled(p, s)
  {
    match p.owner {
      case ByCaller(c) =>
        assert CallerLocks(p.callers[c]);
        assert Enabled(p, if p.callers[c].Checking? then Check(c) else Push(c));
      case ByWorker(o) =>
        assert WorkerLocks(p.workers[o]);
        var at := p.workers[o];
        assert Enabled(p, if at.Testing? then Test(o) else if at.Parking? then Park(o) else Decide(o));
    }
  }

  lemma NotifyIsEnabled(p: Pool, c: nat)
    requires AboutToNotify(p, c)
    ensures exists s :: Progress(s) && Enabled(p, s)
  {
    if w: nat :| Sleeps(p, w) {
      assert Enabled(p, Notify(c, [w]));
    } else {
      assert Enabled(p, Notify(c, []));
    }
  }

  /** How many steps of a run are wakeups from outside, and how many are neither those
      nor the destructor's store. */
  function Raises(steps: seq<Step>, numWorkers: nat): nat {
    if steps == [] then 0 else
      Raises(steps[1..], numWorkers)
      + if steps[0].Wake? then 4 else if steps[0].NotifyAll? then 4 * numWorkers else 0
  }

  function Moves(steps: seq<Step>): nat {
    if steps == [] then 0 else Moves(steps[1..]) + if Progress(steps[0]) || steps[0].Enter? then 1 else 0
  }

  /** The queue drains. In any run, with calls and wakeups wherever they come, the steps of
      workers and callers are bounded by the measure at its start plus what the wakeups
      add; and where none of them is possible any more the queue is empty. */
  lemma {:induction false} QueueDrains(states: seq<Pool>, steps: seq<Step>)
    requires IsRun(states, steps) && Inv(states[0])
    ensures Moves(steps) <= Measure(states[0]) + Raises(steps, |states[0].workers|)
    ensures (forall s :: Progress(s) ==> !Enabled(states[|steps|], s)) ==> states[|steps|].queue == []
    decreases |steps|
  {
    hide Inv, Measure, Do, Enabled, Progress;
    if steps == [] {
      if states[0].queue != [] { WaitingMeansMoving(states[0]); }
    } else {
      StepOfRun(states, steps);
      QueueDrains(states[1..], steps[1..]);
    }
  }

  /** The first step of a run, and the run that is left. */
  lemma StepOfRun(states: seq<Pool>, steps: seq<Step>)
    requires IsRun(states, steps) && Inv(states[0]) && steps != []
    ensures IsRun(states[1..], steps[1..]) && Inv(states[1]) && |states[1].workers| == |states[0].workers|
    ensures Measure(states[1]) <= Measure(states[0]) + Raise(states[0], steps[0])
    ensures Progress(steps[0]) || steps[0].Enter? ==> Measure(states[1]) < Measure(states[0])
  {
    assert Enabled(states[0], steps[0]) && states[1] == Do(states[0], steps[0]);
    InvHasMutex(states[0]);
    hide Inv, MutexInv, Measure, Do, Enabled, Progress;
    StepKeepsInv(states[0], steps[0]);
    StepsDecrease(states[0], steps[0]);
  }

  lemma InvHasMutex(p: Pool)
    requires Inv(p)
    ensures MutexInv(p)
  {
  }

  // ---- what becomes of a call -----------------------------------------------------

  lemma StepKeepsRefusal(p: Pool, s: Step)
    requires RefusalInv(p) && Enabled(p, s)
    ensures RefusalInv(Do(p, s))
  {
  }

  lemma {:induction false} RunKeepsRefusal(states: seq<Pool>, steps: seq<Step>, i: nat)
    requires IsRun(states, steps) && RefusalInv(states[0]) && i < |states|
    ensures RefusalInv(states[i])
  {
    hide RefusalInv, Do, Enabled;
    if i > 0 {
      RunKeepsRefusal(states, steps, i - 1);
      StepKeepsRefusal(states[i - 1], steps[i - 1]);
    }
  }

  ghost predicate Stuck(p: Pool) {
    forall s :: Progress(s) ==> !Enabled(p, s)
  }

  /** Where nothing in the pool or in a call under way can move, nobody is inside. */
  lemma StuckMeansIdle(p: Pool)
    requires Inv(p) && Stuck(p)
    ensures p.queue == [] && p.owner == Free
    ensures forall c: nat :: IsCaller(p, c) ==> p.callers[c].Outside? || p.callers[c].Returned? || p.callers[c].Refused?
    ensures forall w: nat :: IsWorker(p, w) ==> p.workers[w].Asleep? || p.workers[w].Exited?
  {
    if p.queue != [] { WaitingMeansMoving(p); }
    if p.owner != Free { HolderMoves(p); }
    forall c: nat | IsCaller(p, c)
      ensures p.callers[c].Outside? || p.callers[c].Returned? || p.callers[c].Refused?
    {
      if p.callers[c].Notifying? { NotifyIsEnabled(p, c); }
      assert !CallerLocks(p.callers[c]);
    }
    forall w: nat | IsWorker(p, w) ensures p.workers[w].Asleep? || p.workers[w].Exited? {
      assert Progress(Lock(w)) && Progress(Finish(w));
      assert !WorkerLocks(p.workers[w]);
    }
  }

  /** Every call ends well: in any run of a new pool, where nothing can move any more,
      each caller has not begun, or was turned away by a stopped pool, or its task is
      finished. In particular a pool that is not stopped runs every task handed to it;
      and if no new call can begin either, that is every caller's. */
  lemma EveryTaskIsRun(numThreads: nat, numCallers: nat, states: seq<Pool>, steps: seq<Step>)
    requires IsRun(states, steps) && states[0] == Start(numThreads, numCallers)
    requires Stuck(states[|steps|])
    ensures var p := states[|steps|];
            |p.callers| == numCallers && forall c: nat :: c < numCallers ==>
              || (p.callers[c].Outside? && Enabled(p, Enter(c)))
              || (p.callers[c].Refused? && p.stop)
              || (p.callers[c].Returned? && c in p.finished)
  {
    var n, p := |steps|, states[|steps|];
    StartInv(numThreads, numCallers);
    RunKeepsInv(states, steps, n);
    RunKeepsRefusal(states, steps, n);
    RunKeepsCallers(states, steps, n);
    StuckMeansIdle(p);
    hide IsRun, Stuck, MutexInv, WakeInv, ExitInv, Start;
    forall c: nat | c < numCallers
      ensures || (p.callers[c].Outside? && Enabled(p, Enter(c)))
              || (p.callers[c].Refused? && p.stop)
              || (p.callers[c].Returned? && c in p.finished)
    {
      assert IsCaller(p, c);
      if p.callers[c].Outside? {
        assert Enabled(p, Enter(c));
      } else if p.callers[c].Returned? {
        assert Accepted(p.callers[c]);
        assert c in p.accepted && p.accepted == p.taken;
      }
    }
  }

  lemma {:induction false} RunKeepsCallers(states: seq<Pool>, steps: seq<Step>, i: nat)
    requires IsRun(states, steps) && i < |states|
    ensures |states[i].callers| == |states[0].callers|
  {
    if i > 0 {
      RunKeepsCallers(states, steps, i - 1);
      RunStep(states, steps, i - 1);
    }
  }

  // ---- shutting down ----------------------------------------------------------------

  /** Stopped, and no worker is asleep or will be. */
  ghost predicate Leaving(p: Pool) {
    p.stop && forall w: nat :: IsWorker(p, w) ==> !p.workers[w].Asleep? && !p.workers[w].Parking?
  }

  /** The destructor's broadcast gets every worker to leave exactly when none of them
      has looked at the flag before it was stored and not gone to sleep yet. */
  lemma BroadcastIff(p: Pool)
    requires Enabled(p, NotifyAll)
    ensures Leaving(Do(p, NotifyAll)) <==> forall w: nat :: IsWorker(p, w) ==> !p.workers[w].Parking?
  {
    var q := Do(p, NotifyAll);
    forall w: nat | IsWorker(p, w)
      ensures q.workers[w] == if p.workers[w].Asleep? then Ready else p.workers[w]
    {
    }
  }

  lemma StepKeepsLeaving(p: Pool, s: Step)
    requires Leaving(p) && Enabled(p, s)
    ensures Leaving(Do(p, s))
  {
  }

  /** Then the join comes to its end: whatever run follows, where nothing can move any
      more every worker has exited and every accepted task is finished. */
  lemma {:induction false} ShutdownCompletes(states: seq<Pool>, steps: seq<Step>)
    requires IsRun(states, steps) && Inv(states[0]) && Leaving(states[0]) && Stuck(states[|steps|])
    ensures var p := states[|steps|];
            && (forall w: nat :: IsWorker(p, w) ==> p.workers[w].Exited?)
            && (forall t :: t in p.accepted ==> t in p.finished)
    decreases |steps|
  {
    if steps == [] {
      StuckMeansIdle(states[0]);
      hide MutexInv, WakeInv, ExitInv, Stuck;
      var p := states[0];
      forall t | t in p.accepted ensures t in p.finished {
        assert p.accepted == p.taken;
        assert forall w: nat :: !Holds(p, w, t);
      }
    } else {
      RunStep(states, steps, 0);
      StepKeepsInv(states[0], steps[0]);
      StepKeepsLeaving(states[0], steps[0]);
      RestIsRun(states, steps);
      hide Inv, Leaving, Do, Enabled, IsRun, Stuck;
      ShutdownCompletes(states[1..], steps[1..]);
    }
  }

  lemma RestIsRun(states: seq<Pool>, steps: seq<Step>)
    requires IsRun(states, steps) && steps != []
    ensures IsRun(states[1..], steps[1..])
  {
    hide Do, Enabled;
  }

  /** And otherwise it need not: the flag is stored, without the mutex, and the broadcast
      sent after the only worker has looked and before it sleeps. It sleeps for ever. */
  lemma ShutdownCanHang() returns (states: seq<Pool>, steps: seq<Step>)
    ensures states != [] && states[0] == Start(1, 0) && IsRun(states, steps)
    ensures steps == [Lock(0), Test(0), Stop, NotifyAll, Park(0)]
    ensures states[|steps|].stop && states[|steps|].workers == [Asleep] && Stuck(states[|steps|])
  {
    steps := [Lock(0), Test(0), Stop, NotifyAll, Park(0)];
    var parking := Pool([Parking], [], ByWorker(0), [], false, [], [], {});
    var a, b := Start(1, 0), Pool([Testing], [], ByWorker(0), [], false, [], [], {});
    BeforeTheStore(a, b, parking);
    var stopped := parking.(stop := true);
    var asleep := Pool([Asleep], [], Free, [], true, [], [], {});
    AfterTheStore(parking, stopped, asleep);
    states := [a, b, parking, stopped, stopped, asleep];
    hide Do, Enabled, Start;
  }

  lemma BeforeTheStore(a: Pool, b: Pool, parking: Pool)
    requires a == Start(1, 0) && b == Pool([Testing], [], ByWorker(0), [], false, [], [], {})
    requires parking == b.(workers := [Parking])
    ensures Enabled(a, Lock(0)) && Do(a, Lock(0)) == b
    ensures Enabled(b, Test(0)) && Do(b, Test(0)) == parking
  {
    assert a.workers == [Ready] && a.callers == [];
  }

  lemma AfterTheStore(parking: Pool, stopped: Pool, asleep: Pool)
    requires parking == Pool([Parking], [], ByWorker(0), [], false, [], [], {})
    requires stopped == parking.(stop := true) && asleep == Pool([Asleep], [], Free, [], true, [], [], {})
    ensures Enabled(parking, Stop) && Do(parking, Stop) == stopped
    ensures Enabled(stopped, NotifyAll) && Do(stopped, NotifyAll) == stopped
    ensures Enabled(stopped, Park(0)) && Do(stopped, Park(0)) == asleep
    ensures Stuck(asleep)
  {
    assert Do(stopped, NotifyAll).workers == [Parking];
    assert Do(stopped, Park(0)).workers == [Asleep];
  }
}
