/** Worker threads, their queues and parking: runtime/executor/src/worker.rs and pool.rs. The
    queue and parker contracts of crossbeam are taken as given: push, pop and steal are atomic,
    and an unpark leaves a token that the next park consumes. */
module Worker {

  type Task = nat

  /** A task in a local queue, with the scheduling call that put it there. */
  datatype Entry = Entry(task: Task, call: nat)

  /** Where `run` is: the checks of `run_inner` in order, running a task, or in `park`. */
  datatype Phase = CheckLocal | CheckDeque | CheckInjector | Steal | Parked | Running(task: Task)

  datatype WorkerState = WorkerState(local: seq<Entry>, deque: seq<Task>, token: bool, phase: Phase)

  datatype State = State(
    injector: seq<Task>,
    workers: seq<WorkerState>,
    outside: set<Task>,          // tasks that are neither queued nor being run
    pending: map<nat, nat>,      // local scheduling calls that have pushed but not unparked: call -> worker
    nextCall: nat,
    home: map<Task, nat>)        // tasks made by `spawn_local`, and their worker

  datatype Step =
    | PushGlobal(t: Task)
    | PushLocal(t: Task)
    | Unpark(call: nat)
    | Wakeup(w: nat)                      // Sleeper::wakeup
    | Look(w: nat)                        // pop from the own queues; leave an empty one behind
    | StealGlobal(w: nat, n: nat)         // a batch of n + 1 tasks from the injector
    | StealFrom(w: nat, v: nat, n: nat)   // the same from another worker's deque
    | StopStealing(w: nat)                // nothing to steal, or a race lost to another thief
    | FinishTask(w: nat)
    | ReturnFromPark(w: nat)
    | ParkTimeout(w: nat)

  predicate Blocked(w: WorkerState) { w.phase == Parked && !w.token }

  function SetWorker(s: State, i: nat, w: WorkerState): State
    requires i < |s.workers|
  {
    s.(workers := s.workers[i := w])
  }

  predicate Enabled(s: State, step: Step) {
    match step
    case PushGlobal(t) => t in s.outside && t !in s.home
    case PushLocal(t) => t in s.outside && t in s.home && s.home[t] < |s.workers|
    case Unpark(c) => c in s.pending && s.pending[c] < |s.workers|
    case Wakeup(w) => w < |s.workers|
    case Look(w) => w < |s.workers| && (s.workers[w].phase == CheckLocal || s.workers[w].phase == CheckDeque)
    case StealGlobal(w, n) => w < |s.workers| && s.workers[w].phase == CheckInjector && n < |s.injector|
    case StealFrom(w, v, n) =>
      w < |s.workers| && v < |s.workers| && v != w && s.workers[w].phase == Steal && n < |s.workers[v].deque|
    case StopStealing(w) =>
      w < |s.workers| && (s.workers[w].phase == Steal || (s.workers[w].phase == CheckInjector && s.injector == []))
    case FinishTask(w) => w < |s.workers| && s.workers[w].phase.Running?
    case ReturnFromPark(w) => w < |s.workers| && s.workers[w].phase == Parked && s.workers[w].token
    case ParkTimeout(w) => w < |s.workers| && s.workers[w].phase == Parked
  }

  function LookStep(w: WorkerState): WorkerState {
    if w.phase == CheckLocal then
      if w.local != [] then w.(local := w.local[1..], phase := Running(w.local[0].task)) else w.(phase := CheckDeque)
    else
      if w.deque != [] then w.(deque := w.deque[1..], phase := Running(w.deque[0])) else w.(phase := CheckInjector)
  }

  /** `steal_batch_and_pop`: the first task is run, the others go to the own deque. */
  function TakeBatch(w: WorkerState, batch: seq<Task>): WorkerState
    requires batch != []
  {
    w.(deque := w.deque + batch[1..], phase := Running(batch[0]))
  }

  function Next(s: State, step: Step): State
    requires Enabled(s, step)
  {
    match step
    case PushGlobal(t) => s.(injector := s.injector + [t], outside := s.outside - {t})
    case PushLocal(t) =>
      var i := s.home[t];
      var w := s.workers[i];
      SetWorker(s, i, w.(local := w.local + [Entry(t, s.nextCall)]))
        .(outside := s.outside - {t}, pending := s.pending[s.nextCall := i], nextCall := s.nextCall + 1)
    case Unpark(c) =>
      var i := s.pending[c];
      SetWorker(s, i, s.workers[i].(token := true)).(pending := s.pending - {c})
    case Wakeup(w) => SetWorker(s, w, s.workers[w].(token := true))
    case Look(w) => SetWorker(s, w, LookStep(s.workers[w]))
    case StealGlobal(w, n) =>
      SetWorker(s, w, TakeBatch(s.workers[w], s.injector[..n + 1])).(injector := s.injector[n + 1..])
    case StealFrom(w, v, n) =>
      var d := s.workers[v].deque;
      SetWorker(SetWorker(s, v, s.workers[v].(deque := d[n + 1..])), w, TakeBatch(s.workers[w], d[..n + 1]))
    case StopStealing(w) =>
      SetWorker(s, w, s.workers[w].(phase := if s.workers[w].phase == Steal then Parked else Steal))
    case FinishTask(w) =>
      SetWorker(s, w, s.workers[w].(phase := CheckLocal)).(outside := s.outside + {s.workers[w].phase.task})
    case ReturnFromPark(w) => SetWorker(s, w, s.workers[w].(token := false, phase := CheckLocal))
    case ParkTimeout(w) => SetWorker(s, w, s.workers[w].(phase := CheckLocal))
  }

  /** `n` fresh workers; every task is outside the queues. */
  function Init(n: nat, tasks: set<Task>, home: map<Task, nat>): State {
    State([], seq(n, _ => WorkerState([], [], false, CheckLocal)), tasks, map[], 0, home)
  }

  predicate Legal(s: State, steps: seq<Step>)
    decreases |steps|
  {
    steps == [] || (Enabled(s, steps[0]) && Legal(Next(s, steps[0]), steps[1..]))
  }

  function After(s: State, steps: seq<Step>): State
    requires Legal(s, steps)
    decreases |steps|
  {
    if steps == [] then s else After(Next(s, steps[0]), steps[1..])
  }

  // ----- no missed unpark

  /** The worker has found its local queue empty and is on its way into `park`, or in it. */
  predicate PastLocalCheck(p: Phase) { p.CheckDeque? || p.CheckInjector? || p.Steal? || p.Parked? }

  /** Unless the token is there, every entry that a worker past its local check has not seen
      belongs to a call that will still unpark it. */
  predicate WillBeUnparked(w: WorkerState, i: nat, pending: map<nat, nat>) {
    PastLocalCheck(w.phase) && !w.token ==>
    forall k :: 0 <= k < |w.local| ==> w.local[k].call in pending && pending[w.local[k].call] == i
  }

  predicate NoMissedUnpark(s: State) {
    && (forall c :: c in s.pending ==> c < s.nextCall)
    && (forall i :: 0 <= i < |s.workers| ==> WillBeUnparked(s.workers[i], i, s.pending))
  }

  lemma SetKeepsUnpark(s: State, i: nat, w: WorkerState)
    requires NoMissedUnpark(s) && i < |s.workers| && WillBeUnparked(w, i, s.pending)
    ensures NoMissedUnpark(SetWorker(s, i, w))
  {
    hide WillBeUnparked;
  }

  lemma LookKeepsUnpark(w: WorkerState, i: nat, pending: map<nat, nat>)
    requires WillBeUnparked(w, i, pending) && (w.phase == CheckLocal || w.phase == CheckDeque)
    ensures WillBeUnparked(LookStep(w), i, pending)
  {
  }

  lemma PushKeepsUnpark(s: State, t: Task)
    requires NoMissedUnpark(s) && Enabled(s, PushLocal(t))
    ensures NoMissedUnpark(Next(s, PushLocal(t)))
  {
    var s' := Next(s, PushLocal(t));
    forall j | 0 <= j < |s'.workers| ensures WillBeUnparked(s'.workers[j], j, s'.pending) {
      assert WillBeUnparked(s.workers[j], j, s.pending);
    }
  }

  lemma UnparkKeeps(s: State, c: nat)
    requires NoMissedUnpark(s) && Enabled(s, Unpark(c))
    ensures NoMissedUnpark(Next(s, Unpark(c)))
  {
    var s' := Next(s, Unpark(c));
    forall j | 0 <= j < |s'.workers| ensures WillBeUnparked(s'.workers[j], j, s'.pending) {
      assert WillBeUnparked(s.workers[j], j, s.pending);
    }
  }

  lemma StealKeepsUnpark(s: State, w: nat, v: nat, n: nat)
    requires NoMissedUnpark(s) && Enabled(s, StealFrom(w, v, n))
    ensures NoMissedUnpark(Next(s, StealFrom(w, v, n)))
  {
    var d := s.workers[v].deque;
    var v' := s.workers[v].(deque := d[n + 1..]);
    assert WillBeUnparked(s.workers[v], v, s.pending);
    SetKeepsUnpark(s, v, v');
    SetKeepsUnpark(SetWorker(s, v, v'), w, TakeBatch(s.workers[w], d[..n + 1]));
  }

  lemma StepKeepsUnpark(s: State, step: Step)
    requires NoMissedUnpark(s) && Enabled(s, step)
    ensures NoMissedUnpark(Next(s, step))
  {
    match step
    case PushGlobal(t) =>
    case PushLocal(t) => PushKeepsUnpark(s, t);
    case Unpark(c) => UnparkKeeps(s, c);
    case Wakeup(w) => SetKeepsUnpark(s, w, s.workers[w].(token := true));
    case Look(w) =>
      LookKeepsUnpark(s.workers[w], w, s.pending);
      SetKeepsUnpark(s, w, LookStep(s.workers[w]));
    case StealGlobal(w, n) => SetKeepsUnpark(s, w, TakeBatch(s.workers[w], s.injector[..n + 1]));
    case StealFrom(w, v, n) => StealKeepsUnpark(s, w, v, n);
    case StopStealing(w) =>
      assert WillBeUnparked(s.workers[w], w, s.pending);
      SetKeepsUnpark(s, w, s.workers[w].(phase := if s.workers[w].phase == Steal then Parked else Steal));
    case FinishTask(w) => SetKeepsUnpark(s, w, s.workers[w].(phase := CheckLocal));
    case ReturnFromPark(w) => SetKeepsUnpark(s, w, s.workers[w].(token := false, phase := CheckLocal));
    case ParkTimeout(w) => SetKeepsUnpark(s, w, s.workers[w].(phase := CheckLocal));
  }

  lemma {:induction false} RunKeepsUnpark(s: State, steps: seq<Step>)
    requires NoMissedUnpark(s) && Legal(s, steps)
    ensures NoMissedUnpark(After(s, steps))
    decreases |steps|
  {
    hide Enabled, Next, NoMissedUnpark;
    if steps == [] {
    } else {
      StepKeepsUnpark(s, steps[0]);
      RunKeepsUnpark(Next(s, steps[0]), steps[1..]);
    }
  }

  /** In every interleaving, a worker is never blocked in `park` while its local queue holds a
      task whose scheduling call has returned. */
  lemma NeverBlockedWithLocalWork(n: nat, tasks: set<Task>, home: map<Task, nat>, steps: seq<Step>, i: nat, k: nat)
    requires Legal(Init(n, tasks, home), steps)
    requires var s := After(Init(n, tasks, home), steps);
             i < |s.workers| && Blocked(s.workers[i]) && k < |s.workers[i].local|
    ensures var s := After(Init(n, tasks, home), steps); s.workers[i].local[k].call in s.pending
  {
    RunKeepsUnpark(Init(n, tasks, home), steps);
    var s := After(Init(n, tasks, home), steps);
    assert WillBeUnparked(s.workers[i], i, s.pending);
  }

  // ----- the worker's own deque, and the order of its checks

  /** The worker has found its own deque empty and not yet run anything since. */
  predicate PastDeque(p: Phase) { p.CheckInjector? || p.Steal? || p.Parked? }

  predicate DequeSeen(w: WorkerState) { PastDeque(w.phase) ==> w.deque == [] }

  predicate AllDequesSeen(s: State) { forall i :: 0 <= i < |s.workers| ==> DequeSeen(s.workers[i]) }

  lemma StepKeepsDeques(s: State, step: Step)
    requires AllDequesSeen(s) && Enabled(s, step)
    ensures AllDequesSeen(Next(s, step))
  {
    var s' := Next(s, step);
    forall j | 0 <= j < |s'.workers| ensures DequeSeen(s'.workers[j]) {
      assert DequeSeen(s.workers[j]);
    }
  }

  lemma {:induction false} RunKeepsDeques(s: State, steps: seq<Step>)
    requires AllDequesSeen(s) && Legal(s, steps)
    ensures AllDequesSeen(After(s, steps))
    decreases |steps|
  {
    hide Enabled, Next, AllDequesSeen;
    if steps != [] {
      StepKeepsDeques(s, steps[0]);
      RunKeepsDeques(Next(s, steps[0]), steps[1..]);
    }
  }

  /** In every run a worker that looks for shared work, steals or is parked has run everything in its
      own deque. */
  lemma ParksWithEmptyDeque(n: nat, tasks: set<Task>, home: map<Task, nat>, steps: seq<Step>, i: nat)
    requires Legal(Init(n, tasks, home), steps)
    requires var s := After(Init(n, tasks, home), steps); i < |s.workers| && PastDeque(s.workers[i].phase)
    ensures After(Init(n, tasks, home), steps).workers[i].deque == []
  {
    RunKeepsDeques(Init(n, tasks, home), steps);
    assert DequeSeen(After(Init(n, tasks, home), steps).workers[i]);
  }

  /** A look at a queue that holds something runs its front task and takes just that one out. */
  lemma LookRunsFront(s: State, i: nat)
    requires Enabled(s, Look(i))
    ensures var w, w' := s.workers[i], Next(s, Look(i)).workers[i];
            && (w.phase == CheckLocal && w.local != [] ==>
                w'.phase == Running(w.local[0].task) && w.local == [w.local[0]] + w'.local && w'.deque == w.deque)
            && (w.phase == CheckDeque && w.deque != [] ==>
                w'.phase == Running(w.deque[0]) && w.deque == [w.deque[0]] + w'.deque && w'.local == w.local)
  {
  }

  /** What a worker may do next: its checks come in this order, it parks only after all of them, and
      begins again at the first after every task and every park. */
  predicate NextPhase(p: Phase, q: Phase) {
    match p
    case CheckLocal => q.Running? || q.CheckDeque?
    case CheckDeque => q.Running? || q.CheckInjector?
    case CheckInjector => q.Running? || q.Steal?
    case Steal => q.Running? || q.Parked?
    case Parked => q.CheckLocal?
    case Running(_) => q.CheckLocal?
  }

  lemma ChecksInOrder(s: State, step: Step, i: nat)
    requires Enabled(s, step) && i < |s.workers|
    ensures |Next(s, step).workers| == |s.workers|
    ensures var p, q := s.workers[i].phase, Next(s, step).workers[i].phase; q == p || NextPhase(p, q)
  {
  }

  /** A worker's token is set by the unpark of a call for it and by a wakeup, consumed by a return from
      park, and otherwise stays. */
  lemma TokensExactly(s: State, step: Step, i: nat)
    requires Enabled(s, step) && i < |s.workers|
    ensures |Next(s, step).workers| == |s.workers|
    ensures Next(s, step).workers[i].token <==>
            if step == Wakeup(i) || (step.Unpark? && s.pending[step.call] == i) then true
            else s.workers[i].token && step != ReturnFromPark(i)
  {
  }

  // ----- every task in one place

  function TasksOf(q: seq<Entry>): (r: seq<Task>)
    ensures |r| == |q| && forall k :: 0 <= k < |q| ==> r[k] == q[k].task
  {
    if q == [] then [] else [q[0].task] + TasksOf(q[1..])
  }

  function If(b: bool): nat { if b then 1 else 0 }

  /** How often a worker holds task `t`. */
  function Held(w: WorkerState, t: Task): nat {
    multiset(TasksOf(w.local))[t] + multiset(w.deque)[t] + If(w.phase == Running(t))
  }

  function HeldByAll(ws: seq<WorkerState>, t: Task): nat {
    if ws == [] then 0 else Held(ws[0], t) + HeldByAll(ws[1..], t)
  }

  /** In how many places task `t` is: outside the executor, in the injector, in a local queue,
      in a deque, or being run. */
  function Places(s: State, t: Task): nat {
    If(t in s.outside) + multiset(s.injector)[t] + HeldByAll(s.workers, t)
  }

  lemma {:induction false} HeldUpdate(ws: seq<WorkerState>, i: nat, w: WorkerState, t: Task)
    requires i < |ws|
    ensures HeldByAll(ws[i := w], t) == HeldByAll(ws, t) - Held(ws[i], t) + Held(w, t)
  {
    hide Held;
    if i == 0 {
      assert ws[i := w][1..] == ws[1..];
    } else {
      assert ws[i := w][1..] == ws[1..][i - 1 := w];
      HeldUpdate(ws[1..], i - 1, w, t);
    }
  }

  lemma LookHolds(w: WorkerState, t: Task)
    requires w.phase == CheckLocal || w.phase == CheckDeque
    ensures Held(LookStep(w), t) == Held(w, t)
  {
    if w.phase == CheckLocal && w.local != [] {
      assert TasksOf(w.local) == [w.local[0].task] + TasksOf(w.local[1..]);
    } else if w.phase == CheckDeque && w.deque != [] {
      assert w.deque == [w.deque[0]] + w.deque[1..];
    }
  }

  lemma BatchHolds(w: WorkerState, q: seq<Task>, n: nat, t: Task)
    requires n < |q| && !w.phase.Running?
    ensures Held(TakeBatch(w, q[..n + 1]), t) + multiset(q[n + 1..])[t] == Held(w, t) + multiset(q)[t]
  {
    assert q == [q[0]] + q[..n + 1][1..] + q[n + 1..];
  }

  lemma PushHolds(w: WorkerState, e: Entry, t: Task)
    ensures Held(w.(local := w.local + [e]), t) == Held(w, t) + If(e.task == t)
  {
    hide TasksOf;
    var q, q' := TasksOf(w.local), TasksOf(w.local + [e]);
    assert q' == q + [e.task];
    assert multiset(q') == multiset(q) + multiset{e.task};
  }

  /** A worker may change as long as it holds the same tasks. */
  lemma SetConserves(s: State, i: nat, w: WorkerState, t: Task)
    requires i < |s.workers| && Held(w, t) == Held(s.workers[i], t)
    ensures Places(SetWorker(s, i, w), t) == Places(s, t)
  {
    hide HeldByAll, Held;
    HeldUpdate(s.workers, i, w, t);
  }

  lemma PushConserves(s: State, u: Task, t: Task)
    requires Enabled(s, PushLocal(u))
    ensures Places(Next(s, PushLocal(u)), t) == Places(s, t)
  {
    hide HeldByAll, Held;
    var i := s.home[u];
    var e := Entry(u, s.nextCall);
    PushHolds(s.workers[i], e, t);
    HeldUpdate(s.workers, i, s.workers[i].(local := s.workers[i].local + [e]), t);
  }

  lemma StealGlobalConserves(s: State, w: nat, n: nat, t: Task)
    requires Enabled(s, StealGlobal(w, n))
    ensures Places(Next(s, StealGlobal(w, n)), t) == Places(s, t)
  {
    hide HeldByAll, Held, TakeBatch;
    BatchHolds(s.workers[w], s.injector, n, t);
    HeldUpdate(s.workers, w, TakeBatch(s.workers[w], s.injector[..n + 1]), t);
  }

  lemma DequeHolds(w: WorkerState, d: seq<Task>, t: Task)
    ensures Held(w.(deque := d), t) + multiset(w.deque)[t] == Held(w, t) + multiset(d)[t]
  {
  }

  lemma StealFromConserves(s: State, w: nat, v: nat, n: nat, t: Task)
    requires Enabled(s, StealFrom(w, v, n))
    ensures Places(Next(s, StealFrom(w, v, n)), t) == Places(s, t)
  {
    hide HeldByAll, Held, TakeBatch;
    var d := s.workers[v].deque;
    var v' := s.workers[v].(deque := d[n + 1..]);
    DequeHolds(s.workers[v], d[n + 1..], t);
    BatchHolds(s.workers[w], d, n, t);
    HeldUpdate(s.workers, v, v', t);
    HeldUpdate(s.workers[v := v'], w, TakeBatch(s.workers[w], d[..n + 1]), t);
  }

  lemma FinishConserves(s: State, w: nat, t: Task)
    requires Enabled(s, FinishTask(w)) && s.workers[w].phase.task !in s.outside
    ensures Places(Next(s, FinishTask(w)), t) == Places(s, t)
  {
    hide HeldByAll;
    HeldUpdate(s.workers, w, s.workers[w].(phase := CheckLocal), t);
  }

  /** No step duplicates or loses a task. */
  lemma StepConserves(s: State, step: Step, t: Task)
    requires Enabled(s, step)
    requires step.FinishTask? ==> s.workers[step.w].phase.task !in s.outside
    ensures Places(Next(s, step), t) == Places(s, t)
  {
    hide Held, HeldByAll, LookStep;
    match step
    case PushGlobal(u) => PushGlobalConserves(s, u, t);
    case PushLocal(u) => PushConserves(s, u, t);
    case Look(w) => LookHolds(s.workers[w], t); SetConserves(s, w, LookStep(s.workers[w]), t);
    case StealGlobal(w, n) => StealGlobalConserves(s, w, n, t);
    case StealFrom(w, v, n) => StealFromConserves(s, w, v, n, t);
    case Unpark(c) => TokenConserves(s, s.pending[c], t);
    case Wakeup(w) => TokenConserves(s, w, t);
    case StopStealing(w) =>
      PhaseConserves(s, w, s.workers[w].token, if s.workers[w].phase == Steal then Parked else Steal, t);
    case FinishTask(w) => FinishConserves(s, w, t);
    case ReturnFromPark(w) => PhaseConserves(s, w, false, CheckLocal, t);
    case ParkTimeout(w) => PhaseConserves(s, w, s.workers[w].token, CheckLocal, t);
  }

  lemma PushGlobalConserves(s: State, u: Task, t: Task)
    requires Enabled(s, PushGlobal(u))
    ensures Places(Next(s, PushGlobal(u)), t) == Places(s, t)
  {
    hide Held, HeldByAll;
  }

  lemma TokenConserves(s: State, i: nat, t: Task)
    requires i < |s.workers|
    ensures Places(SetWorker(s, i, s.workers[i].(token := true)), t) == Places(s, t)
  {
    SetConserves(s, i, s.workers[i].(token := true), t);
  }

  lemma PhaseConserves(s: State, i: nat, token: bool, p: Phase, t: Task)
    requires i < |s.workers| && !s.workers[i].phase.Running? && !p.Running?
    ensures Places(SetWorker(s, i, s.workers[i].(token := token, phase := p)), t) == Places(s, t)
  {
    SetConserves(s, i, s.workers[i].(token := token, phase := p), t);
  }

  lemma {:induction false} HeldByMember(ws: seq<WorkerState>, i: nat, t: Task)
    requires i < |ws|
    ensures Held(ws[i], t) <= HeldByAll(ws, t)
  {
    hide Held;
    if i > 0 {
      HeldByMember(ws[1..], i - 1, t);
    }
  }

  lemma {:induction false} FreshHoldsNothing(ws: seq<WorkerState>, t: Task)
    requires forall i :: 0 <= i < |ws| ==> ws[i] == WorkerState([], [], false, CheckLocal)
    ensures HeldByAll(ws, t) == 0
  {
    if ws == [] {
    } else {
      FreshHoldsNothing(ws[1..], t);
    }
  }

  lemma FinishedIsInside(s: State, step: Step)
    requires Enabled(s, step) && forall t :: Places(s, t) <= 1
    ensures step.FinishTask? ==> s.workers[step.w].phase.task !in s.outside
  {
    if step.FinishTask? {
      var t := s.workers[step.w].phase.task;
      HeldByMember(s.workers, step.w, t);
      assert Places(s, t) <= 1;
    }
  }

  lemma {:induction false} RunConserves(s: State, steps: seq<Step>, t: Task)
    requires Legal(s, steps) && forall u :: Places(s, u) <= 1
    ensures Places(After(s, steps), t) == Places(s, t)
    decreases |steps|
  {
    hide Enabled, Next, Places;
    if steps == [] {
    } else {
      FinishedIsInside(s, steps[0]);
      forall u ensures Places(Next(s, steps[0]), u) == Places(s, u) {
        StepConserves(s, steps[0], u);
      }
      RunConserves(Next(s, steps[0]), steps[1..], t);
    }
  }

  /** In every run each task is in exactly one place, once. */
  lemma EachTaskInOnePlace(n: nat, tasks: set<Task>, home: map<Task, nat>, steps: seq<Step>, t: Task)
    requires Legal(Init(n, tasks, home), steps)
    ensures Places(After(Init(n, tasks, home), steps), t) == If(t in tasks)
  {
    var s := Init(n, tasks, home);
    forall u ensures Places(s, u) == If(u in tasks) {
      FreshHoldsNothing(s.workers, u);
    }
    RunConserves(s, steps, t);
  }

  // ----- local tasks stay home

  predicate NoneLocal(q: seq<Task>, home: map<Task, nat>) {
    forall k :: 0 <= k < |q| ==> q[k] !in home
  }

  predicate WorkerAtHome(w: WorkerState, i: nat, home: map<Task, nat>) {
    && NoneLocal(w.deque, home)
    && (forall k :: 0 <= k < |w.local| ==> w.local[k].task in home && home[w.local[k].task] == i)
    && (w.phase.Running? && w.phase.task in home ==> home[w.phase.task] == i)
  }

  predicate AtHome(s: State) {
    && NoneLocal(s.injector, s.home)
    && (forall i :: 0 <= i < |s.workers| ==> WorkerAtHome(s.workers[i], i, s.home))
  }

  lemma SetKeepsHome(s: State, i: nat, w: WorkerState)
    requires AtHome(s) && i < |s.workers| && WorkerAtHome(w, i, s.home)
    ensures AtHome(SetWorker(s, i, w))
  {
    hide WorkerAtHome;
  }

  lemma BatchAtHome(w: WorkerState, i: nat, home: map<Task, nat>, q: seq<Task>, n: nat)
    requires WorkerAtHome(w, i, home) && NoneLocal(q, home) && n < |q|
    ensures WorkerAtHome(TakeBatch(w, q[..n + 1]), i, home) && NoneLocal(q[n + 1..], home)
  {
  }

  lemma StealAtHome(s: State, w: nat, v: nat, n: nat)
    requires AtHome(s) && Enabled(s, StealFrom(w, v, n))
    ensures AtHome(Next(s, StealFrom(w, v, n)))
  {
    var d := s.workers[v].deque;
    var v' := s.workers[v].(deque := d[n + 1..]);
    assert WorkerAtHome(s.workers[v], v, s.home) && WorkerAtHome(s.workers[w], w, s.home);
    BatchAtHome(s.workers[w], w, s.home, d, n);
    SetKeepsHome(s, v, v');
    SetKeepsHome(SetWorker(s, v, v'), w, TakeBatch(s.workers[w], d[..n + 1]));
  }

  /** A change that leaves the queues alone and starts no task. */
  lemma IdleAtHome(s: State, i: nat, w: WorkerState)
    requires AtHome(s) && i < |s.workers|
    requires w.local == s.workers[i].local && w.deque == s.workers[i].deque
    requires !w.phase.Running? || w.phase == s.workers[i].phase
    ensures AtHome(SetWorker(s, i, w))
  {
    assert WorkerAtHome(s.workers[i], i, s.home);
    SetKeepsHome(s, i, w);
  }

  lemma PushAtHome(s: State, t: Task)
    requires AtHome(s) && Enabled(s, PushLocal(t))
    ensures AtHome(Next(s, PushLocal(t)))
  {
    var i := s.home[t];
    assert WorkerAtHome(s.workers[i], i, s.home);
    SetKeepsHome(s, i, s.workers[i].(local := s.workers[i].local + [Entry(t, s.nextCall)]));
  }

  lemma LookAtHome(s: State, i: nat)
    requires AtHome(s) && Enabled(s, Look(i))
    ensures AtHome(Next(s, Look(i)))
  {
    assert WorkerAtHome(s.workers[i], i, s.home);
    SetKeepsHome(s, i, LookStep(s.workers[i]));
  }

  lemma StepKeepsHome(s: State, step: Step)
    requires AtHome(s) && Enabled(s, step)
    ensures AtHome(Next(s, step)) && Next(s, step).home == s.home
  {
    hide WorkerAtHome, LookStep, TakeBatch;
    match step
    case PushGlobal(t) =>
    case PushLocal(t) => PushAtHome(s, t);
    case Look(w) => LookAtHome(s, w);
    case StealGlobal(w, n) =>
      BatchAtHome(s.workers[w], w, s.home, s.injector, n);
      SetKeepsHome(s, w, TakeBatch(s.workers[w], s.injector[..n + 1]));
    case StealFrom(w, v, n) => StealAtHome(s, w, v, n);
    case Unpark(c) => IdleAtHome(s, s.pending[c], s.workers[s.pending[c]].(token := true));
    case Wakeup(w) => IdleAtHome(s, w, s.workers[w].(token := true));
    case StopStealing(w) =>
      IdleAtHome(s, w, s.workers[w].(phase := if s.workers[w].phase == Steal then Parked else Steal));
    case FinishTask(w) => IdleAtHome(s, w, s.workers[w].(phase := CheckLocal));
    case ReturnFromPark(w) => IdleAtHome(s, w, s.workers[w].(token := false, phase := CheckLocal));
    case ParkTimeout(w) => IdleAtHome(s, w, s.workers[w].(phase := CheckLocal));
  }

  lemma {:induction false} RunKeepsHome(s: State, steps: seq<Step>)
    requires AtHome(s) && Legal(s, steps)
    ensures AtHome(After(s, steps)) && After(s, steps).home == s.home
    decreases |steps|
  {
    hide Enabled, Next, AtHome;
    if steps == [] {
    } else {
      StepKeepsHome(s, steps[0]);
      RunKeepsHome(Next(s, steps[0]), steps[1..]);
    }
  }

  /** A task made by `spawn_local` is only ever run by the worker it was made on. */
  lemma LocalTaskRunsAtHome(n: nat, tasks: set<Task>, home: map<Task, nat>, steps: seq<Step>, i: nat, t: Task)
    requires Legal(Init(n, tasks, home), steps) && t in home
    requires var s := After(Init(n, tasks, home), steps);
             i < |s.workers| && s.workers[i].phase == Running(t)
    ensures i == home[t]
  {
    RunKeepsHome(Init(n, tasks, home), steps);
    var s := After(Init(n, tasks, home), steps);
    assert WorkerAtHome(s.workers[i], i, s.home);
  }

  // ----- global scheduling has no such guarantee

  /** The tasks pushed to the shared queue, in order. */
  function Pushed(steps: seq<Step>): seq<Task> {
    if steps == [] then []
    else if steps[0].PushGlobal? then [steps[0].t] + Pushed(steps[1..])
    else Pushed(steps[1..])
  }

  /** How many tasks were stolen from it. */
  function Taken(steps: seq<Step>): nat {
    if steps == [] then 0
    else if steps[0].StealGlobal? then steps[0].n + 1 + Taken(steps[1..])
    else Taken(steps[1..])
  }

  /** The shared queue is what it held and what was pushed, less as many from the front as thieves took. */
  lemma {:induction false} InjectorExactly(s: State, steps: seq<Step>)
    requires Legal(s, steps)
    ensures Taken(steps) <= |s.injector| + |Pushed(steps)|
    ensures After(s, steps).injector == (s.injector + Pushed(steps))[Taken(steps)..]
    decreases |steps|
  {
    hide Enabled, Next;
    if steps != [] {
      var t, rest := steps[0], steps[1..];
      var s' := Next(s, t);
      InjectorExactly(s', rest);
      InjectorStep(s, t);
      if t.PushGlobal? {
        assert s'.injector + Pushed(rest) == s.injector + Pushed(steps);
      } else if t.StealGlobal? {
        assert s'.injector + Pushed(rest) == (s.injector + Pushed(rest))[t.n + 1..];
      }
    }
  }

  lemma InjectorStep(s: State, t: Step)
    requires Enabled(s, t)
    ensures t.PushGlobal? ==> Next(s, t).injector == s.injector + [t.t]
    ensures t.StealGlobal? ==> t.n < |s.injector| && Next(s, t).injector == s.injector[t.n + 1..]
    ensures !t.PushGlobal? && !t.StealGlobal? ==> Next(s, t).injector == s.injector
  {
  }

  /** The worker has found the shared queue empty and not looked again. */
  predicate PastInjector(s: State, i: nat) {
    i < |s.workers| && (s.workers[i].phase == Steal || s.workers[i].phase == Parked)
  }

  predicate StaysPast(s: State, steps: seq<Step>, i: nat)
    requires Legal(s, steps)
    decreases |steps|
  {
    PastInjector(s, i) && (steps != [] ==> StaysPast(Next(s, steps[0]), steps[1..], i))
  }

  /** Step `k` is the worker's last look at the shared queue: it was empty, and the worker has not
      been back since. */
  predicate LastLook(s: State, steps: seq<Step>, k: nat, i: nat)
    requires Legal(s, steps)
  {
    && k < |steps| && steps[k] == StopStealing(i) && Legal(s, steps[..k])
    && var m := After(s, steps[..k]);
       && Enabled(m, steps[k]) && m.workers[i].phase == CheckInjector && m.injector == []
       && var m' := Next(m, steps[k]);
          Legal(m', steps[k + 1..]) && After(m', steps[k + 1..]) == After(s, steps) && StaysPast(m', steps[k + 1..], i)
  }

  lemma EnterPast(s: State, t: Step, i: nat)
    requires Enabled(s, t) && PastInjector(Next(s, t), i) && !PastInjector(s, i)
    ensures t == StopStealing(i) && i < |s.workers| && s.workers[i].phase == CheckInjector && s.injector == []
  {
  }

  lemma LookLater(s: State, steps: seq<Step>, k: nat, i: nat)
    requires Legal(s, steps) && steps != [] && LastLook(Next(s, steps[0]), steps[1..], k, i)
    ensures LastLook(s, steps, k + 1, i)
  {
    hide Enabled, Next, StaysPast;
    var rest := steps[1..];
    assert steps[..k + 1][1..] == rest[..k];
    assert steps[k + 1] == rest[k] && steps[k + 2..] == rest[k + 1..];
  }

  lemma LookNow(s: State, steps: seq<Step>, i: nat)
    requires Legal(s, steps) && steps != [] && steps[0] == StopStealing(i)
    requires i < |s.workers| && s.workers[i].phase == CheckInjector && s.injector == []
    requires StaysPast(Next(s, steps[0]), steps[1..], i)
    ensures LastLook(s, steps, 0, i)
  {
    hide Next, StaysPast;
    assert steps[..0] == [];
  }

  lemma {:induction false} FindLastLook(s: State, steps: seq<Step>, i: nat) returns (found: bool, k: nat)
    requires Legal(s, steps) && PastInjector(After(s, steps), i)
    ensures if found then LastLook(s, steps, k, i) else StaysPast(s, steps, i)
    decreases |steps|
  {
    hide Enabled, Next, LastLook, PastInjector;
    found, k := false, 0;
    if steps != [] {
      var s' := Next(s, steps[0]);
      var f, j := FindLastLook(s', steps[1..], i);
      if f {
        LookLater(s, steps, j, i);
        found, k := true, j + 1;
      } else if !PastInjector(s, i) {
        EnterPast(s, steps[0], i);
        LookNow(s, steps, i);
        found := true;
      }
    }
  }

  /** In every run with any number of workers: when a worker is past its look at the shared queue,
      blocked or on its way, that queue holds exactly what was pushed since its last look, in order,
      less as many from the front as other thieves took. So it leaves work behind if and only if more
      was pushed since then than was taken. */
  lemma LeftInInjector(n: nat, tasks: set<Task>, home: map<Task, nat>, steps: seq<Step>, i: nat) returns (k: nat)
    requires Legal(Init(n, tasks, home), steps) && PastInjector(After(Init(n, tasks, home), steps), i)
    ensures LastLook(Init(n, tasks, home), steps, k, i)
    ensures var left, since := After(Init(n, tasks, home), steps).injector, steps[k + 1..];
            && Taken(since) <= |Pushed(since)| && left == Pushed(since)[Taken(since)..]
            && (left != [] <==> Taken(since) < |Pushed(since)|)
  {
    var s := Init(n, tasks, home);
    var found;
    found, k := FindLastLook(s, steps, i);
    InitNotPast(s, i);
    assert found;
    hide Next, Enabled, StaysPast;
    var m := After(s, steps[..k]);
    LookKeepsInjector(m, i);
    InjectorExactly(Next(m, steps[k]), steps[k + 1..]);
    assert [] + Pushed(steps[k + 1..]) == Pushed(steps[k + 1..]);
  }

  lemma LookKeepsInjector(m: State, i: nat)
    requires Enabled(m, StopStealing(i))
    ensures Next(m, StopStealing(i)).injector == m.injector
  {
  }

  lemma InitNotPast(s: State, i: nat)
    requires forall j :: 0 <= j < |s.workers| ==> s.workers[j].phase == CheckLocal
    ensures !PastInjector(s, i)
  {
  }

  /** `n` workers of which the first `k` are parked, with all queues empty. */
  function SomeParked(n: nat, k: nat, t: Task): State {
    State([], seq(n, j => WorkerState([], [], false, if j < k then Parked else CheckLocal)), {t}, map[], 0, map[])
  }

  /** `Executor::schedule` pushes and unparks nobody: for every number of workers there is a run at
      whose end all of them are blocked while the shared queue holds a task whose scheduling call has
      returned. */
  lemma BlockedWithGlobalWork(n: nat, t: Task) returns (steps: seq<Step>)
    ensures Legal(Init(n, {t}, map[]), steps)
    ensures var s := After(Init(n, {t}, map[]), steps);
            && |s.workers| == n && (forall i :: 0 <= i < n ==> Blocked(s.workers[i]))
            && s.injector == [t] && s.pending == map[]
  {
    assert Init(n, {t}, map[]) == SomeParked(n, 0, t);
    steps := ParkRest(n, 0, t);
  }

  lemma {:induction false} ParkRest(n: nat, k: nat, t: Task) returns (steps: seq<Step>)
    requires k <= n
    ensures Legal(SomeParked(n, k, t), steps)
    ensures After(SomeParked(n, k, t), steps) == SomeParked(n, n, t).(injector := [t], outside := {})
    decreases n - k
  {
    var s := SomeParked(n, k, t);
    if k == n {
      steps := Prepend(s, PushGlobal(t), s.(injector := [t], outside := {}), []);
    } else {
      steps := ParkRest(n, k + 1, t);
      ParkOne(n, k, t);
      var w := WorkerState([], [], false, CheckLocal);
      var s1 := SetWorker(s, k, w.(phase := CheckDeque));
      var s2 := SetWorker(s, k, w.(phase := CheckInjector));
      var s3 := SetWorker(s, k, w.(phase := Steal));
      var s4 := SomeParked(n, k + 1, t);
      hide Enabled, Next, Legal, After, SetWorker, SomeParked;
      steps := Prepend(s3, StopStealing(k), s4, steps);
      steps := Prepend(s2, StopStealing(k), s3, steps);
      steps := Prepend(s1, Look(k), s2, steps);
      steps := Prepend(s, Look(k), s1, steps);
    }
  }

  lemma ParkOne(n: nat, k: nat, t: Task)
    requires k < n
    ensures var s := SomeParked(n, k, t);
            var w := WorkerState([], [], false, CheckLocal);
            var s1, s2, s3 := SetWorker(s, k, w.(phase := CheckDeque)), SetWorker(s, k, w.(phase := CheckInjector)),
                              SetWorker(s, k, w.(phase := Steal));
            && Enabled(s, Look(k)) && Next(s, Look(k)) == s1
            && Enabled(s1, Look(k)) && Next(s1, Look(k)) == s2
            && Enabled(s2, StopStealing(k)) && Next(s2, StopStealing(k)) == s3
            && Enabled(s3, StopStealing(k)) && Next(s3, StopStealing(k)) == SomeParked(n, k + 1, t)
  {
    var s := SomeParked(n, k, t);
    var w := WorkerState([], [], false, CheckLocal);
    assert s.workers[k] == w;
    assert SetWorker(s, k, w.(phase := Parked)).workers == SomeParked(n, k + 1, t).workers;
  }

  lemma Prepend(s: State, t: Step, s': State, rest: seq<Step>) returns (steps: seq<Step>)
    requires Enabled(s, t) && Next(s, t) == s' && Legal(s', rest)
    ensures Legal(s, steps) && After(s, steps) == After(s', rest)
  {
    hide Enabled, Next;
    steps := [t] + rest;
    assert steps[1..] == rest;
  }
}
