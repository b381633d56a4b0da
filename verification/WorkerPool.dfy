/**
 The worker pool as a transition system: one dispatcher, any number of workers, submitters and
 resizers, and the winning call of Stop, interleaved at every load, store, lock operation, channel
 operation and condition-variable operation.
 */
module WorkerPool {

  type Task = nat

  const QUEUE_CAPACITY := 10000

  /** Where the dispatcher is; comments say what it does next. */
  datatype DispatcherPc =
    | Select                    // wait for a task or for the context
    | Got(task: Task)           // load stopped
    | WantLock(task: Task)      // lock workerMu
    | Checking(task: Task)      // compare activeCount with maxWorkers
    | Full(task: Task)          // no room was seen: enter the condition's wait list
    | Enrolled(task: Task)      // release workerMu
    | Asleep(task: Task)        // once woken, lock workerMu again
    | AfterWait(task: Task)     // load stopped
    | Passed(task: Task)        // room was seen: load stopped
    | Admitted(task: Task)      // add one to activeCount
    | Counted(task: Task)       // unlock workerMu
    | Spawning(task: Task)      // start the worker
    | Leaving                   // unlock workerMu and return
    | Exited

  /** Where a worker is: running its task, then locking, decrementing, signalling and unlocking. */
  datatype WorkerPc = Running | WantsLock | Locked | Decremented | Signalled | Done

  datatype Worker = Worker(task: Task, pc: WorkerPc)

  datatype Owner = Free | Dispatcher | ByWorker(index: nat)

  datatype SubmitPc = Calling(task: Task) | Checked(task: Task) | Returned(accepted: bool)

  datatype StopPc = NotCalled | Swapped | ContextCancelled | Draining | Stopped

  /** What has happened so far. */
  datatype Log = Log(
    accepted: seq<Task>,      // tasks put in the queue, in order
    started: seq<Task>,       // tasks handed to workers, in order
    discarded: seq<Task>,     // tasks drained by Stop or dropped by the exiting dispatcher
    least: int, most: int,    // the least and the greatest limit ever set, the greatest at least 0
    startedAtStop: nat)       // how many tasks were started when stopped became 1

  /** The pool's variables and every thread's position. */
  datatype State = State(
    max: int, active: int, queue: seq<Task>, stopped: bool, cancelled: bool,
    lock: Owner, dispatcher: DispatcherPc, woken: bool, workers: seq<Worker>,
    submits: seq<SubmitPc>, resizes: nat, stop: StopPc, log: Log)

  // ---------- the pool's steps ----------

  datatype DispatcherStep =
    | SeeCancelled | Receive | LoadStopped | Lock | Compare | Enrol | Sleep | WakeUp
    | LoadAfterWait | LoadBeforeStart | Count | Unlock | Spawn | Leave

  datatype WorkerStep = Finish | WorkerLock | Decrement | Signal | WorkerUnlock

  datatype ClientStep =
    | SubmitCall(task: Task) | SubmitCheck(i: nat) | Enqueue(i: nat) | SubmitCancelled(i: nat)
    | ResizeStore(size: int) | ResizeBroadcast
    | StopSwap | StopCancel | StopBroadcast | Drain | StopReturn

  datatype Step = ByDispatcher(d: DispatcherStep) | ByWorkerAt(i: nat, w: WorkerStep) | ByClient(c: ClientStep)

  /** Go's conversion of a 64-bit int to int32. */
  function Int32(n: int): (r: int)
    ensures -0x8000_0000 <= r <= 0x7FFF_FFFF
  {
    (n + 0x8000_0000) % 0x1_0000_0000 - 0x8000_0000
  }

  /** The limit New and Resize store for a requested size. */
  function Limit(size: int): int {
    Int32(if size <= 0 then 1 else size)
  }

  /** A size below one counts as one; above 2^31 - 1 it wraps. */
  lemma LimitTold(size: int)
    ensures size <= 0 ==> Limit(size) == 1
    ensures 1 <= size <= 0x7FFF_FFFF ==> Limit(size) == size
    ensures 0x8000_0000 <= size <= 0xFFFF_FFFF ==> Limit(size) == size - 0x1_0000_0000
  {
  }

  function New(size: int): State {
    var limit := Limit(size);
    State(limit, 0, [], false, false, Free, Select, false, [], [], 0, NotCalled,
          Log([], [], [], limit, if limit > 0 then limit else 0, 0))
  }

  predicate DispatcherEnabled(s: State, step: DispatcherStep) {
    match step
    case SeeCancelled => s.dispatcher.Select? && s.cancelled
    case Receive => s.dispatcher.Select? && s.queue != []
    case LoadStopped => s.dispatcher.Got?
    case Lock => s.dispatcher.WantLock? && s.lock == Free
    case Compare => s.dispatcher.Checking?
    case Enrol => s.dispatcher.Full?
    case Sleep => s.dispatcher.Enrolled?
    case WakeUp => s.dispatcher.Asleep? && s.woken && s.lock == Free
    case LoadAfterWait => s.dispatcher.AfterWait?
    case LoadBeforeStart => s.dispatcher.Passed?
    case Count => s.dispatcher.Admitted?
    case Unlock => s.dispatcher.Counted?
    case Spawn => s.dispatcher.Spawning?
    case Leave => s.dispatcher.Leaving?
  }

  function DispatcherApply(s: State, step: DispatcherStep): State
    requires DispatcherEnabled(s, step)
  {
    match step
    case SeeCancelled => s.(dispatcher := Exited)
    case Receive => s.(dispatcher := Got(s.queue[0]), queue := s.queue[1..])
    case LoadStopped => if s.stopped then DropTask(s, Exited) else s.(dispatcher := WantLock(s.dispatcher.task))
    case Lock => s.(dispatcher := Checking(s.dispatcher.task), lock := Dispatcher)
    case Compare =>
      s.(dispatcher := if s.active >= s.max then Full(s.dispatcher.task) else Passed(s.dispatcher.task))
    case Enrol => s.(dispatcher := Enrolled(s.dispatcher.task), woken := false)
    case Sleep => s.(dispatcher := Asleep(s.dispatcher.task), lock := Free)
    case WakeUp => s.(dispatcher := AfterWait(s.dispatcher.task), lock := Dispatcher)
    case LoadAfterWait => if s.stopped then DropTask(s, Leaving) else s.(dispatcher := Checking(s.dispatcher.task))
    case LoadBeforeStart => if s.stopped then DropTask(s, Leaving) else s.(dispatcher := Admitted(s.dispatcher.task))
    case Count => s.(dispatcher := Counted(s.dispatcher.task), active := s.active + 1)
    case Unlock => s.(dispatcher := Spawning(s.dispatcher.task), lock := Free)
    case Spawn =>
      s.(dispatcher := Select, workers := s.workers + [Worker(s.dispatcher.task, Running)],
         log := s.log.(started := s.log.started + [s.dispatcher.task]))
    case Leave => s.(dispatcher := Exited, lock := Free)
  }

  function DropTask(s: State, pc: DispatcherPc): State
    requires s.dispatcher.Got? || s.dispatcher.AfterWait? || s.dispatcher.Passed?
  {
    s.(dispatcher := pc, log := s.log.(discarded := s.log.discarded + [s.dispatcher.task]))
  }

  predicate WorkerEnabled(s: State, i: nat, step: WorkerStep) {
    && i < |s.workers|
    && match step
       case Finish => s.workers[i].pc.Running?
       case WorkerLock => s.workers[i].pc.WantsLock? && s.lock == Free
       case Decrement => s.workers[i].pc.Locked?
       case Signal => s.workers[i].pc.Decremented?
       case WorkerUnlock => s.workers[i].pc.Signalled?
  }

  function NextPc(step: WorkerStep): WorkerPc {
    match step
    case Finish => WantsLock
    case WorkerLock => Locked
    case Decrement => Decremented
    case Signal => Signalled
    case WorkerUnlock => Done
  }

  function WorkerApply(s: State, i: nat, step: WorkerStep): State
    requires WorkerEnabled(s, i, step)
  {
    var moved := s.(workers := s.workers[i := s.workers[i].(pc := NextPc(step))]);
    match step
    case Finish => moved
    case WorkerLock => moved.(lock := ByWorker(i))
    case Decrement => moved.(active := s.active - 1)
    case Signal => Notify(moved)
    case WorkerUnlock => moved.(lock := Free)
  }

  predicate OnWaitList(pc: DispatcherPc) {
    pc.Enrolled? || pc.Asleep?
  }

  /** A wake-up reaches the dispatcher only while it is on the wait list. */
  function Notify(s: State): State {
    if OnWaitList(s.dispatcher) then s.(woken := true) else s
  }

  predicate ClientEnabled(s: State, step: ClientStep) {
    match step
    case SubmitCall(_) => true
    case SubmitCheck(i) => i < |s.submits| && s.submits[i].Calling?
    case Enqueue(i) => i < |s.submits| && s.submits[i].Checked? && |s.queue| < QUEUE_CAPACITY
    case SubmitCancelled(i) => i < |s.submits| && s.submits[i].Checked? && s.cancelled
    case ResizeStore(_) => true
    case ResizeBroadcast => s.resizes > 0
    case StopSwap => s.stop == NotCalled
    case StopCancel => s.stop == Swapped
    case StopBroadcast => s.stop == ContextCancelled
    case Drain => s.stop == Draining && s.queue != []
    case StopReturn => s.stop == Draining && s.queue == []
  }

  function ClientApply(s: State, step: ClientStep): State
    requires ClientEnabled(s, step)
  {
    match step
    case SubmitCall(task) => s.(submits := s.submits + [Calling(task)])
    case SubmitCheck(i) =>
      s.(submits := s.submits[i := if s.stopped then Returned(false) else Checked(s.submits[i].task)])
    case Enqueue(i) =>
      var task := s.submits[i].task;
      s.(submits := s.submits[i := Returned(true)], queue := s.queue + [task],
         log := s.log.(accepted := s.log.accepted + [task]))
    case SubmitCancelled(i) => s.(submits := s.submits[i := Returned(false)])
    case ResizeStore(size) =>
      var limit := Limit(size);
      s.(max := limit, resizes := s.resizes + 1,
         log := s.log.(least := if limit < s.log.least then limit else s.log.least,
                       most := if limit > s.log.most then limit else s.log.most))
    case ResizeBroadcast => Notify(s).(resizes := s.resizes - 1)
    case StopSwap => s.(stop := Swapped, stopped := true, log := s.log.(startedAtStop := |s.log.started|))
    case StopCancel => s.(stop := ContextCancelled, cancelled := true)
    case StopBroadcast => Notify(s).(stop := Draining)
    case Drain => s.(queue := s.queue[1..], log := s.log.(discarded := s.log.discarded + [s.queue[0]]))
    case StopReturn => s.(stop := Stopped)
  }

  predicate Enabled(s: State, step: Step) {
    match step
    case ByDispatcher(d) => DispatcherEnabled(s, d)
    case ByWorkerAt(i, w) => WorkerEnabled(s, i, w)
    case ByClient(c) => ClientEnabled(s, c)
  }

  function Apply(s: State, step: Step): State
    requires Enabled(s, step)
  {
    match step
    case ByDispatcher(d) => DispatcherApply(s, d)
    case ByWorkerAt(i, w) => WorkerApply(s, i, w)
    case ByClient(c) => ClientApply(s, c)
  }

  /** The steps lead from s to t. */
  ghost predicate Leads(s: State, steps: seq<Step>, t: State)
    decreases |steps|
  {
    if steps == [] then s == t
    else Enabled(s, steps[0]) && Leads(Apply(s, steps[0]), steps[1..], t)
  }

  // ---------- who holds the lock ----------

  predicate DispatcherHolds(pc: DispatcherPc) {
    || pc.Checking? || pc.Full? || pc.Enrolled? || pc.AfterWait?
    || pc.Passed? || pc.Admitted? || pc.Counted? || pc.Leaving?
  }

  predicate WorkerHolds(pc: WorkerPc) {
    pc.Locked? || pc.Decremented? || pc.Signalled?
  }

  ghost predicate LockInv(s: State) {
    && (s.lock == Dispatcher <==> DispatcherHolds(s.dispatcher))
    && (s.lock.ByWorker? ==> s.lock.index < |s.workers|)
    && forall i :: 0 <= i < |s.workers| ==> (s.lock == ByWorker(i) <==> WorkerHolds(s.workers[i].pc))
  }

  lemma LockKeptByDispatcher(s: State, step: DispatcherStep)
    requires LockInv(s) && DispatcherEnabled(s, step)
    ensures LockInv(DispatcherApply(s, step))
  {
  }

  lemma LockKeptByWorker(s: State, i: nat, step: WorkerStep)
    requires LockInv(s) && WorkerEnabled(s, i, step)
    ensures LockInv(WorkerApply(s, i, step))
  {
  }

  lemma LockKeptByClient(s: State, step: ClientStep)
    requires LockInv(s) && ClientEnabled(s, step)
    ensures LockInv(ClientApply(s, step))
  {
  }

  // ---------- what activeCount counts ----------

  predicate IsLive(pc: WorkerPc) {
    pc.Running? || pc.WantsLock? || pc.Locked?
  }

  /** Workers that activeCount still counts. */
  function Live(workers: seq<Worker>): nat {
    if workers == [] then 0
    else Live(workers[..|workers| - 1]) + if IsLive(workers[|workers| - 1].pc) then 1 else 0
  }

  lemma {:induction false} LiveAfterMove(workers: seq<Worker>, i: nat, pc: WorkerPc)
    requires i < |workers|
    ensures Live(workers[i := workers[i].(pc := pc)])
         == Live(workers) - (if IsLive(workers[i].pc) then 1 else 0) + (if IsLive(pc) then 1 else 0)
  {
    var last := |workers| - 1;
    var moved := workers[i := workers[i].(pc := pc)];
    if i < last {
      LiveAfterMove(workers[..last], i, pc);
      assert moved[..last] == workers[..last][i := workers[i].(pc := pc)];
    } else {
      assert moved[..last] == workers[..last];
    }
  }

  lemma LiveAfterSpawn(workers: seq<Worker>, w: Worker)
    ensures Live(workers + [w]) == Live(workers) + if IsLive(w.pc) then 1 else 0
  {
    assert (workers + [w])[..|workers|] == workers;
  }

  function Reserved(pc: DispatcherPc): nat {
    if pc.Counted? || pc.Spawning? then 1 else 0
  }

  ghost predicate CountInv(s: State) {
    s.active == Live(s.workers) + Reserved(s.dispatcher)
  }

  lemma CountKeptByDispatcher(s: State, step: DispatcherStep)
    requires CountInv(s) && DispatcherEnabled(s, step)
    ensures CountInv(DispatcherApply(s, step))
  {
    hide Live;
    if step.Spawn? {
      LiveAfterSpawn(s.workers, Worker(s.dispatcher.task, Running));
    }
  }

  lemma CountKeptByWorker(s: State, i: nat, step: WorkerStep)
    requires CountInv(s) && WorkerEnabled(s, i, step)
    ensures CountInv(WorkerApply(s, i, step))
  {
    hide Live;
    LiveAfterMove(s.workers, i, NextPc(step));
  }

  lemma CountKeptByClient(s: State, step: ClientStep)
    requires CountInv(s) && ClientEnabled(s, step)
    ensures CountInv(ClientApply(s, step))
  {
    hide Live;
  }

  // ---------- sleeping ----------

  predicate Due(pc: WorkerPc) {
    IsLive(pc) || pc.Decremented?
  }

  /** Some worker has not signalled yet, and will under the lock. */
  ghost predicate SignalDue(s: State) {
    exists i :: 0 <= i < |s.workers| && Due(s.workers[i].pc)
  }

  lemma {:induction false} LiveWitness(workers: seq<Worker>)
    ensures Live(workers) > 0 ==> exists i :: 0 <= i < |workers| && Due(workers[i].pc)
  {
    if workers != [] {
      var front := workers[..|workers| - 1];
      LiveWitness(front);
      if Live(front) > 0 {
        var i :| 0 <= i < |front| && Due(front[i].pc);
        assert Due(workers[i].pc);
      } else {
        assert IsLive(workers[|workers| - 1].pc) ==> Due(workers[|workers| - 1].pc);
      }
    }
  }

  ghost predicate SleepInv(s: State) {
    && s.log.least <= s.max
    && (s.log.least >= 1 ==>
         && (s.dispatcher.Full? ==> s.active >= 1)
         && (OnWaitList(s.dispatcher) && !s.woken ==> SignalDue(s)))
  }

  lemma SleepKeptByDispatcher(s: State, step: DispatcherStep)
    requires LockInv(s) && CountInv(s) && SleepInv(s) && DispatcherEnabled(s, step)
    ensures SleepInv(DispatcherApply(s, step))
  {
    hide Live;
    LiveWitness(s.workers);
  }

  lemma SleepKeptByWorker(s: State, i: nat, step: WorkerStep)
    requires LockInv(s) && CountInv(s) && SleepInv(s) && WorkerEnabled(s, i, step)
    ensures SleepInv(WorkerApply(s, i, step))
  {
    var t := WorkerApply(s, i, step);
    if s.log.least >= 1 && OnWaitList(s.dispatcher) && !s.woken && !step.Signal? {
      var j :| 0 <= j < |s.workers| && Due(s.workers[j].pc);
      assert Due(t.workers[j].pc);
    }
  }

  lemma SleepKeptByClient(s: State, step: ClientStep)
    requires LockInv(s) && CountInv(s) && SleepInv(s) && ClientEnabled(s, step)
    ensures SleepInv(ClientApply(s, step))
  {
    var t := ClientApply(s, step);
    assert t.workers == s.workers;
  }

  // ---------- limits ----------

  predicate RoomSeen(pc: DispatcherPc) {
    pc.Passed? || pc.Admitted?
  }

  /** activeCount changes only under the lock, so room once seen stays. */
  ghost predicate LimitInv(s: State) {
    s.max <= s.log.most && s.active + (if RoomSeen(s.dispatcher) then 1 else 0) <= s.log.most
  }

  lemma LimitKeptByDispatcher(s: State, step: DispatcherStep)
    requires LockInv(s) && LimitInv(s) && DispatcherEnabled(s, step)
    ensures LimitInv(DispatcherApply(s, step))
  {
  }

  lemma LimitKeptByWorker(s: State, i: nat, step: WorkerStep)
    requires LockInv(s) && LimitInv(s) && WorkerEnabled(s, i, step)
    ensures LimitInv(WorkerApply(s, i, step))
  {
  }

  lemma LimitKeptByClient(s: State, step: ClientStep)
    requires LockInv(s) && LimitInv(s) && ClientEnabled(s, step)
    ensures LimitInv(ClientApply(s, step))
  {
  }

  // ---------- the flow of tasks ----------

  function InHand(pc: DispatcherPc): seq<Task> {
    if pc.Select? || pc.Leaving? || pc.Exited? then [] else [pc.task]
  }

  /** Past its last look at stopped, the dispatcher will start the task it holds. */
  predicate Committed(pc: DispatcherPc) {
    pc.Admitted? || pc.Counted? || pc.Spawning?
  }

  /** Until Stop, started, held and queued tasks are the accepted ones in order. */
  ghost predicate OrderInv(s: State) {
    && |s.queue| <= QUEUE_CAPACITY
    && (!s.stopped ==> s.log.discarded == [] && s.log.started + InHand(s.dispatcher) + s.queue == s.log.accepted)
  }

  lemma OrderKeptByDispatcher(s: State, step: DispatcherStep)
    requires OrderInv(s) && StopInv(s) && DispatcherEnabled(s, step)
    ensures OrderInv(DispatcherApply(s, step))
  {
    var held := InHand(s.dispatcher);
    if step.Receive? {
      assert s.log.started + [] + s.queue == s.log.started + [s.queue[0]] + s.queue[1..];
    } else if step.Spawn? {
      assert s.log.started + held + s.queue == (s.log.started + held) + [] + s.queue;
    }
  }

  lemma OrderKeptByWorker(s: State, i: nat, step: WorkerStep)
    requires OrderInv(s) && StopInv(s) && WorkerEnabled(s, i, step)
    ensures OrderInv(WorkerApply(s, i, step))
  {
  }

  lemma OrderKeptByClient(s: State, step: ClientStep)
    requires OrderInv(s) && StopInv(s) && ClientEnabled(s, step)
    ensures OrderInv(ClientApply(s, step))
  {
  }

  function Times(q: seq<Task>, task: Task): nat {
    multiset(q)[task]
  }

  /** At all times every accepted task is started, held, queued or discarded, once. */
  ghost predicate AccountInv(s: State) {
    forall x :: Times(s.log.accepted, x) ==
      Times(s.log.started, x) + Times(InHand(s.dispatcher), x) + Times(s.queue, x) + Times(s.log.discarded, x)
  }

  lemma HeadCounts(q: seq<Task>)
    requires q != []
    ensures forall x :: Times(q, x) == (if x == q[0] then 1 else 0) + Times(q[1..], x)
  {
    assert q == [q[0]] + q[1..];
  }

  lemma EndCounts(q: seq<Task>, task: Task)
    ensures forall x :: Times(q + [task], x) == Times(q, x) + if x == task then 1 else 0
  {
  }

  lemma HandCounts(pc: DispatcherPc)
    ensures forall x :: Times(InHand(pc), x) == (if !pc.Select? && !pc.Leaving? && !pc.Exited? && x == pc.task then 1 else 0)
  {
  }

  lemma AccountKeptByDispatcher(s: State, step: DispatcherStep)
    requires AccountInv(s) && DispatcherEnabled(s, step)
    ensures AccountInv(DispatcherApply(s, step))
  {
    hide Times, InHand;
    HandCounts(s.dispatcher);
    HandCounts(DispatcherApply(s, step).dispatcher);
    match step
    case Receive => HeadCounts(s.queue);
    case Spawn => EndCounts(s.log.started, s.dispatcher.task);
    case LoadStopped => EndCounts(s.log.discarded, s.dispatcher.task);
    case LoadAfterWait => EndCounts(s.log.discarded, s.dispatcher.task);
    case LoadBeforeStart => EndCounts(s.log.discarded, s.dispatcher.task);
    case _ =>
  }

  lemma AccountKeptByWorker(s: State, i: nat, step: WorkerStep)
    requires AccountInv(s) && WorkerEnabled(s, i, step)
    ensures AccountInv(WorkerApply(s, i, step))
  {
  }

  lemma AccountKeptByClient(s: State, step: ClientStep)
    requires AccountInv(s) && ClientEnabled(s, step)
    ensures AccountInv(ClientApply(s, step))
  {
    hide Times, InHand;
    match step
    case Drain =>
      HeadCounts(s.queue);
      EndCounts(s.log.discarded, s.queue[0]);
    case Enqueue(i) =>
      EndCounts(s.queue, s.submits[i].task);
      EndCounts(s.log.accepted, s.submits[i].task);
    case _ =>
  }

  /** Starting stops with at most one more task, and what is started is always what came first. */
  ghost predicate StopInv(s: State) {
    && (s.cancelled ==> s.stopped)
    && (s.stopped <==> s.stop != NotCalled)
    && (s.dispatcher.Leaving? || s.dispatcher.Exited? ==> s.stopped)
    && s.log.started <= s.log.accepted
    && (Committed(s.dispatcher) ==> s.log.started + InHand(s.dispatcher) <= s.log.accepted)
    && (s.stopped ==> |s.log.started| + (if Committed(s.dispatcher) then 1 else 0) <= s.log.startedAtStop + 1)
  }

  lemma StopKeptByDispatcher(s: State, step: DispatcherStep)
    requires OrderInv(s) && StopInv(s) && DispatcherEnabled(s, step)
    ensures StopInv(DispatcherApply(s, step))
  {
  }

  lemma StopKeptByWorker(s: State, i: nat, step: WorkerStep)
    requires OrderInv(s) && StopInv(s) && WorkerEnabled(s, i, step)
    ensures StopInv(WorkerApply(s, i, step))
  {
  }

  lemma StopKeptByClient(s: State, step: ClientStep)
    requires OrderInv(s) && StopInv(s) && ClientEnabled(s, step)
    ensures StopInv(ClientApply(s, step))
  {
  }


  // ---------- every reachable state ----------

  ghost predicate Inv(s: State) {
    LockInv(s) && CountInv(s) && SleepInv(s) && LimitInv(s) && OrderInv(s) && AccountInv(s) && StopInv(s)
  }

  lemma InvKept(s: State, step: Step)
    requires Inv(s) && Enabled(s, step)
    ensures Inv(Apply(s, step))
  {
    hide LockInv, CountInv, SleepInv, LimitInv, OrderInv, AccountInv, StopInv;
    hide DispatcherEnabled, DispatcherApply, WorkerEnabled, WorkerApply, ClientEnabled, ClientApply;
    match step
    case ByDispatcher(d) =>
      LockKeptByDispatcher(s, d); CountKeptByDispatcher(s, d); SleepKeptByDispatcher(s, d); LimitKeptByDispatcher(s, d);
      OrderKeptByDispatcher(s, d); AccountKeptByDispatcher(s, d); StopKeptByDispatcher(s, d);
    case ByWorkerAt(i, w) =>
      LockKeptByWorker(s, i, w); CountKeptByWorker(s, i, w); SleepKeptByWorker(s, i, w); LimitKeptByWorker(s, i, w);
      OrderKeptByWorker(s, i, w); AccountKeptByWorker(s, i, w); StopKeptByWorker(s, i, w);
    case ByClient(c) =>
      LockKeptByClient(s, c); CountKeptByClient(s, c); SleepKeptByClient(s, c); LimitKeptByClient(s, c);
      OrderKeptByClient(s, c); AccountKeptByClient(s, c); StopKeptByClient(s, c);
  }

  lemma InitialInv(size: int)
    ensures Inv(New(size))
  {
  }

  lemma {:induction false} InvHolds(s: State, steps: seq<Step>, t: State)
    requires Inv(s) && Leads(s, steps, t)
    ensures Inv(t)
    decreases |steps|
  {
    hide Inv, Enabled, Apply;
    if steps != [] {
      InvKept(s, steps[0]);
      InvHolds(Apply(s, steps[0]), steps[1..], t);
    }
  }

  ghost predicate Reachable(size: int, s: State) {
    exists steps :: Leads(New(size), steps, s)
  }

  lemma ReachableInv(size: int, s: State)
    requires Reachable(size, s)
    ensures Inv(s)
  {
    var steps :| Leads(New(size), steps, s);
    InitialInv(size);
    InvHolds(New(size), steps, s);
  }

  /**
   Conservation. Until Stop, the started tasks, the one in the dispatcher's hand and the queue are
   the accepted tasks in order. At any time the started tasks are the first accepted ones, so none
   starts twice or out of order; each other accepted task is held, queued or discarded. After Stop
   at most one more task starts.
   */
  lemma TasksConserved(size: int, s: State)
    requires Reachable(size, s)
    ensures !s.stopped ==> s.log.started + InHand(s.dispatcher) + s.queue == s.log.accepted && s.log.discarded == []
    ensures s.log.started <= s.log.accepted
    ensures multiset(s.log.accepted) ==
      multiset(s.log.started) + multiset(InHand(s.dispatcher)) + multiset(s.queue) + multiset(s.log.discarded)
    ensures s.stopped ==> |s.log.started| <= s.log.startedAtStop + 1
  {
    ReachableInv(size, s);
    hide LockInv, CountInv, SleepInv, LimitInv;
    AccountMultiset(s);
  }

  /** The queue holds at most 10000 tasks; a Submit past its check waits exactly while it is full and Stop has not cancelled. */
  lemma QueueBounded(size: int, s: State, i: nat)
    requires Reachable(size, s)
    ensures |s.queue| <= 10000
    ensures i < |s.submits| && s.submits[i].Checked? ==>
      ((|s.queue| == 10000 && !s.cancelled) <==>
       !Enabled(s, ByClient(Enqueue(i))) && !Enabled(s, ByClient(SubmitCancelled(i))))
  {
    ReachableInv(size, s);
    hide LockInv, CountInv, SleepInv, LimitInv, AccountInv;
  }

  /** Stop returns when the pool is stopped and nothing is queued: each accepted task is started, held or discarded. */
  lemma StopDrains(size: int, s: State)
    requires Reachable(size, s) && Enabled(s, ByClient(StopReturn))
    ensures s.stopped && s.cancelled
    ensures multiset(s.log.accepted) ==
      multiset(s.log.started) + multiset(InHand(s.dispatcher)) + multiset(s.log.discarded)
  {
    TasksConserved(size, s);
    ReachableStop(size, s);
  }

  /** Stop sets stopped, then cancels, then broadcasts, then drains. */
  ghost predicate StopOrder(s: State) {
    && (s.stopped <==> !s.stop.NotCalled?)
    && (s.cancelled <==> !s.stop.NotCalled? && !s.stop.Swapped?)
  }

  lemma {:induction false} StopOrderHolds(s: State, steps: seq<Step>, t: State)
    requires StopOrder(s) && Leads(s, steps, t)
    ensures StopOrder(t)
    decreases |steps|
  {
    hide Enabled, Apply, StopOrder;
    if steps != [] {
      StopOrderKept(s, steps[0]);
      StopOrderHolds(Apply(s, steps[0]), steps[1..], t);
    }
  }

  lemma StopOrderKept(s: State, step: Step)
    requires StopOrder(s) && Enabled(s, step)
    ensures StopOrder(Apply(s, step))
  {
    match step
    case ByDispatcher(_) =>
    case ByWorkerAt(_, _) =>
    case ByClient(_) =>
  }

  lemma ReachableStop(size: int, s: State)
    requires Reachable(size, s)
    ensures StopOrder(s)
  {
    var steps :| Leads(New(size), steps, s);
    StopOrderHolds(New(size), steps, s);
  }

  lemma AccountMultiset(s: State)
    requires AccountInv(s)
    ensures multiset(s.log.accepted) ==
      multiset(s.log.started) + multiset(InHand(s.dispatcher)) + multiset(s.queue) + multiset(s.log.discarded)
  {
    forall x
      ensures multiset(s.log.accepted)[x] == (multiset(s.log.started) + multiset(InHand(s.dispatcher))
                                              + multiset(s.queue) + multiset(s.log.discarded))[x]
    {
      assert Times(s.log.accepted, x) == multiset(s.log.accepted)[x];
    }
  }

  /** activeCount counts the running workers and never exceeds the greatest limit ever set. */
  lemma ActiveBounded(size: int, s: State)
    requires Reachable(size, s)
    ensures s.active == Live(s.workers) + Reserved(s.dispatcher)
    ensures s.active <= s.log.most
  {
    ReachableInv(size, s);
    hide LockInv, SleepInv, OrderInv, AccountInv, StopInv;
  }

  predicate NoResize(steps: seq<Step>) {
    forall i :: 0 <= i < |steps| ==> !(steps[i].ByClient? && steps[i].c.ResizeStore?)
  }

  /** What activeCount can still become when the limit stays. */
  function Ceiling(s: State): int {
    var high := s.active + if RoomSeen(s.dispatcher) then 1 else 0;
    if high > s.max then high else s.max
  }

  lemma CeilingKeptByDispatcher(s: State, step: DispatcherStep)
    requires LockInv(s) && DispatcherEnabled(s, step)
    ensures Ceiling(DispatcherApply(s, step)) <= Ceiling(s) && DispatcherApply(s, step).max == s.max
  {
    hide LockInv;
  }

  lemma CeilingKeptByWorker(s: State, i: nat, step: WorkerStep)
    requires LockInv(s) && WorkerEnabled(s, i, step)
    ensures Ceiling(WorkerApply(s, i, step)) <= Ceiling(s) && WorkerApply(s, i, step).max == s.max
  {
  }

  lemma CeilingKeptByClient(s: State, step: ClientStep)
    requires ClientEnabled(s, step) && !step.ResizeStore?
    ensures Ceiling(ClientApply(s, step)) <= Ceiling(s) && ClientApply(s, step).max == s.max
  {
  }

  lemma CeilingKept(s: State, step: Step)
    requires LockInv(s) && Enabled(s, step) && !(step.ByClient? && step.c.ResizeStore?)
    ensures Ceiling(Apply(s, step)) <= Ceiling(s) && Apply(s, step).max == s.max
  {
    hide LockInv, Ceiling, DispatcherEnabled, DispatcherApply, WorkerEnabled, WorkerApply, ClientEnabled, ClientApply;
    match step
    case ByDispatcher(d) => CeilingKeptByDispatcher(s, d);
    case ByWorkerAt(i, w) => CeilingKeptByWorker(s, i, w);
    case ByClient(c) => CeilingKeptByClient(s, c);
  }

  /** After the last Resize, to n, activeCount stays within max(n, active at that moment + 1). */
  lemma {:induction false} ActiveAfterResize(s: State, steps: seq<Step>, t: State)
    requires Inv(s) && Leads(s, steps, t) && NoResize(steps)
    ensures t.active <= (if s.active + 1 > s.max then s.active + 1 else s.max)
    ensures t.active <= Ceiling(t) <= Ceiling(s)
    decreases |steps|
  {
    hide Inv, Enabled, Apply;
    if steps != [] {
      InvKept(s, steps[0]);
      assert LockInv(s) by { LockOfInv(s); }
      CeilingKept(s, steps[0]);
      ActiveAfterResize(Apply(s, steps[0]), steps[1..], t);
    }
  }

  /** The bound counted from the store of the last Resize. */
  lemma LastResize(size: int, s: State, n: int, steps: seq<Step>, t: State)
    requires Reachable(size, s) && NoResize(steps)
    requires Leads(Apply(s, ByClient(ResizeStore(n))), steps, t)
    ensures t.active <= if s.active + 1 > Limit(n) then s.active + 1 else Limit(n)
  {
    ReachableInv(size, s);
    InvKept(s, ByClient(ResizeStore(n)));
    ActiveAfterResize(Apply(s, ByClient(ResizeStore(n))), steps, t);
  }

  lemma LockOfInv(s: State)
    requires Inv(s)
    ensures LockInv(s)
  {
  }

  // ---------- what Submit reports ----------

  /** Submit calls that have returned true. */
  function Accepted(submits: seq<SubmitPc>): nat {
    if submits == [] then 0
    else Accepted(submits[..|submits| - 1]) + if submits[|submits| - 1] == Returned(true) then 1 else 0
  }

  lemma {:induction false} AcceptedAfterMove(submits: seq<SubmitPc>, i: nat, pc: SubmitPc)
    requires i < |submits|
    ensures Accepted(submits[i := pc]) ==
      Accepted(submits) - (if submits[i] == Returned(true) then 1 else 0) + (if pc == Returned(true) then 1 else 0)
  {
    var last := |submits| - 1;
    if i < last {
      AcceptedAfterMove(submits[..last], i, pc);
      assert submits[i := pc][..last] == submits[..last][i := pc];
    } else {
      assert submits[i := pc][..last] == submits[..last];
    }
  }

  lemma AcceptedAfterCall(submits: seq<SubmitPc>, task: Task)
    ensures Accepted(submits + [Calling(task)]) == Accepted(submits)
  {
    assert (submits + [Calling(task)])[..|submits|] == submits;
  }

  lemma AcceptStep(s: State, step: Step)
    requires Enabled(s, step) && Accepted(s.submits) == |s.log.accepted|
    ensures Accepted(Apply(s, step).submits) == |Apply(s, step).log.accepted|
  {
    hide Accepted;
    match step
    case ByDispatcher(_) =>
    case ByWorkerAt(_, _) =>
    case ByClient(c) =>
      match c
      case SubmitCall(task) => AcceptedAfterCall(s.submits, task);
      case SubmitCheck(i) => AcceptedAfterMove(s.submits, i, Apply(s, step).submits[i]);
      case Enqueue(i) => AcceptedAfterMove(s.submits, i, Returned(true));
      case SubmitCancelled(i) => AcceptedAfterMove(s.submits, i, Returned(false));
      case _ =>
  }

  /** Submit returns true exactly once for every task in the queue's history. */
  lemma {:induction false} SubmitReports(s: State, steps: seq<Step>, t: State)
    requires Leads(s, steps, t) && Accepted(s.submits) == |s.log.accepted|
    ensures Accepted(t.submits) == |t.log.accepted|
    decreases |steps|
  {
    hide Enabled, Apply, Accepted;
    if steps != [] {
      AcceptStep(s, steps[0]);
      SubmitReports(Apply(s, steps[0]), steps[1..], t);
    }
  }

  predicate Refusable(s: State, n: nat) {
    s.stopped && n < |s.submits| && (s.submits[n].Calling? || s.submits[n] == Returned(false))
  }

  lemma RefusableKept(s: State, step: Step, n: nat)
    requires Refusable(s, n) && Enabled(s, step)
    ensures Refusable(Apply(s, step), n)
  {
    match step
    case ByDispatcher(_) =>
    case ByWorkerAt(_, _) =>
    case ByClient(_) =>
  }

  /** A Submit that has not looked at stopped by the time the pool is stopped never returns true. */
  lemma {:induction false} LateSubmitRefused(s: State, steps: seq<Step>, t: State, n: nat)
    requires Refusable(s, n) && Leads(s, steps, t)
    ensures Refusable(t, n)
    decreases |steps|
  {
    hide Enabled, Apply, Refusable;
    if steps != [] {
      RefusableKept(s, steps[0], n);
      LateSubmitRefused(Apply(s, steps[0]), steps[1..], t, n);
    }
  }

  // ---------- the dispatcher is never stuck ----------

  /** Asleep, and no thread that is past its last store will wake it. */
  ghost predicate Stuck(s: State) {
    OnWaitList(s.dispatcher) && !s.woken && !SignalDue(s)
  }

  lemma NeverStuck(size: int, s: State)
    requires Reachable(size, s) && s.log.least >= 1
    ensures !Stuck(s)
  {
    ReachableInv(size, s);
    hide LockInv, CountInv, LimitInv, OrderInv, AccountInv, StopInv;
  }

  predicate Internal(step: Step) {
    !step.ByClient?
  }

  /** Nothing the pool itself could do: no task at hand, or it has returned. */
  predicate Resting(s: State) {
    s.dispatcher.Exited? || (s.dispatcher.Select? && s.queue == [] && !s.cancelled)
  }

  /** As long as there is something to do, the dispatcher or a worker can take a step. */
  lemma PoolProgress(size: int, s: State)
    requires Reachable(size, s) && s.log.least >= 1 && !Resting(s)
    ensures exists step :: Internal(step) && Enabled(s, step)
  {
    NeverStuck(size, s);
    ReachableInv(size, s);
    if s.lock.ByWorker? {
      var i := s.lock.index;
      var w := if s.workers[i].pc.Locked? then Decrement else if s.workers[i].pc.Decremented? then Signal else WorkerUnlock;
      assert Enabled(s, ByWorkerAt(i, w));
    } else if OnWaitList(s.dispatcher) && !s.woken && s.dispatcher.Asleep? {
      var i :| 0 <= i < |s.workers| && Due(s.workers[i].pc);
      var w := if s.workers[i].pc.Running? then Finish else WorkerLock;
      assert Enabled(s, ByWorkerAt(i, w));
    } else {
      assert Enabled(s, ByDispatcher(NextDispatcherStep(s)));
    }
  }

  function NextDispatcherStep(s: State): DispatcherStep {
    match s.dispatcher
    case Select => if s.cancelled then SeeCancelled else Receive
    case Got(_) => LoadStopped
    case WantLock(_) => Lock
    case Checking(_) => Compare
    case Full(_) => Enrol
    case Enrolled(_) => Sleep
    case Asleep(_) => WakeUp
    case AfterWait(_) => LoadAfterWait
    case Passed(_) => LoadBeforeStart
    case Admitted(_) => Count
    case Counted(_) => Unlock
    case Spawning(_) => Spawn
    case Leaving => Leave
    case Exited => Leave
  }

  /** Steps the workers still have before them. */
  function Remaining(workers: seq<Worker>): nat {
    if workers == [] then 0
    else Remaining(workers[..|workers| - 1]) + StepsLeft(workers[|workers| - 1].pc)
  }

  function StepsLeft(pc: WorkerPc): nat {
    match pc
    case Running => 5
    case WantsLock => 4
    case Locked => 3
    case Decremented => 2
    case Signalled => 1
    case Done => 0
  }

  lemma {:induction false} RemainingAfterMove(workers: seq<Worker>, i: nat, pc: WorkerPc)
    requires i < |workers|
    ensures Remaining(workers[i := workers[i].(pc := pc)]) == Remaining(workers) - StepsLeft(workers[i].pc) + StepsLeft(pc)
  {
    var last := |workers| - 1;
    var moved := workers[i := workers[i].(pc := pc)];
    if i < last {
      RemainingAfterMove(workers[..last], i, pc);
      assert moved[..last] == workers[..last][i := workers[i].(pc := pc)];
    } else {
      assert moved[..last] == workers[..last];
    }
  }

  /**
   While the dispatcher sleeps with no wake-up pending, a worker can always step, every worker step
   uses up one of the finitely many that remain, and nothing gives new ones: it cannot sleep on.
   */
  lemma SleepEnds(size: int, s: State)
    requires Reachable(size, s) && s.log.least >= 1 && s.dispatcher.Asleep? && !s.woken
    ensures exists i, w :: WorkerEnabled(s, i, w)
    ensures forall step | Enabled(s, step) ::
      Remaining(Apply(s, step).workers) == Remaining(s.workers) - if step.ByWorkerAt? then 1 else 0
    ensures forall step | Enabled(s, step) :: Apply(s, step).dispatcher == s.dispatcher
  {
    PoolProgress(size, s);
    hide Reachable, Remaining, WorkerApply, ClientApply;
    var step0 :| Internal(step0) && Enabled(s, step0);
    assert step0.ByWorkerAt?;
    assert WorkerEnabled(s, step0.i, step0.w);
    forall step | Enabled(s, step)
      ensures Remaining(Apply(s, step).workers) == Remaining(s.workers) - if step.ByWorkerAt? then 1 else 0
      ensures Apply(s, step).dispatcher == s.dispatcher
    {
      if step.ByWorkerAt? {
        WorkerStepUsed(s, step.i, step.w);
      } else {
        assert step.ByClient?;
        ClientsApart(s, step.c);
      }
    }
  }

  lemma WorkerStepUsed(s: State, i: nat, step: WorkerStep)
    requires WorkerEnabled(s, i, step)
    ensures Remaining(WorkerApply(s, i, step).workers) == Remaining(s.workers) - 1
    ensures WorkerApply(s, i, step).dispatcher == s.dispatcher
  {
    hide Remaining;
    RemainingAfterMove(s.workers, i, NextPc(step));
  }

  lemma ClientsApart(s: State, step: ClientStep)
    requires ClientEnabled(s, step)
    ensures ClientApply(s, step).workers == s.workers && ClientApply(s, step).dispatcher == s.dispatcher
  {
  }

  // ---------- the pool comes to rest ----------

  /** What the dispatcher can still do from its position with the task it holds. */
  function DispatcherSteps(pc: DispatcherPc, woken: bool): nat {
    match pc
    case Select => 1
    case Got(_) => 290
    case WantLock(_) => 286
    case Checking(_) => 280
    case Full(_) => 275
    case Enrolled(_) => if woken then 294 else 274
    case Asleep(_) => if woken then 293 else 273
    case AfterWait(_) => 285
    case Passed(_) => 270
    case Admitted(_) => 265
    case Counted(_) => 260
    case Spawning(_) => 255
    case Leaving => 1
    case Exited => 0
  }

  /** A bound on the steps the dispatcher and the workers can take before a client does something. */
  function StepsToRest(s: State): nat {
    300 * |s.queue| + DispatcherSteps(s.dispatcher, s.woken) + 25 * Remaining(s.workers)
  }

  lemma RemainingAfterSpawn(workers: seq<Worker>, w: Worker)
    ensures Remaining(workers + [w]) == Remaining(workers) + StepsLeft(w.pc)
  {
    assert (workers + [w])[..|workers|] == workers;
  }

  /** Every step of the dispatcher or of a worker uses up some of the bound. */
  lemma StepsRunOut(s: State, step: Step)
    requires Internal(step) && Enabled(s, step)
    ensures StepsToRest(Apply(s, step)) < StepsToRest(s)
  {
    match step
    case ByDispatcher(d) => DispatcherUses(s, d);
    case ByWorkerAt(i, w) => WorkerUses(s, i, w);
  }

  lemma DispatcherUses(s: State, step: DispatcherStep)
    requires DispatcherEnabled(s, step)
    ensures StepsToRest(DispatcherApply(s, step)) < StepsToRest(s)
  {
    hide Remaining;
    if step.Spawn? {
      RemainingAfterSpawn(s.workers, Worker(s.dispatcher.task, Running));
    }
  }

  lemma WorkerUses(s: State, i: nat, step: WorkerStep)
    requires WorkerEnabled(s, i, step)
    ensures StepsToRest(WorkerApply(s, i, step)) < StepsToRest(s)
  {
    hide Remaining;
    RemainingAfterMove(s.workers, i, NextPc(step));
  }

  /**
   When neither the dispatcher nor a worker can move, every worker has finished, and the pool is
   empty or stopped: until Stop every accepted task has been started, in order, and has ended.
   */
  lemma RestMeansDone(size: int, s: State)
    requires Reachable(size, s) && s.log.least >= 1
    requires forall step :: Internal(step) ==> !Enabled(s, step)
    ensures Resting(s) && s.active == 0
    ensures forall i :: 0 <= i < |s.workers| ==> s.workers[i].pc == Done
    ensures !s.stopped ==> s.log.started == s.log.accepted && s.queue == []
  {
    if !Resting(s) {
      PoolProgress(size, s);
    }
    ReachableInv(size, s);
    TasksConserved(size, s);
    ReachableStop(size, s);
    hide SleepInv, LimitInv, OrderInv, AccountInv, StopInv, Live, Reachable;
    forall i: nat | i < |s.workers|
      ensures s.workers[i].pc == Done
    {
      if s.workers[i].pc != Done {
        WorkerCanMove(s, i);
      }
    }
    NoneLive(s.workers);
  }

  /** With the dispatcher at rest an unfinished worker can move, or the one that holds the lock can. */
  lemma WorkerCanMove(s: State, i: nat)
    requires LockInv(s) && Resting(s) && i < |s.workers| && s.workers[i].pc != Done
    ensures exists step :: Internal(step) && Enabled(s, step)
  {
    var j := if s.lock.ByWorker? then s.lock.index else i;
    assert s.lock != Dispatcher;
    assert WorkerHolds(s.workers[i].pc) ==> s.lock == ByWorker(i);
    var w := match s.workers[j].pc
      case Running => Finish
      case WantsLock => WorkerLock
      case Locked => Decrement
      case Decremented => Signal
      case _ => WorkerUnlock;
    assert Internal(ByWorkerAt(j, w)) && Enabled(s, ByWorkerAt(j, w));
  }

  lemma {:induction false} NoneLive(workers: seq<Worker>)
    requires forall i :: 0 <= i < |workers| ==> workers[i].pc == Done
    ensures Live(workers) == 0
  {
    if workers != [] {
      NoneLive(workers[..|workers| - 1]);
    }
  }

  /** Wherever the dispatcher looks at stopped and finds it set, it drops its task and leaves. */
  lemma StoppedIsSeen(s: State, step: DispatcherStep)
    requires DispatcherEnabled(s, step) && s.stopped && (step.LoadStopped? || step.LoadAfterWait? || step.LoadBeforeStart?)
    ensures var t := DispatcherApply(s, step);
      && (if s.dispatcher.Got? then t.dispatcher.Exited? else t.dispatcher.Leaving?)
      && t.log == s.log.(discarded := s.log.discarded + [s.dispatcher.task]) && t.workers == s.workers
  {
  }

  // ---------- where the promise ends ----------

  /** Every Resize of the run asks for one of these sizes. */
  ghost predicate ResizesWithin(steps: seq<Step>, sizes: iset<int>) {
    forall i :: 0 <= i < |steps| && steps[i].ByClient? && steps[i].c.ResizeStore? ==> steps[i].c.size in sizes
  }

  lemma {:induction false} LeastKept(s: State, steps: seq<Step>, t: State, sizes: iset<int>)
    requires Leads(s, steps, t) && ResizesWithin(steps, sizes)
    requires s.log.least >= 1 && forall n <- sizes :: Limit(n) >= 1
    ensures t.log.least >= 1
    decreases |steps|
  {
    hide Limit;
    if steps != [] {
      LeastKept(Apply(s, steps[0]), steps[1..], t, sizes);
    }
  }

  lemma LeadsFrom(s: State, step: Step, rest: seq<Step>, t: State)
    requires Enabled(s, step) && Leads(Apply(s, step), rest, t)
    ensures Leads(s, [step] + rest, t)
  {
    assert ([step] + rest)[1..] == rest;
  }

  lemma {:induction false} LeadsThrough(s: State, a: seq<Step>, t: State, b: seq<Step>, u: State)
    requires Leads(s, a, t) && Leads(t, b, u)
    ensures Leads(s, a + b, u)
    decreases |a|
  {
    hide Enabled, Apply;
    if a == [] {
      assert a + b == b;
    } else {
      LeadsThrough(Apply(s, a[0]), a[1..], t, b, u);
      assert (a + b)[1..] == a[1..] + b;
    }
  }

  /** Submitting one task to a pool with an empty queue. */
  function SubmitRun(n: nat, task: Task): seq<Step> {
    [ByClient(SubmitCall(task))] + ([ByClient(SubmitCheck(n))] + ([ByClient(Enqueue(n))] + []))
  }

  function Submitted(s: State, task: Task): State {
    s.(submits := s.submits + [Returned(true)], queue := [task], log := s.log.(accepted := s.log.accepted + [task]))
  }

  lemma SubmitLeads(s: State, task: Task)
    requires s.queue == [] && !s.stopped
    ensures Leads(s, SubmitRun(|s.submits|, task), Submitted(s, task))
  {
    var n := |s.submits|;
    var s1 := ClientApply(s, SubmitCall(task));
    var s2 := ClientApply(s1, SubmitCheck(n));
    var s3 := ClientApply(s2, Enqueue(n));
    assert s3 == Submitted(s, task) by {
      assert s3.submits == s.submits + [Returned(true)];
    }
    LeadsFrom(s2, ByClient(Enqueue(n)), [], s3);
    LeadsFrom(s1, ByClient(SubmitCheck(n)), [ByClient(Enqueue(n))] + [], s3);
    LeadsFrom(s, ByClient(SubmitCall(task)), [ByClient(SubmitCheck(n))] + ([ByClient(Enqueue(n))] + []), s3);
  }

  /** The steps of Stop with n tasks to drain. */
  function StopRun(n: nat): seq<Step> {
    [ByClient(StopSwap)] + ([ByClient(StopCancel)] + ([ByClient(StopBroadcast)] + DrainRun(n)))
  }

  function DrainRun(n: nat): seq<Step> {
    if n == 0 then [ByClient(StopReturn)] + [] else [ByClient(Drain)] + DrainRun(n - 1)
  }

  lemma {:induction false} DrainLeads(s: State)
    requires s.stop == Draining
    ensures Leads(s, DrainRun(|s.queue|),
                  s.(stop := Stopped, queue := [], log := s.log.(discarded := s.log.discarded + s.queue)))
    decreases |s.queue|
  {
    hide Leads;
    if s.queue == [] {
      var t := ClientApply(s, StopReturn);
      assert s.log.discarded + s.queue == s.log.discarded;
      StandingStill(t, iset{});
      LeadsFrom(s, ByClient(StopReturn), [], t);
    } else {
      var t := ClientApply(s, Drain);
      DrainLeads(t);
      assert t.log.discarded + t.queue == s.log.discarded + s.queue by {
        assert s.queue == [s.queue[0]] + s.queue[1..];
      }
      LeadsFrom(s, ByClient(Drain), DrainRun(|t.queue|),
                s.(stop := Stopped, queue := [], log := s.log.(discarded := s.log.discarded + s.queue)));
    }
  }

  /** Stop alone: it stops and cancels the pool, wakes the dispatcher, drains the queue and returns. */
  lemma StopAlone(s: State)
    requires s.stop == NotCalled
    ensures Leads(s, StopRun(|s.queue|),
      Notify(s).(stop := Stopped, stopped := true, cancelled := true, queue := [],
                 log := s.log.(startedAtStop := |s.log.started|, discarded := s.log.discarded + s.queue)))
  {
    hide Leads, DrainRun;
    var s1 := ClientApply(s, StopSwap);
    var s2 := ClientApply(s1, StopCancel);
    var s3 := ClientApply(s2, StopBroadcast);
    DrainLeads(s3);
    var t := s3.(stop := Stopped, queue := [], log := s3.log.(discarded := s3.log.discarded + s3.queue));
    LeadsFrom(s2, ByClient(StopBroadcast), DrainRun(|s.queue|), t);
    LeadsFrom(s1, ByClient(StopCancel), [ByClient(StopBroadcast)] + DrainRun(|s.queue|), t);
    LeadsFrom(s, ByClient(StopSwap), [ByClient(StopCancel)] + ([ByClient(StopBroadcast)] + DrainRun(|s.queue|)), t);
  }

  /** How a Submit goes on: refused by a stopped pool, and by a cancelled one; else its task is queued last. */
  lemma SubmitGoes(s: State, i: nat)
    requires i < |s.submits|
    ensures Enabled(s, ByClient(SubmitCheck(i))) ==>
      Apply(s, ByClient(SubmitCheck(i))) ==
        s.(submits := s.submits[i := if s.stopped then Returned(false) else Checked(s.submits[i].task)])
    ensures Enabled(s, ByClient(SubmitCancelled(i))) ==>
      Apply(s, ByClient(SubmitCancelled(i))) == s.(submits := s.submits[i := Returned(false)])
    ensures Enabled(s, ByClient(Enqueue(i))) ==>
      var t := Apply(s, ByClient(Enqueue(i)));
      t.submits == s.submits[i := Returned(true)] && t.queue == s.queue + [s.submits[i].task]
  {
  }

  /** The dispatcher takes the queued task and looks for room. */
  function TakeRun(): seq<Step> {
    [ByDispatcher(Receive)] + ([ByDispatcher(LoadStopped)] + ([ByDispatcher(Lock)] + ([ByDispatcher(Compare)] + [])))
  }

  lemma TakeLeads(s: State)
    requires s.dispatcher == Select && |s.queue| == 1 && s.lock == Free && !s.stopped
    ensures Leads(s, TakeRun(), s.(dispatcher := if s.active >= s.max then Full(s.queue[0]) else Passed(s.queue[0]),
                                   queue := [], lock := Dispatcher))
  {
    var s1 := DispatcherApply(s, Receive);
    var s2 := DispatcherApply(s1, LoadStopped);
    var s3 := DispatcherApply(s2, Lock);
    var s4 := DispatcherApply(s3, Compare);
    LeadsFrom(s3, ByDispatcher(Compare), [], s4);
    LeadsFrom(s2, ByDispatcher(Lock), [ByDispatcher(Compare)] + [], s4);
    LeadsFrom(s1, ByDispatcher(LoadStopped), [ByDispatcher(Lock)] + ([ByDispatcher(Compare)] + []), s4);
    LeadsFrom(s, ByDispatcher(Receive),
              [ByDispatcher(LoadStopped)] + ([ByDispatcher(Lock)] + ([ByDispatcher(Compare)] + [])), s4);
  }

  function SleepRun(): seq<Step> {
    [ByDispatcher(Enrol)] + ([ByDispatcher(Sleep)] + [])
  }

  lemma SleepLeads(s: State)
    requires s.dispatcher.Full?
    ensures Leads(s, SleepRun(), s.(dispatcher := Asleep(s.dispatcher.task), woken := false, lock := Free))
  {
    var s1 := DispatcherApply(s, Enrol);
    var s2 := DispatcherApply(s1, Sleep);
    LeadsFrom(s1, ByDispatcher(Sleep), [], s2);
    LeadsFrom(s, ByDispatcher(Enrol), [ByDispatcher(Sleep)] + [], s2);
  }

  /** The dispatcher, having seen room, starts a worker. */
  function StartRun(): seq<Step> {
    [ByDispatcher(LoadBeforeStart)] + ([ByDispatcher(Count)] + ([ByDispatcher(Unlock)] + ([ByDispatcher(Spawn)] + [])))
  }

  lemma StartLeads(s: State)
    requires s.dispatcher.Passed? && !s.stopped
    ensures Leads(s, StartRun(), s.(dispatcher := Select, active := s.active + 1, lock := Free,
                                    workers := s.workers + [Worker(s.dispatcher.task, Running)],
                                    log := s.log.(started := s.log.started + [s.dispatcher.task])))
  {
    var s1 := DispatcherApply(s, LoadBeforeStart);
    var s2 := DispatcherApply(s1, Count);
    var s3 := DispatcherApply(s2, Unlock);
    var s4 := DispatcherApply(s3, Spawn);
    LeadsFrom(s3, ByDispatcher(Spawn), [], s4);
    LeadsFrom(s2, ByDispatcher(Unlock), [ByDispatcher(Spawn)] + [], s4);
    LeadsFrom(s1, ByDispatcher(Count), [ByDispatcher(Unlock)] + ([ByDispatcher(Spawn)] + []), s4);
    LeadsFrom(s, ByDispatcher(LoadBeforeStart),
              [ByDispatcher(Count)] + ([ByDispatcher(Unlock)] + ([ByDispatcher(Spawn)] + [])), s4);
  }

  function ResizeRun(size: int): seq<Step> {
    [ByClient(ResizeStore(size))] + ([ByClient(ResizeBroadcast)] + [])
  }

  lemma ResizeLeads(s: State, size: int, sizes: iset<int>)
    requires !OnWaitList(s.dispatcher)
    ensures Leads(s, ResizeRun(size), ClientApply(s, ResizeStore(size)).(resizes := s.resizes))
    ensures size in sizes ==> ResizesWithin(ResizeRun(size), sizes)
  {
    var s1 := ClientApply(s, ResizeStore(size));
    var s2 := ClientApply(s1, ResizeBroadcast);
    LeadsFrom(s1, ByClient(ResizeBroadcast), [], s2);
    LeadsFrom(s, ByClient(ResizeStore(size)), [ByClient(ResizeBroadcast)] + [], s2);
  }

  /**
   A pool made for `size` and resized to any of `sizes` can get stuck exactly when one of these
   numbers wraps to a limit below one in the conversion to int32.
   */
  lemma StuckOnlyByTruncation(size: int, sizes: iset<int>)
    ensures (forall steps, s :: Leads(New(size), steps, s) && ResizesWithin(steps, sizes) ==> !Stuck(s))
       <==> Limit(size) >= 1 && forall n <- sizes :: Limit(n) >= 1
    ensures forall n :: Limit(n) >= 1 <==> n <= 0 || 1 <= n % 0x1_0000_0000 < 0x8000_0000
  {
    hide Leads, Stuck, ResizesWithin;
    if Limit(size) >= 1 && forall n <- sizes :: Limit(n) >= 1 {
      forall steps, s | Leads(New(size), steps, s) && ResizesWithin(steps, sizes)
        ensures !Stuck(s)
      {
        LeastKept(New(size), steps, s, sizes);
        NeverStuck(size, s);
      }
    } else if Limit(size) < 1 {
      StandingStill(New(size), sizes);
      var s := SleepsForever(size, sizes, [], New(size));
    } else {
      var n :| n in sizes && Limit(n) < 1;
      ResizeLeads(New(size), n, sizes);
      var s := SleepsForever(size, sizes, ResizeRun(n), ClientApply(New(size), ResizeStore(n)).(resizes := 0));
    }
  }

  lemma StandingStill(s: State, sizes: iset<int>)
    ensures Leads(s, [], s) && ResizesWithin([], sizes)
  {
  }

  /** A pool whose limit fell below one goes to sleep on its first task for good. */
  lemma SleepsForever(size: int, sizes: iset<int>, before: seq<Step>, s0: State) returns (s: State)
    requires Leads(New(size), before, s0) && ResizesWithin(before, sizes)
    requires s0 == New(size).(max := s0.max, log := s0.log) && s0.max < 1
    ensures exists steps :: Leads(New(size), steps, s) && ResizesWithin(steps, sizes)
    ensures Stuck(s) && s.max == s0.max && s.log.accepted == s0.log.accepted + [0]
  {
    hide Limit, Leads, Enabled, Apply;
    var s1 := Submitted(s0, 0);
    SubmitLeads(s0, 0);
    var s2 := s1.(dispatcher := Full(0), queue := [], lock := Dispatcher);
    TakeLeads(s1);
    s := s2.(dispatcher := Asleep(0), woken := false, lock := Free);
    SleepLeads(s2);
    LeadsThrough(New(size), before, s0, SubmitRun(0, 0), s1);
    LeadsThrough(New(size), before + SubmitRun(0, 0), s1, TakeRun(), s2);
    LeadsThrough(New(size), before + SubmitRun(0, 0) + TakeRun(), s2, SleepRun(), s);
    assert ResizesWithin(before + SubmitRun(0, 0) + TakeRun() + SleepRun(), sizes);
  }

  /** A pool made for 2^31 workers stores the limit -2^31 and never runs its first task. */
  lemma HalfRangeSticks() returns (s: State)
    ensures Reachable(0x8000_0000, s) && s.max == -0x8000_0000 && s.log.accepted == [0] && Stuck(s)
  {
    hide Leads, Stuck;
    StandingStill(New(0x8000_0000), iset{});
    s := SleepsForever(0x8000_0000, iset{}, [], New(0x8000_0000));
  }

  // ---------- missed wake-ups ----------

  /** Some worker has left room and is about to signal. */
  ghost predicate SignalAtHand(s: State) {
    exists i :: 0 <= i < |s.workers| && s.workers[i].pc.Decremented?
  }

  /** The dispatcher sleeps on its task although there is room and nobody is about to wake it. */
  ghost predicate SleepsOverRoom(s: State) {
    s.dispatcher.Asleep? && !s.woken && s.active < s.max && !SignalAtHand(s)
  }

  /** The dispatcher knows of all the room there is, or will be told. */
  ghost predicate Aware(s: State) {
    && (s.dispatcher.Full? ==> s.active >= s.max)
    && (OnWaitList(s.dispatcher) && !s.woken ==> s.active >= s.max || SignalAtHand(s))
  }

  lemma AwareKeptByDispatcher(s: State, step: DispatcherStep)
    requires Aware(s) && DispatcherEnabled(s, step)
    ensures Aware(DispatcherApply(s, step))
  {
  }

  lemma AwareKeptByWorker(s: State, i: nat, step: WorkerStep)
    requires LockInv(s) && Aware(s) && WorkerEnabled(s, i, step)
    ensures Aware(WorkerApply(s, i, step))
  {
    var t := WorkerApply(s, i, step);
    assert t.workers[i].pc == NextPc(step);
    if OnWaitList(t.dispatcher) && !t.woken && s.active < s.max {
      var j :| 0 <= j < |s.workers| && s.workers[j].pc.Decremented?;
      assert t.workers[j].pc.Decremented?;
    }
  }

  lemma AwareKeptByClient(s: State, step: ClientStep)
    requires Aware(s) && ClientEnabled(s, step) && !step.ResizeStore?
    ensures Aware(ClientApply(s, step))
  {
    assert ClientApply(s, step).workers == s.workers;
  }

  lemma {:induction false} AwareHolds(s: State, steps: seq<Step>, t: State)
    requires Inv(s) && Aware(s) && Leads(s, steps, t) && NoResize(steps)
    ensures Aware(t)
    decreases |steps|
  {
    hide Inv, LockInv, Aware, DispatcherEnabled, DispatcherApply, WorkerEnabled, WorkerApply, ClientEnabled, ClientApply;
    if steps != [] {
      InvKept(s, steps[0]);
      LockOfInv(s);
      match steps[0] {
        case ByDispatcher(d) => AwareKeptByDispatcher(s, d);
        case ByWorkerAt(i, w) => AwareKeptByWorker(s, i, w);
        case ByClient(c) => AwareKeptByClient(s, c);
      }
      AwareHolds(Apply(s, steps[0]), steps[1..], t);
    }
  }

  /**
   The broadcast of a Resize is enough exactly when it does not fall between the dispatcher's
   comparison with the old limit and its entry into the wait list: then, and only then, the
   dispatcher never sleeps over room the new limit gives, until the next Resize.
   */
  lemma BroadcastSuffices(size: int, s: State)
    requires Reachable(size, s) && s.resizes > 0
    ensures var t := Apply(s, ByClient(ResizeBroadcast));
      (forall steps, u :: Leads(t, steps, u) && NoResize(steps) ==> !SleepsOverRoom(u))
      <==> !(s.dispatcher.Full? && s.active < s.max)
  {
    ReachableInv(size, s);
    InvKept(s, ByClient(ResizeBroadcast));
    var t := Apply(s, ByClient(ResizeBroadcast));
    hide Inv, Leads, NoResize, Reachable;
    if s.dispatcher.Full? && s.active < s.max {
      SleepLeads(t);
      var u := t.(dispatcher := Asleep(t.dispatcher.task), woken := false, lock := Free);
      NobodySignals(s);
      assert Leads(t, SleepRun(), u) && NoResize(SleepRun()) && SleepsOverRoom(u) by { QuietSleep(); }
    } else {
      forall steps, u | Leads(t, steps, u) && NoResize(steps)
        ensures !SleepsOverRoom(u)
      {
        AwareHolds(t, steps, u);
      }
    }
  }

  /** While the dispatcher holds the lock no worker is past its decrement. */
  lemma NobodySignals(s: State)
    requires Inv(s) && DispatcherHolds(s.dispatcher)
    ensures !SignalAtHand(s)
  {
    LockOfInv(s);
    hide Inv;
  }

  lemma QuietSleep()
    ensures NoResize(SleepRun())
  {
  }

  /**
   Resize's wake-up can be missed: a Resize to 2 can return, and the dispatcher still go to sleep
   on a task with one worker active. It is woken only when that worker ends.
   */
  lemma MissedWakeUp() returns (s: State)
    ensures Reachable(1, s)
    ensures SleepsOverRoom(s) && s.resizes == 0 && s.active == 1 && s.max == 2
  {
    hide Leads, Enabled, Apply;
    var s0 := New(1);
    SubmitLeads(s0, 7);
    var s1 := Submitted(s0, 7);
    TakeLeads(s1);
    var s1a := s1.(dispatcher := Passed(7), queue := [], lock := Dispatcher);
    StartLeads(s1a);
    var s2 := s1.(queue := [], active := 1, workers := [Worker(7, Running)], log := s1.log.(started := [7]));
    assert s1.workers + [Worker(7, Running)] == [Worker(7, Running)] && s1.log.started + [7] == [7];
    SubmitLeads(s2, 8);
    var s3 := Submitted(s2, 8);
    TakeLeads(s3);
    var s4 := s3.(dispatcher := Full(8), queue := [], lock := Dispatcher);
    ResizeLeads(s4, 2, iset{});
    var s5 := ClientApply(s4, ResizeStore(2)).(resizes := 0);
    SleepLeads(s5);
    s := s5.(dispatcher := Asleep(8), woken := false, lock := Free);
    var r := SubmitRun(0, 7);
    LeadsThrough(s0, r, s1, TakeRun(), s1a);
    r := r + TakeRun();
    LeadsThrough(s0, r, s1a, StartRun(), s2);
    r := r + StartRun();
    LeadsThrough(s0, r, s2, SubmitRun(1, 8), s3);
    r := r + SubmitRun(1, 8);
    LeadsThrough(s0, r, s3, TakeRun(), s4);
    r := r + TakeRun();
    LeadsThrough(s0, r, s4, ResizeRun(2), s5);
    r := r + ResizeRun(2);
    LeadsThrough(s0, r, s5, SleepRun(), s);
  }
}
