/** The threads of the pool over the two queues as queue.c implements them: every lock, test, wait,
    unlock and broadcast inside queue_enqueue and queue_dequeue is a separate step, interleaved
    with all steps of all other threads (src/core/main.c, src/thirdparty/c-pthread-queue/queue.c).

    What a thread knows is its own control, the values its calls return, and the line buffers these
    point to. The pool of module Pool is what one sees of these threads, the rings and the memory. */
module Threads {
  import Sums
  import R = RingBuffer
  import P = Pool
  import M = Monitor

  type Line = P.Line

  // Where main thread and workers are, apart from what stands in the queues.
  datatype Control = Control(
    main: P.Main,
    asyncPending: bool,
    unloop: bool,
    active: int,
    workers: seq<P.Worker>,
    answered: seq<Line>,
    sends: nat,
    callbacks: nat
  )

  // `memory` holds the line buffers allocated so far; a pointer is a place in it.
  datatype State = State(control: Control, memory: seq<Line>, jobs: M.State, signals: M.State)

  datatype Action =
    | Local(p: P.Action)             // a step of a thread outside both queues
    | Call(t: nat, onJobs: bool)     // it calls queue_enqueue or queue_dequeue
    | Step(t: nat, onJobs: bool)     // the next step inside that call, or the return from it
    | Wake(t: nat, onJobs: bool)     // spurious wakeup

  // ---------------------------------------------------------------- steps outside the queues

  function Bare(k: Control): P.State {
    P.State(k.main, [], [], k.asyncPending, k.unloop, k.active, k.workers, [], [], k.answered, k.sends, k.callbacks)
  }

  function ControlOf(p: P.State): Control {
    Control(p.main, p.asyncPending, p.unloop, p.active, p.workers, p.answered, p.sends, p.callbacks)
  }

  predicate IsLocal(p: P.Action) {
    match p
    case ByMain(m) => !m.PutLine? && !m.Place? && !m.TakeSignal?
    case ByWorker(_, act) => !act.Take? && !act.PostSignal?
  }

  // Thread i is worker i; the main thread comes last.
  function Actor(workers: nat, p: P.Action): nat { if p.ByWorker? then p.w else workers }

  // ---------------------------------------------------------------- calls

  // The call thread t makes next on a queue. A line goes on the queue in a new buffer.
  function Asked(k: Control, memory: seq<Line>, t: nat, onJobs: bool): M.Call {
    if t < |k.workers| then
      if onJobs then if k.workers[t].Serving? then M.Take else M.NoCall
      else if k.workers[t].Leaving? then M.Put(M.Pointer(t)) else M.NoCall
    else if !onJobs then if k.main.InCallback? then M.Take else M.NoCall
    else
      match k.main
      case Reading(pending) => if pending == [] then M.NoCall else M.Put(M.Pointer(|memory|))
      case Placing(j) => if j < |k.workers| then M.Put(M.Null) else M.NoCall
      case _ => M.NoCall
  }

  // The memory once that call is made.
  function Allocated(k: Control, memory: seq<Line>, t: nat, onJobs: bool): seq<Line> {
    if t == |k.workers| && onJobs && k.main.Reading? && k.main.pending != [] then memory + [k.main.pending[0]]
    else memory
  }

  function LineAt(memory: seq<Line>, value: M.Value): Line {
    if value.Pointer? && value.address < |memory| then memory[value.address] else ""
  }

  // The worker that queue_dequeue returned this value to.
  function Taken(memory: seq<Line>, value: M.Value): P.Worker {
    if value.Null? then P.Leaving(true) else P.Handling(LineAt(memory, value))
  }

  // What the main thread does once its call returned.
  function ReturnMain(k: Control, onJobs: bool): Control {
    if onJobs then
      match k.main
      case Reading(pending) => if pending == [] then k else k.(main := P.Reading(pending[1..]))
      case Placing(j) => k.(main := P.Placing(j + 1))
      case _ => k
    else
      k.(main := P.Looping, active := k.active - 1, unloop := k.unloop || k.active == 1, callbacks := k.callbacks + 1)
  }

  // What a worker does once its call returned.
  function ReturnWorker(w: P.Worker, memory: seq<Line>, call: M.Call): P.Worker {
    if call.TakeDone? then Taken(memory, call.value) else if w.Leaving? then P.Notifying(w.served) else w
  }

  function Return(k: Control, memory: seq<Line>, t: nat, onJobs: bool, call: M.Call): Control {
    if t < |k.workers| then k.(workers := k.workers[t := ReturnWorker(k.workers[t], memory, call)])
    else ReturnMain(k, onJobs)
  }

  // ---------------------------------------------------------------- the step system

  function Queue(s: State, onJobs: bool): M.State { if onJobs then s.jobs else s.signals }

  function WithQueue(s: State, onJobs: bool, q: M.State): State {
    if onJobs then s.(jobs := q) else s.(signals := q)
  }

  predicate Out(s: State, t: nat) {
    t < |s.jobs.pcs| && t < |s.signals.pcs| && s.jobs.pcs[t].Idle? && s.signals.pcs[t].Idle?
  }

  predicate Waiting(call: M.Call) { call.Put? || call.Take? }

  predicate Done(call: M.Call) { call.PutDone? || call.TakeDone? }

  function Making(call: M.Call, t: nat): M.Action {
    if call.Put? then M.CallPut(t, call.value) else M.CallTake(t)
  }

  // The last step of a call, the broadcast, returns from it.
  predicate Returns(pc: M.Pc) { pc.PutBroadcast? || pc.TakeBroadcast? }

  predicate Enabled(s: State, a: Action) {
    && s.jobs.ring.Valid() && s.signals.ring.Valid()
    && match a
       case Local(p) => IsLocal(p) && P.Enabled(Bare(s.control), p) && Out(s, Actor(|s.control.workers|, p))
       case Call(t, onJobs) => Out(s, t) && Waiting(Asked(s.control, s.memory, t, onJobs))
       case Step(t, onJobs) => M.Enabled(Queue(s, onJobs), M.Step(t))
       case Wake(t, onJobs) => M.Enabled(Queue(s, onJobs), M.Wake(t))
  }

  function Apply(s: State, a: Action): State
    requires Enabled(s, a)
  {
    match a
    case Local(p) => s.(control := ControlOf(P.Apply(Bare(s.control), p)))
    case Call(t, onJobs) =>
      var call := Asked(s.control, s.memory, t, onJobs);
      WithQueue(s, onJobs, M.Apply(Queue(s, onJobs), Making(call, t)))
      .(memory := Allocated(s.control, s.memory, t, onJobs))
    case Step(t, onJobs) =>
      var q := Queue(s, onJobs);
      WithQueue(s, onJobs, M.Apply(q, M.Step(t)))
      .(control := if Returns(q.pcs[t]) then Return(s.control, s.memory, t, onJobs, M.CallOf(q.pcs[t])) else s.control)
    case Wake(t, onJobs) => WithQueue(s, onJobs, M.Apply(Queue(s, onJobs), M.Wake(t)))
  }

  // n workers and the main thread, both queues empty.
  function Initial(n: nat): State {
    State(ControlOf(P.Initial(n)), [], M.Initial(n + 1, P.JOB_CAPACITY), M.Initial(n + 1, P.SIGNAL_CAPACITY))
  }

  // A thread woken for no reason tests its queue again once it has that queue's mutex.
  lemma WokenTestsAgain(s: State, t: nat, onJobs: bool)
    requires Enabled(s, Wake(t, onJobs)) && Queue(s, onJobs).mutex.Free?
    ensures Enabled(Apply(s, Wake(t, onJobs)), Step(t, onJobs))
    ensures var n := Apply(Apply(s, Wake(t, onJobs)), Step(t, onJobs));
      t < |Queue(n, onJobs).pcs| && (Queue(n, onJobs).pcs[t].PutTest? || Queue(n, onJobs).pcs[t].TakeTest?)
  {
    M.WokenTestsAgain(Queue(s, onJobs), t);
  }

  predicate Feasible(s: State, run: seq<Action>)
    decreases |run|
  {
    run == [] || (Enabled(s, run[0]) && Feasible(Apply(s, run[0]), run[1..]))
  }

  function Exec(s: State, run: seq<Action>): State
    requires Feasible(s, run)
    decreases |run|
  {
    if run == [] then s else Exec(Apply(s, run[0]), run[1..])
  }

  // ---------------------------------------------------------------- the pool seen in them

  function JobOf(memory: seq<Line>, value: M.Value): P.Job {
    if value.Null? then P.Sentinel else P.Request(LineAt(memory, value))
  }

  function JobsOf(memory: seq<Line>, values: seq<M.Value>): (jobs: seq<P.Job>)
    ensures |jobs| == |values|
  {
    seq(|values|, i requires 0 <= i < |values| => JobOf(memory, values[i]))
  }

  function SenderOf(value: M.Value): nat { if value.Pointer? then value.address else 0 }

  function SendersOf(values: seq<M.Value>): (senders: seq<nat>)
    ensures |senders| == |values|
  {
    seq(|values|, i requires 0 <= i < |values| => SenderOf(values[i]))
  }

  predicate Shaped(s: State) {
    && |s.jobs.pcs| == |s.signals.pcs| == |s.control.workers| + 1
    && s.jobs.ring.Valid() && s.signals.ring.Valid()
  }

  // A worker whose call has taken or stored its value counts as having returned.
  function SeenWorker(w: P.Worker, memory: seq<Line>, jobCall: M.Call, signalCall: M.Call): P.Worker {
    if Done(jobCall) then ReturnWorker(w, memory, jobCall)
    else if Done(signalCall) then ReturnWorker(w, memory, signalCall)
    else w
  }

  function SeenWorkers(s: State): (workers: seq<P.Worker>)
    requires Shaped(s)
    ensures |workers| == |s.control.workers|
  {
    seq(|s.control.workers|, i requires 0 <= i < |s.control.workers| =>
      SeenWorker(s.control.workers[i], s.memory, M.CallOf(s.jobs.pcs[i]), M.CallOf(s.signals.pcs[i])))
  }

  // So does the main thread.
  function SeenMain(k: Control, jobCall: M.Call, signalCall: M.Call): Control {
    if Done(jobCall) then ReturnMain(k, true) else if Done(signalCall) then ReturnMain(k, false) else k
  }

  function Seen(s: State): P.State
    requires Shaped(s)
  {
    var n := |s.control.workers|;
    var k := SeenMain(s.control, M.CallOf(s.jobs.pcs[n]), M.CallOf(s.signals.pcs[n]));
    P.State(k.main, JobsOf(s.memory, s.jobs.ring.Contents()), SendersOf(s.signals.ring.Contents()),
            k.asyncPending, k.unloop, k.active, SeenWorkers(s),
            P.LinesOf(JobsOf(s.memory, s.jobs.enqueued)), P.LinesOf(JobsOf(s.memory, s.jobs.dequeued)),
            k.answered, k.sends, k.callbacks)
  }

  // ---------------------------------------------------------------- invariant

  predicate Known(memory: seq<Line>, value: M.Value) { value.Pointer? ==> value.address < |memory| }

  predicate AllKnown(memory: seq<Line>, values: seq<M.Value>) {
    forall i :: 0 <= i < |values| ==> Known(memory, values[i])
  }

  // A worker is inside a call that its control asked for.
  predicate WorkerCalls(w: P.Worker, t: nat, memory: seq<Line>, jobCall: M.Call, signalCall: M.Call) {
    && (jobCall.NoCall? || signalCall.NoCall?)
    && (match jobCall
        case NoCall => true
        case Take => w.Serving?
        case TakeDone(value) => w.Serving? && Known(memory, value)
        case _ => false)
    && (match signalCall
        case NoCall => true
        case Put(value) => w.Leaving? && value == M.Pointer(t)
        case PutDone => w.Leaving?
        case _ => false)
  }

  // So is the main thread, and the buffer it passes holds the line.
  predicate MainCalls(k: Control, memory: seq<Line>, jobCall: M.Call, signalCall: M.Call) {
    && (jobCall.NoCall? || signalCall.NoCall?)
    && (match jobCall
        case NoCall => true
        case Put(value) => Known(memory, value) && MainPuts(k) && JobOf(memory, value) == NextJob(k)
        case PutDone => MainPuts(k)
        case _ => false)
    && (match signalCall
        case NoCall => true
        case Take => k.main.InCallback?
        case TakeDone(_) => k.main.InCallback?
        case _ => false)
  }

  predicate MainPuts(k: Control) {
    (k.main.Reading? && k.main.pending != []) || (k.main.Placing? && k.main.placed < |k.workers|)
  }

  function NextJob(k: Control): P.Job
    requires MainPuts(k)
  {
    if k.main.Reading? then P.Request(k.main.pending[0]) else P.Sentinel
  }

  ghost predicate Inv(s: State) {
    && Shaped(s) && M.Inv(s.jobs) && M.Inv(s.signals)
    && |s.jobs.ring.slots| == P.JOB_CAPACITY && |s.signals.ring.slots| == P.SIGNAL_CAPACITY
    && AllKnown(s.memory, s.jobs.enqueued)
    && (forall t :: 0 <= t < |s.control.workers| ==>
          WorkerCalls(s.control.workers[t], t, s.memory, M.CallOf(s.jobs.pcs[t]), M.CallOf(s.signals.pcs[t])))
    && var n := |s.control.workers|;
      MainCalls(s.control, s.memory, M.CallOf(s.jobs.pcs[n]), M.CallOf(s.signals.pcs[n]))
  }

  lemma InvInitial(n: nat)
    ensures Inv(Initial(n)) && Seen(Initial(n)) == P.Initial(n)
  {
    M.InvInitial(n + 1, P.JOB_CAPACITY);
    M.InvInitial(n + 1, P.SIGNAL_CAPACITY);
    assert SeenWorkers(Initial(n)) == P.Initial(n).workers;
  }

  // ---------------------------------------------------------------- steps inside a monitor

  // The step in which a call stores or removes its value.
  predicate Commits(q: M.State, t: nat) {
    t < |q.pcs| && ((q.pcs[t].PutTest? && !q.ring.Full()) || (q.pcs[t].TakeTest? && !q.ring.Empty()))
  }

  // Calls, values and histories before and after a step of thread t.
  lemma StepEffect(q: M.State, t: nat)
    requires M.Inv(q) && M.Enabled(q, M.Step(t))
    ensures var n := M.Apply(q, M.Step(t));
      && M.Inv(n) && |n.ring.slots| == |q.ring.slots| && |n.pcs| == |q.pcs|
      && (forall u :: 0 <= u < |q.pcs| && u != t ==> M.CallOf(n.pcs[u]) == M.CallOf(q.pcs[u]))
      && (!Commits(q, t) ==>
            && n.ring.Contents() == q.ring.Contents() && n.enqueued == q.enqueued && n.dequeued == q.dequeued
            && M.CallOf(n.pcs[t]) == if Returns(q.pcs[t]) then M.NoCall else M.CallOf(q.pcs[t]))
  {
    M.InvStep(q, M.Step(t));
    M.RingStep(q, M.Step(t));
  }

  // A put that commits stores its value behind the others ...
  lemma PutEffect(q: M.State, t: nat)
    requires M.Inv(q) && Commits(q, t) && q.pcs[t].PutTest?
    ensures M.Enabled(q, M.Step(t)) && |q.ring.Contents()| < |q.ring.slots|
    ensures var n, value := M.Apply(q, M.Step(t)), q.pcs[t].value;
      && n.ring.Valid() && n.ring.Contents() == q.ring.Contents() + [value]
      && n.enqueued == q.enqueued + [value] && n.dequeued == q.dequeued && n.pcs == q.pcs[t := M.PutUnlock]
  {
    R.PutAppends(q.ring, q.pcs[t].value);
  }

  // ... and a take returns the oldest one.
  lemma TakeEffect(q: M.State, t: nat)
    requires M.Inv(q) && Commits(q, t) && q.pcs[t].TakeTest?
    ensures M.Enabled(q, M.Step(t)) && q.ring.Contents() != []
    ensures var n, value := M.Apply(q, M.Step(t)), q.ring.Contents()[0];
      && n.ring.Valid() && n.ring.Contents() == q.ring.Contents()[1..]
      && n.enqueued == q.enqueued && n.dequeued == q.dequeued + [value] && n.pcs == q.pcs[t := M.TakeUnlock(value)]
  {
    R.DropRemoves(q.ring);
    assert q.ring.Contents()[1..] == q.ring.Drop().Contents();
  }

  // A call begins, or a sleeper wakes: nothing is stored or removed.
  lemma MakeEffect(q: M.State, t: nat, call: M.Call)
    requires M.Inv(q) && t < |q.pcs| && q.pcs[t].Idle? && Waiting(call)
    ensures var n := M.Apply(q, Making(call, t));
      && M.Inv(n) && n.ring == q.ring && n.enqueued == q.enqueued && n.dequeued == q.dequeued
      && |n.pcs| == |q.pcs| && M.CallOf(n.pcs[t]) == call
      && forall u :: 0 <= u < |q.pcs| && u != t ==> n.pcs[u] == q.pcs[u]
  {
    M.InvStep(q, Making(call, t));
  }

  lemma WakeEffect(q: M.State, t: nat)
    requires M.Inv(q) && M.Enabled(q, M.Wake(t))
    ensures var n := M.Apply(q, M.Wake(t));
      && M.Inv(n) && n.ring == q.ring && n.enqueued == q.enqueued && n.dequeued == q.dequeued && |n.pcs| == |q.pcs|
      && forall u :: 0 <= u < |q.pcs| ==> M.CallOf(n.pcs[u]) == M.CallOf(q.pcs[u])
  {
    M.InvStep(q, M.Wake(t));
  }

  // ---------------------------------------------------------------- memory

  lemma JobsOfMore(memory: seq<Line>, values: seq<M.Value>, value: M.Value)
    ensures JobsOf(memory, values + [value]) == JobsOf(memory, values) + [JobOf(memory, value)]
    ensures P.LinesOf(JobsOf(memory, values + [value]))
         == P.LinesOf(JobsOf(memory, values))
            + (if JobOf(memory, value).Request? then [JobOf(memory, value).line] else [])
  {
    P.LinesOfAppend(JobsOf(memory, values), JobOf(memory, value));
  }

  // A new buffer changes nothing behind the pointers known before.
  lemma JobsOfStay(memory: seq<Line>, more: seq<Line>, values: seq<M.Value>)
    requires memory <= more && AllKnown(memory, values)
    ensures JobsOf(more, values) == JobsOf(memory, values) && AllKnown(more, values)
  {
    forall i | 0 <= i < |values| ensures JobOf(more, values[i]) == JobOf(memory, values[i]) {
      assert Known(memory, values[i]);
    }
  }

  lemma RingKnown(s: State)
    requires Inv(s)
    ensures AllKnown(s.memory, s.jobs.ring.Contents()) && AllKnown(s.memory, s.jobs.dequeued)
  {
    var contents, dequeued := s.jobs.ring.Contents(), s.jobs.dequeued;
    assert s.jobs.enqueued == dequeued + contents;
    forall i | 0 <= i < |contents| ensures Known(s.memory, contents[i]) {
      assert s.jobs.enqueued[|dequeued| + i] == contents[i];
    }
    forall i | 0 <= i < |dequeued| ensures Known(s.memory, dequeued[i]) {
      assert s.jobs.enqueued[i] == dequeued[i];
    }
  }

  // ---------------------------------------------------------------- the steps, as the pool sees them

  lemma LocalByWorkerInv(s: State, w: nat, act: P.WorkerAction)
    requires Inv(s) && Enabled(s, Local(P.ByWorker(w, act)))
    ensures Inv(Apply(s, Local(P.ByWorker(w, act))))
  {
  }

  lemma LocalByWorker(s: State, w: nat, act: P.WorkerAction)
    requires Inv(s) && Enabled(s, Local(P.ByWorker(w, act)))
    ensures var p, t := P.ByWorker(w, act), Apply(s, Local(P.ByWorker(w, act)));
      Shaped(t) && P.Enabled(Seen(s), p) && Seen(t) == P.Apply(Seen(s), p)
  {
    LocalWorkers(s, w, act);
    var n := |s.control.workers|;
    SeenMainLocal(s.control, w, act, M.CallOf(s.jobs.pcs[n]), M.CallOf(s.signals.pcs[n]));
  }

  // What the pool sees of the main thread and what a worker does outside the queues do not meet.
  lemma SeenMainLocal(k: Control, w: nat, act: P.WorkerAction, jobCall: M.Call, signalCall: M.Call)
    requires IsLocal(P.ByWorker(w, act)) && P.Enabled(Bare(k), P.ByWorker(w, act))
    ensures var next, seen := ControlOf(P.Apply(Bare(k), P.ByWorker(w, act))), SeenMain(k, jobCall, signalCall);
      SeenMain(next, jobCall, signalCall)
      == seen.(workers := next.workers, asyncPending := next.asyncPending,
               answered := next.answered, sends := next.sends)
    ensures SeenMain(k, jobCall, signalCall).asyncPending == k.asyncPending
    ensures SeenMain(k, jobCall, signalCall).answered == k.answered && SeenMain(k, jobCall, signalCall).sends == k.sends
  {
  }

  lemma LocalWorkers(s: State, w: nat, act: P.WorkerAction)
    requires Inv(s) && Enabled(s, Local(P.ByWorker(w, act)))
    ensures var t, from := Apply(s, Local(P.ByWorker(w, act))), s.control.workers[w];
      && Shaped(t) && SeenWorkers(s)[w] == from
      && P.WorkerEnabled(Seen(s), from, act) && P.Target(Seen(s), from, act) == P.Target(Bare(s.control), from, act)
      && SeenWorkers(t) == SeenWorkers(s)[w := P.Target(Seen(s), from, act)]
  {
    var t, from := Apply(s, Local(P.ByWorker(w, act))), s.control.workers[w];
    assert t.control.workers == s.control.workers[w := P.Target(Bare(s.control), from, act)];
  }

  lemma LocalByMain(s: State, m: P.MainAction)
    requires Inv(s) && Enabled(s, Local(P.ByMain(m)))
    ensures var p, t := P.ByMain(m), Apply(s, Local(P.ByMain(m)));
      && Inv(t) && P.Enabled(Seen(s), p) && Seen(t) == P.Apply(Seen(s), p)
  {
    var t := Apply(s, Local(P.ByMain(m)));
    assert t.control.workers == s.control.workers;
    assert SeenWorkers(t) == SeenWorkers(s);
    if m.Join? {
      assert WorkerCalls(s.control.workers[s.control.main.joined], s.control.main.joined, s.memory,
                         M.CallOf(s.jobs.pcs[s.control.main.joined]), M.CallOf(s.signals.pcs[s.control.main.joined]));
    }
  }

  // With the same calls, values and control one sees the same pool.
  lemma SeenSame(s: State, t: State)
    requires Inv(s) && Shaped(t) && t.control == s.control && s.memory <= t.memory
    requires t.jobs.ring.Contents() == s.jobs.ring.Contents() && t.signals.ring.Contents() == s.signals.ring.Contents()
    requires t.jobs.enqueued == s.jobs.enqueued && t.jobs.dequeued == s.jobs.dequeued
    requires forall u :: 0 <= u < |s.jobs.pcs| ==> SameForPool(M.CallOf(s.jobs.pcs[u]), M.CallOf(t.jobs.pcs[u]))
    requires forall u :: 0 <= u < |s.jobs.pcs| ==> SameForPool(M.CallOf(s.signals.pcs[u]), M.CallOf(t.signals.pcs[u]))
    ensures Seen(t) == Seen(s)
  {
    RingKnown(s);
    JobsOfStay(s.memory, t.memory, s.jobs.ring.Contents());
    JobsOfStay(s.memory, t.memory, s.jobs.enqueued);
    JobsOfStay(s.memory, t.memory, s.jobs.dequeued);
    forall i | 0 <= i < |s.control.workers| ensures SeenWorkers(t)[i] == SeenWorkers(s)[i] {
      assert WorkerCalls(s.control.workers[i], i, s.memory, M.CallOf(s.jobs.pcs[i]), M.CallOf(s.signals.pcs[i]));
      assert SameForPool(M.CallOf(s.jobs.pcs[i]), M.CallOf(t.jobs.pcs[i]));
      assert SameForPool(M.CallOf(s.signals.pcs[i]), M.CallOf(t.signals.pcs[i]));
    }
    assert SeenWorkers(t) == SeenWorkers(s);
  }

  // The pool does not see whether a call has begun.
  predicate SameForPool(before: M.Call, after: M.Call) {
    if Done(before) then after == before else !Done(after)
  }

  lemma WorkerCallsStay(w: P.Worker, t: nat, memory: seq<Line>, more: seq<Line>, jobCall: M.Call, signalCall: M.Call)
    requires memory <= more && WorkerCalls(w, t, memory, jobCall, signalCall)
    ensures WorkerCalls(w, t, more, jobCall, signalCall)
  {
  }

  lemma MainCallsStay(k: Control, memory: seq<Line>, more: seq<Line>, jobCall: M.Call, signalCall: M.Call)
    requires memory <= more && MainCalls(k, memory, jobCall, signalCall)
    ensures MainCalls(k, more, jobCall, signalCall)
  {
  }

  lemma CallSeen(s: State, t: nat, onJobs: bool)
    requires Inv(s) && Enabled(s, Call(t, onJobs))
    ensures Shaped(Apply(s, Call(t, onJobs))) && Seen(Apply(s, Call(t, onJobs))) == Seen(s)
  {
    MakeEffect(Queue(s, onJobs), t, Asked(s.control, s.memory, t, onJobs));
    SeenSame(s, Apply(s, Call(t, onJobs)));
  }

  lemma CallInv(s: State, t: nat, onJobs: bool)
    requires Inv(s) && Enabled(s, Call(t, onJobs))
    ensures Inv(Apply(s, Call(t, onJobs)))
  {
    var next := Apply(s, Call(t, onJobs));
    MakeEffect(Queue(s, onJobs), t, Asked(s.control, s.memory, t, onJobs));
    JobsOfStay(s.memory, next.memory, s.jobs.enqueued);
    var n := |s.control.workers|;
    forall u | 0 <= u < n
      ensures WorkerCalls(s.control.workers[u], u, next.memory,
                          M.CallOf(next.jobs.pcs[u]), M.CallOf(next.signals.pcs[u]))
    {
      assert WorkerCalls(s.control.workers[u], u, s.memory, M.CallOf(s.jobs.pcs[u]), M.CallOf(s.signals.pcs[u]));
      WorkerCallsStay(s.control.workers[u], u, s.memory, next.memory,
                      M.CallOf(s.jobs.pcs[u]), M.CallOf(s.signals.pcs[u]));
    }
    MainCallsStay(s.control, s.memory, next.memory, M.CallOf(s.jobs.pcs[n]), M.CallOf(s.signals.pcs[n]));
  }

  lemma WakeKeeps(s: State, t: nat, onJobs: bool)
    requires Inv(s) && Enabled(s, Wake(t, onJobs))
    ensures Inv(Apply(s, Wake(t, onJobs))) && Seen(Apply(s, Wake(t, onJobs))) == Seen(s)
  {
    WakeEffect(Queue(s, onJobs), t);
    SeenSame(s, Apply(s, Wake(t, onJobs)));
  }

  // A step that neither commits nor returns.
  lemma InsideKeeps(s: State, t: nat, onJobs: bool)
    requires Inv(s) && Enabled(s, Step(t, onJobs))
    requires !Commits(Queue(s, onJobs), t) && !Returns(Queue(s, onJobs).pcs[t])
    ensures Inv(Apply(s, Step(t, onJobs))) && Seen(Apply(s, Step(t, onJobs))) == Seen(s)
  {
    StepEffect(Queue(s, onJobs), t);
    SeenSame(s, Apply(s, Step(t, onJobs)));
  }

  // Returning: what the pool saw already is now in the thread's control.
  lemma ReturnByWorkerInv(s: State, t: nat, onJobs: bool)
    requires Inv(s) && Enabled(s, Step(t, onJobs)) && Returns(Queue(s, onJobs).pcs[t]) && t < |s.control.workers|
    ensures Inv(Apply(s, Step(t, onJobs)))
  {
    StepEffect(Queue(s, onJobs), t);
  }

  lemma ReturnByWorker(s: State, t: nat, onJobs: bool)
    requires Inv(s) && Enabled(s, Step(t, onJobs)) && Returns(Queue(s, onJobs).pcs[t]) && t < |s.control.workers|
    ensures Inv(Apply(s, Step(t, onJobs))) && Seen(Apply(s, Step(t, onJobs))) == Seen(s)
  {
    StepEffect(Queue(s, onJobs), t);
    ReturnByWorkerInv(s, t, onJobs);
    ReturnWorkers(s, t, onJobs);
    SeenWithWorkers(s, Apply(s, Step(t, onJobs)));
  }

  lemma SeenWithWorkers(s: State, next: State)
    requires Shaped(s) && Shaped(next) && next.memory == s.memory && SeenWorkers(next) == SeenWorkers(s)
    requires next.control == s.control.(workers := next.control.workers)
    requires next.jobs.ring.Contents() == s.jobs.ring.Contents()
    requires next.signals.ring.Contents() == s.signals.ring.Contents()
    requires next.jobs.enqueued == s.jobs.enqueued && next.jobs.dequeued == s.jobs.dequeued
    requires var n := |s.control.workers|;
      && M.CallOf(next.jobs.pcs[n]) == M.CallOf(s.jobs.pcs[n])
      && M.CallOf(next.signals.pcs[n]) == M.CallOf(s.signals.pcs[n])
    ensures Seen(next) == Seen(s)
  {
  }

  lemma ReturnWorkers(s: State, t: nat, onJobs: bool)
    requires Inv(s) && Enabled(s, Step(t, onJobs)) && Returns(Queue(s, onJobs).pcs[t]) && t < |s.control.workers|
    ensures Shaped(Apply(s, Step(t, onJobs))) && SeenWorkers(Apply(s, Step(t, onJobs))) == SeenWorkers(s)
  {
    StepEffect(Queue(s, onJobs), t);
    assert WorkerCalls(s.control.workers[t], t, s.memory, M.CallOf(s.jobs.pcs[t]), M.CallOf(s.signals.pcs[t]));
  }

  lemma ReturnByMain(s: State, t: nat, onJobs: bool)
    requires Inv(s) && Enabled(s, Step(t, onJobs)) && Returns(Queue(s, onJobs).pcs[t]) && t == |s.control.workers|
    ensures Inv(Apply(s, Step(t, onJobs))) && Seen(Apply(s, Step(t, onJobs))) == Seen(s)
  {
    var next := Apply(s, Step(t, onJobs));
    StepEffect(Queue(s, onJobs), t);
    assert next.control.workers == s.control.workers;
    assert SeenWorkers(next) == SeenWorkers(s);
  }

  // The pool's step that a committing call is.
  function Operation(k: Control, t: nat, onJobs: bool): P.Action {
    if t < |k.workers| then P.ByWorker(t, if onJobs then P.Take else P.PostSignal)
    else P.ByMain(if !onJobs then P.TakeSignal else if k.main.Reading? then P.PutLine else P.Place)
  }

  // A worker takes the job whose pointer the queue hands out.
  lemma CommitTake(s: State, t: nat)
    requires Inv(s) && t < |s.control.workers| && Commits(s.jobs, t) && Enabled(s, Step(t, true))
    ensures var p, next := P.ByWorker(t, P.Take), Apply(s, Step(t, true));
      && Inv(next) && P.Enabled(Seen(s), p) && Seen(next) == P.Apply(Seen(s), p)
      && next.jobs.pcs[t].TakeUnlock? && JobOf(s.memory, next.jobs.pcs[t].value) == Seen(s).jobs[0]
  {
    var next := Apply(s, Step(t, true));
    assert WorkerCalls(s.control.workers[t], t, s.memory, M.CallOf(s.jobs.pcs[t]), M.CallOf(s.signals.pcs[t]));
    StepEffect(s.jobs, t);
    TakeEffect(s.jobs, t);
    RingKnown(s);
    var contents := s.jobs.ring.Contents();
    assert Known(s.memory, contents[0]);
    JobsOfMore(s.memory, s.jobs.dequeued, contents[0]);
    assert JobsOf(s.memory, contents[1..]) == JobsOf(s.memory, contents)[1..];
    TakeWorkers(s, next, t, contents[0]);
    assert Seen(next).taken == P.Apply(Seen(s), P.ByWorker(t, P.Take)).taken;
  }

  lemma TakeWorkers(s: State, next: State, t: nat, value: M.Value)
    requires Inv(s) && Shaped(next) && next.control == s.control && next.memory == s.memory && next.signals == s.signals
    requires t < |s.control.workers| && s.control.workers[t].Serving? && M.CallOf(s.jobs.pcs[t]).Take?
    requires next.jobs.pcs == s.jobs.pcs[t := M.TakeUnlock(value)]
    ensures SeenWorkers(next) == SeenWorkers(s)[t := Taken(s.memory, value)] && SeenWorkers(s)[t] == P.Serving
  {
    assert WorkerCalls(s.control.workers[t], t, s.memory, M.CallOf(s.jobs.pcs[t]), M.CallOf(s.signals.pcs[t]));
  }

  // A worker posts its termination message.
  lemma CommitPost(s: State, t: nat)
    requires Inv(s) && t < |s.control.workers| && Commits(s.signals, t) && Enabled(s, Step(t, false))
    ensures var p, next := P.ByWorker(t, P.PostSignal), Apply(s, Step(t, false));
      Inv(next) && P.Enabled(Seen(s), p) && Seen(next) == P.Apply(Seen(s), p)
  {
    var next := Apply(s, Step(t, false));
    assert WorkerCalls(s.control.workers[t], t, s.memory, M.CallOf(s.jobs.pcs[t]), M.CallOf(s.signals.pcs[t]));
    StepEffect(s.signals, t);
    PutEffect(s.signals, t);
    assert SendersOf(next.signals.ring.Contents()) == SendersOf(s.signals.ring.Contents()) + [t];
    assert SeenWorkers(next) == SeenWorkers(s)[t := P.Notifying(s.control.workers[t].served)];
  }

  // The main thread stores the pointer to a line, or NULL.
  lemma CommitPutInv(s: State, t: nat)
    requires Inv(s) && t == |s.control.workers| && Commits(s.jobs, t) && Enabled(s, Step(t, true))
    ensures Inv(Apply(s, Step(t, true))) && s.jobs.pcs[t].PutTest?
    ensures MainPuts(s.control) && JobOf(s.memory, s.jobs.pcs[t].value) == NextJob(s.control)
  {
    StepEffect(s.jobs, t);
    PutEffect(s.jobs, t);
  }

  lemma CommitPut(s: State, t: nat)
    requires Inv(s) && t == |s.control.workers| && Commits(s.jobs, t) && Enabled(s, Step(t, true))
    ensures var p, next := Operation(s.control, t, true), Apply(s, Step(t, true));
      && Inv(next) && P.Enabled(Seen(s), p) && Seen(next) == P.Apply(Seen(s), p)
      && s.jobs.pcs[t].PutTest? && MainPuts(s.control) && JobOf(s.memory, s.jobs.pcs[t].value) == NextJob(s.control)
  {
    var next := Apply(s, Step(t, true));
    CommitPutInv(s, t);
    PutEffect(s.jobs, t);
    JobsOfMore(s.memory, s.jobs.ring.Contents(), s.jobs.pcs[t].value);
    JobsOfMore(s.memory, s.jobs.enqueued, s.jobs.pcs[t].value);
    assert SeenWorkers(next) == SeenWorkers(s);
    if s.control.main.Reading? {
      LineAdded(s, next);
    } else {
      SentinelAdded(s, next);
    }
  }

  lemma LineAdded(s: State, next: State)
    requires Inv(s) && Shaped(next) && next.control == s.control && next.signals == s.signals && next.memory == s.memory
    requires s.control.main.Reading? && MainPuts(s.control) && SeenWorkers(next) == SeenWorkers(s)
    requires var n := |s.control.workers|;
      M.CallOf(s.jobs.pcs[n]).Put? && M.CallOf(next.jobs.pcs[n]).PutDone? && |s.jobs.ring.Contents()| < P.JOB_CAPACITY
    requires var line := s.control.main.pending[0];
      && JobsOf(s.memory, next.jobs.ring.Contents()) == JobsOf(s.memory, s.jobs.ring.Contents()) + [P.Request(line)]
      && P.LinesOf(JobsOf(s.memory, next.jobs.enqueued)) == P.LinesOf(JobsOf(s.memory, s.jobs.enqueued)) + [line]
    requires next.jobs.dequeued == s.jobs.dequeued
    ensures P.Enabled(Seen(s), P.ByMain(P.PutLine)) && Seen(next) == P.Apply(Seen(s), P.ByMain(P.PutLine))
  {
  }

  lemma SentinelAdded(s: State, next: State)
    requires Inv(s) && Shaped(next) && next.control == s.control && next.signals == s.signals && next.memory == s.memory
    requires s.control.main.Placing? && MainPuts(s.control) && SeenWorkers(next) == SeenWorkers(s)
    requires var n := |s.control.workers|;
      M.CallOf(s.jobs.pcs[n]).Put? && M.CallOf(next.jobs.pcs[n]).PutDone? && |s.jobs.ring.Contents()| < P.JOB_CAPACITY
    requires JobsOf(s.memory, next.jobs.ring.Contents()) == JobsOf(s.memory, s.jobs.ring.Contents()) + [P.Sentinel]
    requires P.LinesOf(JobsOf(s.memory, next.jobs.enqueued)) == P.LinesOf(JobsOf(s.memory, s.jobs.enqueued))
    requires next.jobs.dequeued == s.jobs.dequeued
    ensures P.Enabled(Seen(s), P.ByMain(P.Place)) && Seen(next) == P.Apply(Seen(s), P.ByMain(P.Place))
  {
  }

  // The main thread takes a termination message.
  lemma CommitSignal(s: State, t: nat)
    requires Inv(s) && t == |s.control.workers| && Commits(s.signals, t) && Enabled(s, Step(t, false))
    ensures var p, next := P.ByMain(P.TakeSignal), Apply(s, Step(t, false));
      Inv(next) && P.Enabled(Seen(s), p) && Seen(next) == P.Apply(Seen(s), p)
  {
    var next := Apply(s, Step(t, false));
    StepEffect(s.signals, t);
    TakeEffect(s.signals, t);
    var contents := s.signals.ring.Contents();
    assert SendersOf(contents[1..]) == SendersOf(contents)[1..];
    assert SeenWorkers(next) == SeenWorkers(s);
  }

  lemma CommitIsStep(s: State, t: nat, onJobs: bool)
    requires Inv(s) && Commits(Queue(s, onJobs), t) && Enabled(s, Step(t, onJobs))
    ensures var p, next := Operation(s.control, t, onJobs), Apply(s, Step(t, onJobs));
      Inv(next) && P.Enabled(Seen(s), p) && Seen(next) == P.Apply(Seen(s), p)
  {
    if t < |s.control.workers| {
      if onJobs {
        CommitTake(s, t);
      } else {
        CommitPost(s, t);
      }
    } else if onJobs {
      CommitPut(s, t);
    } else {
      CommitSignal(s, t);
    }
  }

  // ---------------------------------------------------------------- refinement

  // The step of the pool that a step of the threads is, if it is one.
  function PoolSteps(s: State, a: Action): seq<P.Action>
    requires Enabled(s, a)
  {
    match a
    case Local(p) => [p]
    case Step(t, onJobs) => if Commits(Queue(s, onJobs), t) then [Operation(s.control, t, onJobs)] else []
    case _ => []
  }

  // Each step of the threads is that step of the pool one sees in them, or invisible.
  lemma StepRefines(s: State, a: Action)
    requires Inv(s) && Enabled(s, a)
    ensures Inv(Apply(s, a))
    ensures var steps := PoolSteps(s, a);
      if steps == [] then Seen(Apply(s, a)) == Seen(s)
      else P.Enabled(Seen(s), steps[0]) && Seen(Apply(s, a)) == P.Apply(Seen(s), steps[0])
  {
    match a
    case Local(p) =>
      if p.ByMain? {
        LocalByMain(s, p.m);
      } else {
        LocalByWorkerInv(s, p.w, p.act);
        LocalByWorker(s, p.w, p.act);
      }
    case Call(t, onJobs) =>
      CallInv(s, t, onJobs);
      CallSeen(s, t, onJobs);
    case Step(t, onJobs) =>
      if Commits(Queue(s, onJobs), t) {
        CommitIsStep(s, t, onJobs);
      } else if !Returns(Queue(s, onJobs).pcs[t]) {
        InsideKeeps(s, t, onJobs);
      } else if t < |s.control.workers| {
        ReturnByWorker(s, t, onJobs);
      } else {
        ReturnByMain(s, t, onJobs);
      }
    case Wake(t, onJobs) => WakeKeeps(s, t, onJobs);
  }

  lemma {:induction false} InvExec(s: State, run: seq<Action>)
    requires Inv(s) && Feasible(s, run)
    ensures Inv(Exec(s, run))
    decreases |run|
  {
    if run != [] {
      StepRefines(s, run[0]);
      InvExec(Apply(s, run[0]), run[1..]);
    }
  }

  function PoolRun(s: State, run: seq<Action>): seq<P.Action>
    requires Feasible(s, run)
    decreases |run|
  {
    if run == [] then [] else PoolSteps(s, run[0]) + PoolRun(Apply(s, run[0]), run[1..])
  }

  lemma FewSteps(p: P.State, steps: seq<P.Action>)
    requires |steps| <= 1 && (steps != [] ==> P.Enabled(p, steps[0]))
    ensures P.Feasible(p, steps)
    ensures P.Exec(p, steps) == if steps == [] then p else P.Apply(p, steps[0])
  {
    if steps != [] {
      assert steps[1..] == [];
      assert P.Exec(P.Apply(p, steps[0]), []) == P.Apply(p, steps[0]);
    }
  }

  // Every interleaving of the threads, down to the locks and broadcasts of both queues, is a run
  // of the pool one sees in control, rings and memory.
  lemma {:induction false} ThreadsRefinePool(s: State, run: seq<Action>)
    requires Inv(s) && Feasible(s, run)
    ensures P.Feasible(Seen(s), PoolRun(s, run)) && Inv(Exec(s, run))
    ensures P.Exec(Seen(s), PoolRun(s, run)) == Seen(Exec(s, run))
    decreases |run|
  {
    if run != [] {
      var steps, next := PoolSteps(s, run[0]), Apply(s, run[0]);
      StepRefines(s, run[0]);
      FewSteps(Seen(s), steps);
      ThreadsRefinePool(next, run[1..]);
      P.ExecConcat(Seen(s), steps, PoolRun(next, run[1..]));
    }
  }

  // ---------------------------------------------------------------- rest

  // A waiting call that the queue could let through has a thread that brings it nearer.
  lemma SomeoneSteps(q: M.State, t: nat) returns (u: nat)
    requires M.Inv(q) && t < |q.pcs| && Waiting(M.CallOf(q.pcs[t]))
    requires if M.CallOf(q.pcs[t]).Put? then !q.ring.Full() else !q.ring.Empty()
    ensures M.Enabled(q, M.Step(u))
  {
    if q.mutex.Owned? {
      u := q.mutex.holder;
    } else if q.pcs[t].PutWait? {
      u :| u < |q.pcs| && M.Draining(q.pcs[u]);
    } else if q.pcs[t].TakeWait? {
      u :| u < |q.pcs| && M.Filling(q.pcs[u]);
    } else {
      u := t;
    }
  }

  ghost predicate AtRest(s: State) {
    forall a: Action :: !a.Wake? ==> !Enabled(s, a)
  }

  // A thread outside both queues: the pool sees its control.
  lemma OutIsSeen(s: State, p: P.Action)
    requires Inv(s) && P.Enabled(Seen(s), p) && Out(s, Actor(|s.control.workers|, p))
    ensures if IsLocal(p) then P.Enabled(Bare(s.control), p)
            else exists onJobs :: Waiting(Asked(s.control, s.memory, Actor(|s.control.workers|, p), onJobs))
  {
    if p == P.ByMain(P.Join) {
      var k := s.control.main.joined;
      assert WorkerCalls(s.control.workers[k], k, s.memory, M.CallOf(s.jobs.pcs[k]), M.CallOf(s.signals.pcs[k]));
    } else if !IsLocal(p) {
      var onJobs := p == P.ByMain(P.PutLine) || p == P.ByMain(P.Place) || (p.ByWorker? && p.act.Take?);
      assert Waiting(Asked(s.control, s.memory, Actor(|s.control.workers|, p), onJobs));
    }
  }

  // A thread waiting inside a call while the pool can take its next step: the queue has room, or a
  // value, for it.
  lemma WaitingIsServed(s: State, p: P.Action, onJobs: bool)
    requires Inv(s) && P.Enabled(Seen(s), p)
    requires Waiting(M.CallOf(Queue(s, onJobs).pcs[Actor(|s.control.workers|, p)]))
    ensures var q, call := Queue(s, onJobs), M.CallOf(Queue(s, onJobs).pcs[Actor(|s.control.workers|, p)]);
      if call.Put? then !q.ring.Full() else !q.ring.Empty()
  {
    var t := Actor(|s.control.workers|, p);
    if p.ByWorker? {
      assert WorkerCalls(s.control.workers[t], t, s.memory, M.CallOf(s.jobs.pcs[t]), M.CallOf(s.signals.pcs[t]));
      assert SeenWorkers(s)[t] == s.control.workers[t];
    }
  }

  lemma BusyStep(s: State, p: P.Action, onJobs: bool) returns (a: Action)
    requires Inv(s) && P.Enabled(Seen(s), p)
    requires !Queue(s, onJobs).pcs[Actor(|s.control.workers|, p)].Idle?
    ensures a.Step? && Enabled(s, a)
  {
    var q, t := Queue(s, onJobs), Actor(|s.control.workers|, p);
    if Waiting(M.CallOf(q.pcs[t])) {
      WaitingIsServed(s, p, onJobs);
      var u := SomeoneSteps(q, t);
      a := Step(u, onJobs);
    } else {
      a := Step(t, onJobs);
    }
  }

  lemma SomeStep(s: State, p: P.Action) returns (a: Action)
    requires Inv(s) && P.Enabled(Seen(s), p)
    ensures !a.Wake? && Enabled(s, a) && (a.Local? ==> a.p == p)
  {
    var t := Actor(|s.control.workers|, p);
    if !s.jobs.pcs[t].Idle? {
      a := BusyStep(s, p, true);
    } else if !s.signals.pcs[t].Idle? {
      a := BusyStep(s, p, false);
    } else {
      OutIsSeen(s, p);
      if IsLocal(p) {
        a := Local(p);
      } else {
        var onJobs :| Waiting(Asked(s.control, s.memory, t, onJobs));
        a := Call(t, onJobs);
      }
    }
  }

  // Where no thread can step, the pool is stuck: no thread is left sleeping that could go on.
  lemma RestIsStuck(s: State)
    requires Inv(s) && AtRest(s)
    ensures P.Stuck(Seen(s))
  {
    forall p ensures !P.Enabled(Seen(s), p) {
      if P.Enabled(Seen(s), p) {
        var a := SomeStep(s, p);
      }
    }
  }

  // ---------------------------------------------------------------- every interleaving ends

  // The thread is at a queue operation.
  predicate Asks(p: P.State, t: nat) {
    if t < |p.workers| then p.workers[t].Serving? || p.workers[t].Leaving?
    else
      || p.main.InCallback?
      || (p.main.Reading? && p.main.pending != [])
      || (p.main.Placing? && p.main.placed < |p.workers|)
  }

  predicate WaitsIn(q: M.State, t: nat) { t < |q.pcs| && Waiting(M.CallOf(q.pcs[t])) }

  // Thread t still has to make the call it is at.
  predicate Unmet(s: State, t: nat)
    requires Shaped(s)
  {
    Asks(Seen(s), t) && !WaitsIn(s.jobs, t) && !WaitsIn(s.signals, t)
  }

  function Unmets(s: State): (flags: seq<nat>)
    requires Shaped(s)
    ensures |flags| == |s.jobs.pcs|
    ensures forall t :: 0 <= t < |flags| ==> flags[t] == if Unmet(s, t) then 1 else 0
  {
    seq(|s.jobs.pcs|, t requires 0 <= t < |s.jobs.pcs| => if Unmet(s, t) then 1 else 0)
  }

  function Count(flags: seq<nat>): nat { Sums.Sum(flags, (flag: nat) => flag) }

  lemma CountMoves(flags: seq<nat>, next: seq<nat>, t: nat)
    requires |next| == |flags| && t < |flags|
    requires forall u :: 0 <= u < |flags| && u != t ==> next[u] == flags[u]
    ensures Count(next) + flags[t] == Count(flags) + next[t]
  {
    assert next == flags[t := next[t]];
    Sums.SumUpdate(flags, t, next[t], (flag: nat) => flag);
  }

  function CallCost(s: State): nat { 2 * |s.jobs.pcs| + 6 }

  function QueueWork(q: M.State): nat { Sums.Sum(q.pcs, M.Work(|q.pcs|)) }

  function Times(k: nat, x: nat): nat { k * x }

  lemma TimesNext(k: nat, x: nat, y: nat)
    requires x < y
    ensures Times(k, x) + k <= Times(k, y)
  {
    assert k * (y - x - 1) >= 0;
  }

  // A step of the pool pays for one more call, a call for the steps inside it.
  function Total(cost: nat, pool: nat, work: nat, unmet: nat): nat {
    Times(cost + 1, pool) + work + Times(cost, unmet)
  }

  lemma PoolPays(cost: nat, pool: nat, work: nat, unmet: nat, pool': nat, work': nat, unmet': nat)
    requires pool' < pool && work' <= work && unmet' <= unmet + 1
    ensures Total(cost, pool', work', unmet') < Total(cost, pool, work, unmet)
  {
    TimesNext(cost + 1, pool', pool);
    TimesNext(cost, unmet', unmet + 2);
    TimesTwo(cost, unmet);
  }

  lemma TimesTwo(k: nat, x: nat)
    ensures Times(k, x + 2) == Times(k, x) + 2 * k
  {
  }

  lemma CallPays(cost: nat, pool: nat, work: nat, unmet: nat, work': nat, unmet': nat)
    requires work' < work + cost && unmet' + 1 == unmet
    ensures Total(cost, pool, work', unmet') < Total(cost, pool, work, unmet)
  {
    TimesNext(cost, unmet', unmet);
  }

  function Measure(s: State): nat
    requires Shaped(s)
  {
    Total(CallCost(s), P.Measure(Seen(s)), QueueWork(s.jobs) + QueueWork(s.signals), Count(Unmets(s)))
  }

  predicate Quiet(a: Action) { !a.Wake? && (a.Local? ==> P.Quiet(a.p)) }

  // Threads other than t keep asking and waiting as before.
  predicate OthersAsBefore(s: State, next: State, t: nat)
    requires Shaped(s) && Shaped(next)
  {
    && |next.jobs.pcs| == |s.jobs.pcs| && t < |s.jobs.pcs|
    && forall u :: 0 <= u < |s.jobs.pcs| && u != t ==> Unmet(next, u) == Unmet(s, u)
  }

  lemma CostMoves(s: State, next: State, t: nat)
    requires Shaped(s) && Shaped(next) && OthersAsBefore(s, next, t)
    ensures Unmet(s, t) == Unmet(next, t) ==> Count(Unmets(next)) == Count(Unmets(s))
    ensures Unmet(s, t) && !Unmet(next, t) ==> Count(Unmets(next)) + 1 == Count(Unmets(s))
    ensures Count(Unmets(next)) <= Count(Unmets(s)) + 1
  {
    CountMoves(Unmets(s), Unmets(next), t);
  }

  // A step of the pool moves one thread.
  lemma AsksOthers(p: P.State, a: P.Action)
    requires P.Enabled(p, a)
    ensures var t := Actor(|p.workers|, a);
      |P.Apply(p, a).workers| == |p.workers| && t <= |p.workers|
      && forall u :: 0 <= u <= |p.workers| && u != t ==> Asks(P.Apply(p, a), u) == Asks(p, u)
  {
  }

  lemma MeasurePool(s: State, next: State)
    requires Shaped(s) && Shaped(next) && CallCost(next) == CallCost(s)
    requires P.Measure(Seen(next)) < P.Measure(Seen(s)) && Count(Unmets(next)) <= Count(Unmets(s)) + 1
    requires QueueWork(next.jobs) + QueueWork(next.signals) <= QueueWork(s.jobs) + QueueWork(s.signals)
    ensures Measure(next) < Measure(s)
  {
    PoolPays(CallCost(s), P.Measure(Seen(s)), QueueWork(s.jobs) + QueueWork(s.signals), Count(Unmets(s)),
             P.Measure(Seen(next)), QueueWork(next.jobs) + QueueWork(next.signals), Count(Unmets(next)));
  }

  // The pool took a step; only that thread's waiting changed.
  lemma PoolMoved(s: State, next: State, p: P.Action)
    requires Inv(s) && Shaped(next) && |next.jobs.pcs| == |s.jobs.pcs|
    requires P.Enabled(Seen(s), p) && P.Quiet(p) && Seen(next) == P.Apply(Seen(s), p)
    requires forall u :: 0 <= u < |s.jobs.pcs| && u != Actor(|s.control.workers|, p) ==>
      WaitsIn(next.jobs, u) == WaitsIn(s.jobs, u) && WaitsIn(next.signals, u) == WaitsIn(s.signals, u)
    requires QueueWork(next.jobs) + QueueWork(next.signals) <= QueueWork(s.jobs) + QueueWork(s.signals)
    ensures Measure(next) < Measure(s)
  {
    AsksOthers(Seen(s), p);
    P.MeasureDrops(Seen(s), p);
    CostMoves(s, next, Actor(|s.control.workers|, p));
    MeasurePool(s, next);
  }

  lemma MeasureLocal(s: State, p: P.Action)
    requires Inv(s) && Enabled(s, Local(p)) && P.Quiet(p)
    ensures Inv(Apply(s, Local(p))) && Measure(Apply(s, Local(p))) < Measure(s)
  {
    StepRefines(s, Local(p));
    PoolMoved(s, Apply(s, Local(p)), p);
  }

  // A call adds the work inside it.
  lemma CallWork(q: M.State, call: M.Call, t: nat)
    requires M.Inv(q) && t < |q.pcs| && q.pcs[t].Idle? && Waiting(call)
    ensures var n := M.Apply(q, Making(call, t));
      && QueueWork(n) == QueueWork(q) + 2 * |q.pcs| + 5 && |n.pcs| == |q.pcs| && WaitsIn(n, t)
      && forall u :: 0 <= u < |q.pcs| && u != t ==> WaitsIn(n, u) == WaitsIn(q, u)
  {
    var n := M.Apply(q, Making(call, t));
    Sums.SumUpdate(q.pcs, t, n.pcs[t], M.Work(|q.pcs|));
  }

  // A thread has made its call.
  lemma MeasureMet(s: State, next: State)
    requires Shaped(s) && Shaped(next) && Seen(next) == Seen(s) && CallCost(next) == CallCost(s)
    requires Count(Unmets(next)) + 1 == Count(Unmets(s))
    requires QueueWork(next.jobs) + QueueWork(next.signals) < QueueWork(s.jobs) + QueueWork(s.signals) + CallCost(s)
    ensures Measure(next) < Measure(s)
  {
    CallPays(CallCost(s), P.Measure(Seen(s)), QueueWork(s.jobs) + QueueWork(s.signals), Count(Unmets(s)),
             QueueWork(next.jobs) + QueueWork(next.signals), Count(Unmets(next)));
  }

  lemma AskedAsks(s: State, t: nat, onJobs: bool)
    requires Inv(s) && Out(s, t) && Waiting(Asked(s.control, s.memory, t, onJobs))
    ensures Asks(Seen(s), t)
  {
    if t < |s.control.workers| {
      assert SeenWorkers(s)[t] == s.control.workers[t];
    }
  }

  lemma CallMeets(s: State, t: nat, onJobs: bool)
    requires Inv(s) && Enabled(s, Call(t, onJobs)) && Shaped(Apply(s, Call(t, onJobs)))
    requires Seen(Apply(s, Call(t, onJobs))) == Seen(s)
    ensures Count(Unmets(Apply(s, Call(t, onJobs)))) + 1 == Count(Unmets(s))
  {
    CallWork(Queue(s, onJobs), Asked(s.control, s.memory, t, onJobs), t);
    AskedAsks(s, t, onJobs);
    CostMoves(s, Apply(s, Call(t, onJobs)), t);
  }

  lemma MeasureCall(s: State, t: nat, onJobs: bool)
    requires Inv(s) && Enabled(s, Call(t, onJobs))
    ensures Inv(Apply(s, Call(t, onJobs))) && Measure(Apply(s, Call(t, onJobs))) < Measure(s)
  {
    StepRefines(s, Call(t, onJobs));
    CallWork(Queue(s, onJobs), Asked(s.control, s.memory, t, onJobs), t);
    CallMeets(s, t, onJobs);
    MeasureMet(s, Apply(s, Call(t, onJobs)));
  }

  lemma StepWork(q: M.State, t: nat)
    requires M.Inv(q) && M.Enabled(q, M.Step(t))
    ensures var n := M.Apply(q, M.Step(t));
      && QueueWork(n) < QueueWork(q) && |n.pcs| == |q.pcs|
      && (!Commits(q, t) ==> WaitsIn(n, t) == WaitsIn(q, t))
      && forall u :: 0 <= u < |q.pcs| && u != t ==> WaitsIn(n, u) == WaitsIn(q, u)
  {
    M.WorkDrops(q, t);
    StepEffect(q, t);
  }

  // A step the pool does not see: what threads ask and wait for stays.
  lemma MeasureInside(s: State, next: State)
    requires Shaped(s) && Shaped(next) && Seen(next) == Seen(s) && CallCost(next) == CallCost(s)
    requires Unmets(next) == Unmets(s)
    requires QueueWork(next.jobs) + QueueWork(next.signals) < QueueWork(s.jobs) + QueueWork(s.signals)
    ensures Measure(next) < Measure(s)
  {
  }

  lemma UnmetsStay(s: State, next: State)
    requires Shaped(s) && Shaped(next) && Seen(next) == Seen(s) && |next.jobs.pcs| == |s.jobs.pcs|
    requires forall u :: 0 <= u < |s.jobs.pcs| ==>
      WaitsIn(next.jobs, u) == WaitsIn(s.jobs, u) && WaitsIn(next.signals, u) == WaitsIn(s.signals, u)
    ensures Unmets(next) == Unmets(s)
  {
  }

  lemma MeasureStep(s: State, t: nat, onJobs: bool)
    requires Inv(s) && Enabled(s, Step(t, onJobs))
    ensures Inv(Apply(s, Step(t, onJobs))) && Measure(Apply(s, Step(t, onJobs))) < Measure(s)
  {
    StepRefines(s, Step(t, onJobs));
    StepWork(Queue(s, onJobs), t);
    if Commits(Queue(s, onJobs), t) {
      PoolMoved(s, Apply(s, Step(t, onJobs)), Operation(s.control, t, onJobs));
    } else {
      UnmetsStay(s, Apply(s, Step(t, onJobs)));
      MeasureInside(s, Apply(s, Step(t, onJobs)));
    }
  }

  lemma MeasureDrops(s: State, a: Action)
    requires Inv(s) && Enabled(s, a) && Quiet(a)
    ensures Inv(Apply(s, a)) && Measure(Apply(s, a)) < Measure(s)
  {
    match a
    case Local(p) => MeasureLocal(s, p);
    case Call(t, onJobs) => MeasureCall(s, t, onJobs);
    case Step(t, onJobs) => MeasureStep(s, t, onJobs);
    case Wake(_, _) =>
  }

  // Without input, signals and spurious wakeups every interleaving of the threads is finite.
  lemma {:induction false} ThreadsSettle(s: State, run: seq<Action>)
    requires Inv(s) && Feasible(s, run) && forall i :: 0 <= i < |run| ==> Quiet(run[i])
    ensures Inv(Exec(s, run)) && |run| + Measure(Exec(s, run)) <= Measure(s)
    decreases |run|
  {
    if run != [] {
      MeasureDrops(s, run[0]);
      assert forall i :: 0 <= i < |run[1..]| ==> run[1..][i] == run[i + 1];
      ThreadsSettle(Apply(s, run[0]), run[1..]);
    }
  }
}
