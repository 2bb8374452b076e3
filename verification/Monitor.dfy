/** The monitor around the ring buffer of queue.c: one mutex, two condition variables, broadcast
    after unlock, waiting loops, spurious wakeups, any number of producers and consumers.
    It is shown to be a blocking FIFO queue whose operations are atomic. */
module Monitor {
  import opened Sums
  import opened RingBuffer

  datatype Value = Null | Pointer(address: nat)

  // Where a thread is inside queue_enqueue (Put...) or queue_dequeue (Take...).
  datatype Pc =
    | Idle
    | PutLock(value: Value)        // before acquiring the mutex, first or after a wakeup
    | PutTest(value: Value)        // holds the mutex, at the loop test
    | PutWait(value: Value)        // asleep on cond_full
    | PutUnlock                    // holds the mutex, value stored
    | PutBroadcast                 // released the mutex, before broadcasting cond_empty
    | TakeLock
    | TakeTest
    | TakeWait                     // asleep on cond_empty
    | TakeUnlock(value: Value)
    | TakeBroadcast(value: Value)

  datatype Mutex = Free | Owned(holder: nat)

  datatype State = State(
    ring: Ring<Value>,
    mutex: Mutex,
    pcs: seq<Pc>,
    enqueued: seq<Value>,
    dequeued: seq<Value>
  )

  datatype Action =
    | Step(t: nat)                 // the next step of thread t inside a call
    | Wake(t: nat)                 // spurious wakeup
    | CallPut(t: nat, value: Value)
    | CallTake(t: nat)

  predicate StepEnabled(s: State, pc: Pc) {
    match pc
    case Idle => false
    case PutWait(_) => false
    case TakeWait => false
    case PutLock(_) => s.mutex.Free?
    case TakeLock => s.mutex.Free?
    case _ => true
  }

  predicate Enabled(s: State, a: Action) {
    match a
    case Step(t) => t < |s.pcs| && StepEnabled(s, s.pcs[t])
    case Wake(t) => t < |s.pcs| && (s.pcs[t].PutWait? || s.pcs[t].TakeWait?)
    case CallPut(t, _) => t < |s.pcs| && s.pcs[t].Idle?
    case CallTake(t) => t < |s.pcs| && s.pcs[t].Idle?
  }

  function Awake(pc: Pc): Pc {
    match pc
    case PutWait(v) => PutLock(v)
    case TakeWait => TakeLock
    case _ => pc
  }

  // pthread_cond_broadcast on cond_empty (takers) or cond_full.
  function WakeAll(pcs: seq<Pc>, takers: bool): (woken: seq<Pc>)
    ensures |woken| == |pcs|
    ensures forall i :: 0 <= i < |pcs| ==>
      woken[i] == if (if takers then pcs[i].TakeWait? else pcs[i].PutWait?) then Awake(pcs[i]) else pcs[i]
  {
    seq(|pcs|, i requires 0 <= i < |pcs| =>
      if (if takers then pcs[i].TakeWait? else pcs[i].PutWait?) then Awake(pcs[i]) else pcs[i])
  }

  function StepApply(s: State, t: nat): State
    requires s.ring.Valid() && t < |s.pcs| && StepEnabled(s, s.pcs[t])
  {
    match s.pcs[t]
    case PutLock(v) => s.(mutex := Owned(t), pcs := s.pcs[t := PutTest(v)])
    case PutTest(v) =>
      if s.ring.Full() then s.(mutex := Free, pcs := s.pcs[t := PutWait(v)])
      else s.(ring := s.ring.Put(v), pcs := s.pcs[t := PutUnlock], enqueued := s.enqueued + [v])
    case PutUnlock => s.(mutex := Free, pcs := s.pcs[t := PutBroadcast])
    case PutBroadcast => s.(pcs := WakeAll(s.pcs, true)[t := Idle])
    case TakeLock => s.(mutex := Owned(t), pcs := s.pcs[t := TakeTest])
    case TakeTest =>
      if s.ring.Empty() then s.(mutex := Free, pcs := s.pcs[t := TakeWait])
      else s.(ring := s.ring.Drop(), pcs := s.pcs[t := TakeUnlock(s.ring.Front())],
              dequeued := s.dequeued + [s.ring.Front()])
    case TakeUnlock(v) => s.(mutex := Free, pcs := s.pcs[t := TakeBroadcast(v)])
    case TakeBroadcast(_) => s.(pcs := WakeAll(s.pcs, false)[t := Idle])
  }

  function Apply(s: State, a: Action): State
    requires s.ring.Valid() && Enabled(s, a)
  {
    match a
    case Step(t) => StepApply(s, t)
    case Wake(t) => s.(pcs := s.pcs[t := Awake(s.pcs[t])])
    case CallPut(t, v) => s.(pcs := s.pcs[t := PutLock(v)])
    case CallTake(t) => s.(pcs := s.pcs[t := TakeLock])
  }

  function Initial(threads: nat, capacity: nat): State
    requires capacity >= 1
  {
    State(Ring(seq(capacity, _ => Null), 0, 0, 0), Free, seq(threads, _ => Idle), [], [])
  }

  // A thread woken for no reason waits for the mutex again and then repeats its test.
  lemma WokenTestsAgain(s: State, t: nat)
    requires s.ring.Valid() && Enabled(s, Wake(t)) && s.mutex.Free?
    ensures var n := Apply(s, Wake(t)); Enabled(n, Step(t))
    ensures var n := Apply(Apply(s, Wake(t)), Step(t));
      n.pcs[t] == if s.pcs[t].PutWait? then PutTest(s.pcs[t].value) else TakeTest
  {
  }

  // ---------------------------------------------------------------- invariant

  predicate Holding(pc: Pc) { pc.PutTest? || pc.PutUnlock? || pc.TakeTest? || pc.TakeUnlock? }
  predicate Filling(pc: Pc) { pc.PutUnlock? || pc.PutBroadcast? }
  predicate Draining(pc: Pc) { pc.TakeUnlock? || pc.TakeBroadcast? }

  ghost predicate MutualExclusion(s: State) {
    forall t :: 0 <= t < |s.pcs| ==> (Holding(s.pcs[t]) <==> s.mutex == Owned(t))
  }

  ghost predicate SomeFilling(pcs: seq<Pc>) { exists u :: 0 <= u < |pcs| && Filling(pcs[u]) }
  ghost predicate SomeDraining(pcs: seq<Pc>) { exists u :: 0 <= u < |pcs| && Draining(pcs[u]) }

  // Whoever sleeps although it could proceed will be woken: some thread has stored (removed)
  // a value and not broadcast yet.
  ghost predicate NoneLost(s: State) {
    && (forall t :: 0 <= t < |s.pcs| && s.pcs[t].TakeWait? && !s.ring.Empty() ==> SomeFilling(s.pcs))
    && (forall t :: 0 <= t < |s.pcs| && s.pcs[t].PutWait? && !s.ring.Full() ==> SomeDraining(s.pcs))
  }

  ghost predicate Inv(s: State) {
    && s.ring.Valid()
    && s.enqueued == s.dequeued + s.ring.Contents()
    && (s.mutex.Owned? ==> s.mutex.holder < |s.pcs|)
    && MutualExclusion(s)
    && NoneLost(s)
  }

  lemma InvInitial(threads: nat, capacity: nat)
    requires capacity >= 1
    ensures Inv(Initial(threads, capacity))
  {
  }

  // The ring and the histories.
  lemma RingStep(s: State, a: Action)
    requires Inv(s) && Enabled(s, a)
    ensures var n := Apply(s, a);
      n.ring.Valid() && |n.ring.slots| == |s.ring.slots| && n.enqueued == n.dequeued + n.ring.Contents()
  {
    if a.Step? && s.pcs[a.t].PutTest? && !s.ring.Full() {
      PutAppends(s.ring, s.pcs[a.t].value);
    } else if a.Step? && s.pcs[a.t].TakeTest? && !s.ring.Empty() {
      DropRemoves(s.ring);
    }
  }

  lemma NoneLostStep(s: State, a: Action)
    requires Inv(s) && Enabled(s, a)
    ensures NoneLost(Apply(s, a))
  {
    var n := Apply(s, a);
    assert Filling(n.pcs[a.t]) ==> SomeFilling(n.pcs);
    assert Draining(n.pcs[a.t]) ==> SomeDraining(n.pcs);
    if SomeFilling(s.pcs) && s.pcs[a.t] != PutBroadcast {
      var u :| 0 <= u < |s.pcs| && Filling(s.pcs[u]);
      assert Filling(n.pcs[u]);
    }
    if SomeDraining(s.pcs) && !s.pcs[a.t].TakeBroadcast? {
      var u :| 0 <= u < |s.pcs| && Draining(s.pcs[u]);
      assert Draining(n.pcs[u]);
    }
  }

  lemma InvStep(s: State, a: Action)
    requires Inv(s) && Enabled(s, a)
    ensures Inv(Apply(s, a))
  {
    RingStep(s, a);
    NoneLostStep(s, a);
  }

  predicate Feasible(s: State, run: seq<Action>)
    requires s.ring.Valid()
    decreases |run|
  {
    run == [] || (Enabled(s, run[0]) && Apply(s, run[0]).ring.Valid() && Feasible(Apply(s, run[0]), run[1..]))
  }

  function Exec(s: State, run: seq<Action>): (t: State)
    requires s.ring.Valid() && Feasible(s, run)
    ensures t.ring.Valid()
    decreases |run|
  {
    if run == [] then s else Exec(Apply(s, run[0]), run[1..])
  }

  lemma {:induction false} InvExec(s: State, run: seq<Action>)
    requires Inv(s) && Feasible(s, run)
    ensures Inv(Exec(s, run))
    decreases |run|
  {
    if run != [] {
      InvStep(s, run[0]);
      InvExec(Apply(s, run[0]), run[1..]);
    }
  }

  // The validity test in Feasible never stops a run.
  lemma EnabledExtends(s: State, a: Action)
    requires Inv(s) && Enabled(s, a)
    ensures Feasible(s, [a])
  {
    InvStep(s, a);
    assert [a][1..] == [];
  }

  // No lost wakeup, mutual exclusion and FIFO order in every reachable state of any number
  // of threads over a queue of any capacity.
  lemma NoLostWakeup(threads: nat, capacity: nat, run: seq<Action>)
    requires capacity >= 1 && Feasible(Initial(threads, capacity), run)
    ensures var s := Exec(Initial(threads, capacity), run);
      && NoneLost(s) && MutualExclusion(s)
      && s.ring.Valid() && s.enqueued == s.dequeued + s.ring.Contents()
  {
    InvInitial(threads, capacity);
    InvExec(Initial(threads, capacity), run);
  }

  // ---------------------------------------------------------------- refinement

  // What a caller sees of its call.
  datatype Call = NoCall | Put(value: Value) | Take | PutDone | TakeDone(value: Value)

  // A FIFO queue with atomic, blocking operations.
  datatype Fifo = Fifo(capacity: nat, contents: seq<Value>, calls: seq<Call>)

  // One atomic event of thread t.
  predicate FifoEvent(q: Fifo, t: nat, r: Fifo)
    requires t < |q.calls|
  {
    match q.calls[t]
    case NoCall => t < |r.calls| && (r.calls[t].Put? || r.calls[t].Take?)
      && r == q.(calls := q.calls[t := r.calls[t]])
    case Put(v) => |q.contents| < q.capacity
      && r == q.(contents := q.contents + [v], calls := q.calls[t := PutDone])
    case Take => q.contents != []
      && r == q.(contents := q.contents[1..], calls := q.calls[t := TakeDone(q.contents[0])])
    case PutDone => r == q.(calls := q.calls[t := NoCall])
    case TakeDone(_) => r == q.(calls := q.calls[t := NoCall])
  }

  function CallOf(pc: Pc): Call {
    match pc
    case Idle => NoCall
    case PutLock(v) => Put(v)
    case PutTest(v) => Put(v)
    case PutWait(v) => Put(v)
    case PutUnlock => PutDone
    case PutBroadcast => PutDone
    case TakeLock => Take
    case TakeTest => Take
    case TakeWait => Take
    case TakeUnlock(v) => TakeDone(v)
    case TakeBroadcast(v) => TakeDone(v)
  }

  function Abstract(s: State): Fifo
    requires s.ring.Valid()
  {
    Fifo(|s.ring.slots|, s.ring.Contents(), seq(|s.pcs|, i requires 0 <= i < |s.pcs| => CallOf(s.pcs[i])))
  }

  // Each step of the monitor is invisible or one atomic event of the queue.
  lemma StepRefines(s: State, a: Action)
    requires Inv(s) && Enabled(s, a)
    ensures Apply(s, a).ring.Valid()
    ensures Abstract(Apply(s, a)) == Abstract(s) || FifoEvent(Abstract(s), a.t, Abstract(Apply(s, a)))
  {
    RingStep(s, a);
    var n := Apply(s, a);
    var call := CallOf(n.pcs[a.t]);
    assert Abstract(n).calls == Abstract(s).calls[a.t := call];
    if a.Step? && s.pcs[a.t].PutTest? && !s.ring.Full() {
      PutAppends(s.ring, s.pcs[a.t].value);
    } else if a.Step? && s.pcs[a.t].TakeTest? && !s.ring.Empty() {
      DropRemoves(s.ring);
      assert s.ring.Contents()[1..] == n.ring.Contents();
    } else {
      assert Abstract(n).contents == Abstract(s).contents;
      if CallOf(s.pcs[a.t]) == call {
        assert Abstract(n).calls == Abstract(s).calls;
      }
    }
  }

  // The abstract queue states along a run.
  function Observed(s: State, run: seq<Action>): (trace: seq<Fifo>)
    requires s.ring.Valid() && Feasible(s, run)
    ensures |trace| == |run| + 1
    decreases |run|
  {
    [Abstract(s)] + if run == [] then [] else Observed(Apply(s, run[0]), run[1..])
  }

  // Every interleaving of the monitor is, step by step, a run of the atomic queue.
  lemma {:induction false} MonitorRefinesFifo(s: State, run: seq<Action>)
    requires Inv(s) && Feasible(s, run)
    ensures forall i :: 0 <= i < |run| ==>
      var q, r := Observed(s, run)[i], Observed(s, run)[i + 1];
      q == r || (run[i].t < |q.calls| && FifoEvent(q, run[i].t, r))
    decreases |run|
  {
    if run != [] {
      StepRefines(s, run[0]);
      InvStep(s, run[0]);
      MonitorRefinesFifo(Apply(s, run[0]), run[1..]);
      var rest := Observed(Apply(s, run[0]), run[1..]);
      assert rest[0] == Abstract(Apply(s, run[0]));
      forall i | 0 <= i < |run|
        ensures var q, r := Observed(s, run)[i], Observed(s, run)[i + 1];
          q == r || (run[i].t < |q.calls| && FifoEvent(q, run[i].t, r))
      {
        if i > 0 {
          assert Observed(s, run)[i] == rest[i - 1] && Observed(s, run)[i + 1] == rest[i];
          assert run[i] == run[1..][i - 1];
        }
      }
    }
  }

  // ---------------------------------------------------------------- progress

  // The work left in a call; a broadcast pays for all the wakeups it causes.
  function Work(threads: nat): Pc -> nat {
    (pc: Pc) =>
      match pc
      case Idle => 0
      case PutBroadcast => 2 * threads + 1
      case TakeBroadcast(_) => 2 * threads + 1
      case PutUnlock => 2 * threads + 2
      case TakeUnlock(_) => 2 * threads + 2
      case PutWait(_) => 2 * threads + 3
      case TakeWait => 2 * threads + 3
      case PutTest(_) => 2 * threads + 4
      case TakeTest => 2 * threads + 4
      case PutLock(_) => 2 * threads + 5
      case TakeLock => 2 * threads + 5
  }

  lemma {:induction false} WakingCosts(pcs: seq<Pc>, woken: seq<Pc>, threads: nat)
    requires |woken| == |pcs|
    requires forall i :: 0 <= i < |pcs| ==> woken[i] == pcs[i] || woken[i] == Awake(pcs[i])
    ensures Sum(woken, Work(threads)) <= Sum(pcs, Work(threads)) + 2 * |pcs|
  {
    if pcs != [] {
      assert woken[0] == pcs[0] || woken[0] == Awake(pcs[0]);
      forall i | 0 <= i < |pcs[1..]|
        ensures woken[1..][i] == pcs[1..][i] || woken[1..][i] == Awake(pcs[1..][i])
      {
        assert woken[i + 1] == pcs[i + 1] || woken[i + 1] == Awake(pcs[i + 1]);
      }
      WakingCosts(pcs[1..], woken[1..], threads);
    }
  }

  lemma WorkDrops(s: State, t: nat)
    requires Inv(s) && Enabled(s, Step(t))
    ensures var f := Work(|s.pcs|); Sum(Apply(s, Step(t)).pcs, f) < Sum(s.pcs, f)
  {
    var f := Work(|s.pcs|);
    var pc := s.pcs[t];
    if pc.PutBroadcast? || pc.TakeBroadcast? {
      var woken := WakeAll(s.pcs, pc.PutBroadcast?);
      WakingCosts(s.pcs, woken, |s.pcs|);
      SumUpdate(woken, t, Idle, f);
    } else {
      SumUpdate(s.pcs, t, Apply(s, Step(t)).pcs[t], f);
    }
  }

  // Without new calls and spurious wakeups every interleaving is finite.
  lemma {:induction false} CallsSettle(s: State, run: seq<Action>)
    requires Inv(s) && Feasible(s, run) && forall i :: 0 <= i < |run| ==> run[i].Step?
    ensures |run| <= Sum(s.pcs, Work(|s.pcs|))
    decreases |run|
  {
    if run != [] {
      WorkDrops(s, run[0].t);
      InvStep(s, run[0]);
      assert forall i :: 0 <= i < |run[1..]| ==> run[1..][i] == run[i + 1];
      CallsSettle(Apply(s, run[0]), run[1..]);
    }
  }

  // When no thread can take a step, the mutex is free and every call in progress is one the
  // atomic queue itself would block: all putters face a full queue, all takers an empty one.
  lemma OnlyBlockedCallsSleep(threads: nat, capacity: nat, run: seq<Action>)
    requires capacity >= 1 && Feasible(Initial(threads, capacity), run)
    requires forall t :: !Enabled(Exec(Initial(threads, capacity), run), Step(t))
    ensures var s := Exec(Initial(threads, capacity), run);
      && s.mutex.Free?
      && forall t :: 0 <= t < |s.pcs| ==>
           match Abstract(s).calls[t]
           case NoCall => true
           case Put(_) => |Abstract(s).contents| == Abstract(s).capacity
           case Take => Abstract(s).contents == []
           case _ => false
  {
    InvInitial(threads, capacity);
    InvExec(Initial(threads, capacity), run);
    var s := Exec(Initial(threads, capacity), run);
    forall u: nat | u < |s.pcs|
      ensures !StepEnabled(s, s.pcs[u]) && s.mutex != Owned(u)
    {
      assert !Enabled(s, Step(u));
    }
  }
}
