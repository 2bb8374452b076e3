/** The two queues of the pool are the blocking FIFO queues of module Monitor: every step of the
    pool is, on each queue, a sequence of atomic events of the acting thread. */
module PoolQueues {
  import P = Pool
  import M = Monitor

  // Where the line buffers are in memory.
  type Addresses = P.Line -> nat

  function PointerTo(at: Addresses, job: P.Job): M.Value {
    if job.Sentinel? then M.Null else M.Pointer(at(job.line))
  }

  function Pointers(at: Addresses, jobs: seq<P.Job>): (values: seq<M.Value>)
    ensures |values| == |jobs|
  {
    seq(|jobs|, i requires 0 <= i < |jobs| => PointerTo(at, jobs[i]))
  }

  // ---------------------------------------------------------------- calls in progress

  // Thread i is worker i; the main thread comes last.
  function Actor(s: P.State, a: P.Action): nat { if a.ByWorker? then a.w else |s.workers| }

  function MainJobCall(at: Addresses, s: P.State): M.Call {
    match s.main
    case Reading(pending) => if pending == [] then M.NoCall else M.Put(PointerTo(at, P.Request(pending[0])))
    case Placing(k) => if k < |s.workers| then M.Put(M.Null) else M.NoCall
    case _ => M.NoCall
  }

  function WorkerJobCall(w: P.Worker): M.Call { if w.Serving? then M.Take else M.NoCall }

  function JobQueue(at: Addresses, s: P.State): M.Fifo {
    M.Fifo(P.JOB_CAPACITY, Pointers(at, s.jobs),
           seq(|s.workers|, i requires 0 <= i < |s.workers| => WorkerJobCall(s.workers[i])) + [MainJobCall(at, s)])
  }

  function Messages(signals: seq<nat>): (values: seq<M.Value>)
    ensures |values| == |signals|
  {
    seq(|signals|, i requires 0 <= i < |signals| => M.Pointer(signals[i]))
  }

  function WorkerSignalCall(i: nat, w: P.Worker): M.Call {
    if w.Leaving? then M.Put(M.Pointer(i)) else M.NoCall
  }

  function SignalQueue(s: P.State): M.Fifo {
    M.Fifo(P.SIGNAL_CAPACITY, Messages(s.signals),
           seq(|s.workers|, i requires 0 <= i < |s.workers| => WorkerSignalCall(i, s.workers[i]))
           + [if s.main.InCallback? then M.Take else M.NoCall])
  }

  // ---------------------------------------------------------------- events

  // Thread t leads from one queue state to another by events of its own.
  ghost predicate Leads(trace: seq<M.Fifo>, t: nat, q: M.Fifo, r: M.Fifo) {
    && trace != [] && trace[0] == q && trace[|trace| - 1] == r
    && forall i :: 0 <= i < |trace| - 1 ==> t < |trace[i].calls| && M.FifoEvent(trace[i], t, trace[i + 1])
  }

  // What a call of thread t may turn into next: nothing, or a call.
  predicate Fresh(call: M.Call) { call.NoCall? || call.Put? || call.Take? }

  // Making a call, if any.
  lemma Calling(q: M.Fifo, t: nat, call: M.Call) returns (trace: seq<M.Fifo>)
    requires t < |q.calls| && q.calls[t].NoCall? && Fresh(call)
    ensures Leads(trace, t, q, q.(calls := q.calls[t := call]))
  {
    var r := q.(calls := q.calls[t := call]);
    trace := if call.NoCall? then [q] else [q, r];
    assert call.NoCall? ==> r.calls == q.calls;
  }

  // An event in front of a sequence of events.
  lemma Cons(q: M.Fifo, t: nat, r: M.Fifo, rest: seq<M.Fifo>, end: M.Fifo) returns (trace: seq<M.Fifo>)
    requires t < |q.calls| && M.FifoEvent(q, t, r) && Leads(rest, t, r, end)
    ensures Leads(trace, t, q, end)
  {
    trace := [q] + rest;
  }

  // Completing a put for which there is room, returning, and making the next call.
  lemma Putting(q: M.Fifo, t: nat, call: M.Call) returns (trace: seq<M.Fifo>)
    requires t < |q.calls| && q.calls[t].Put? && |q.contents| < q.capacity && Fresh(call)
    ensures Leads(trace, t, q, q.(contents := q.contents + [q.calls[t].value], calls := q.calls[t := call]))
  {
    var done := q.(contents := q.contents + [q.calls[t].value], calls := q.calls[t := M.PutDone]);
    var back := done.(calls := done.calls[t := M.NoCall]);
    trace := Calling(back, t, call);
    assert back.calls[t := call] == q.calls[t := call];
    trace := Cons(done, t, back, trace, back.(calls := back.calls[t := call]));
    trace := Cons(q, t, done, trace, back.(calls := back.calls[t := call]));
  }

  // Completing a take for which there is a value, and returning with the oldest one.
  lemma Taking(q: M.Fifo, t: nat) returns (trace: seq<M.Fifo>)
    requires t < |q.calls| && q.calls[t].Take? && q.contents != []
    ensures Leads(trace, t, q, q.(contents := q.contents[1..], calls := q.calls[t := M.NoCall]))
  {
    var done := q.(contents := q.contents[1..], calls := q.calls[t := M.TakeDone(q.contents[0])]);
    var back := done.(calls := done.calls[t := M.NoCall]);
    assert back.calls == q.calls[t := M.NoCall];
    trace := [q, done, back];
  }

  // ---------------------------------------------------------------- the job queue

  lemma JobsByMain(at: Addresses, s: P.State, m: P.MainAction) returns (trace: seq<M.Fifo>)
    requires P.MainEnabled(s, m)
    ensures Leads(trace, |s.workers|, JobQueue(at, s), JobQueue(at, P.MainApply(s, m)))
  {
    var q, t := JobQueue(at, s), P.MainApply(s, m);
    var r, call := JobQueue(at, t), MainJobCall(at, t);
    assert r.calls == q.calls[|s.workers| := call];
    if m.PutLine? || m.Place? {
      assert r.contents == q.contents + [q.calls[|s.workers|].value];
      trace := Putting(q, |s.workers|, call);
    } else {
      trace := Calling(q, |s.workers|, call);
    }
  }

  lemma JobsByWorker(at: Addresses, s: P.State, w: nat, act: P.WorkerAction) returns (trace: seq<M.Fifo>)
    requires P.Enabled(s, P.ByWorker(w, act))
    ensures Leads(trace, w, JobQueue(at, s), JobQueue(at, P.Apply(s, P.ByWorker(w, act))))
  {
    var q, t := JobQueue(at, s), P.Apply(s, P.ByWorker(w, act));
    var r, call := JobQueue(at, t), WorkerJobCall(t.workers[w]);
    assert r.calls == q.calls[w := call];
    if act.Take? {
      assert r.contents == q.contents[1..];
      trace := Taking(q, w);
    } else {
      trace := Calling(q, w, call);
    }
  }

  // Every step of the pool is, on the job queue, a sequence of events of the acting thread.
  lemma JobStepIsFifo(at: Addresses, s: P.State, a: P.Action) returns (trace: seq<M.Fifo>)
    requires P.Enabled(s, a)
    ensures Leads(trace, Actor(s, a), JobQueue(at, s), JobQueue(at, P.Apply(s, a)))
  {
    match a
    case ByMain(m) => trace := JobsByMain(at, s, m);
    case ByWorker(w, act) => trace := JobsByWorker(at, s, w, act);
  }

  // A thread of the pool waits at the job queue exactly as long as the queue blocks its call.
  lemma JobCallsBlockAlike(at: Addresses, s: P.State, t: nat)
    requires t <= |s.workers| && !JobQueue(at, s).calls[t].NoCall?
    ensures var q := JobQueue(at, s);
      (q.calls[t].Put? && |q.contents| < q.capacity) || (q.calls[t].Take? && q.contents != [])
      <==> exists a :: Actor(s, a) == t && P.Enabled(s, a)
                       && (a in {P.ByMain(P.PutLine), P.ByMain(P.Place), P.ByWorker(t, P.Take)})
  {
    var q := JobQueue(at, s);
    if t == |s.workers| {
      assert q.calls[t] == MainJobCall(at, s);
      assert Actor(s, P.ByMain(P.PutLine)) == t && Actor(s, P.ByMain(P.Place)) == t;
    } else {
      assert q.calls[t] == WorkerJobCall(s.workers[t]);
      assert Actor(s, P.ByWorker(t, P.Take)) == t;
    }
  }

  // ---------------------------------------------------------------- the signal queue

  lemma SignalsByMain(s: P.State, m: P.MainAction) returns (trace: seq<M.Fifo>)
    requires P.MainEnabled(s, m)
    ensures Leads(trace, |s.workers|, SignalQueue(s), SignalQueue(P.MainApply(s, m)))
  {
    var q, t := SignalQueue(s), P.MainApply(s, m);
    var r, call := SignalQueue(t), if t.main.InCallback? then M.Take else M.NoCall;
    assert r.calls == q.calls[|s.workers| := call];
    if m.TakeSignal? {
      assert r.contents == q.contents[1..];
      trace := Taking(q, |s.workers|);
    } else {
      trace := Calling(q, |s.workers|, call);
    }
  }

  lemma SignalsByWorker(s: P.State, w: nat, act: P.WorkerAction) returns (trace: seq<M.Fifo>)
    requires P.Enabled(s, P.ByWorker(w, act))
    ensures Leads(trace, w, SignalQueue(s), SignalQueue(P.Apply(s, P.ByWorker(w, act))))
  {
    var q, t := SignalQueue(s), P.Apply(s, P.ByWorker(w, act));
    var r, call := SignalQueue(t), WorkerSignalCall(w, t.workers[w]);
    assert r.calls == q.calls[w := call];
    if act.PostSignal? {
      assert r.contents == q.contents + [M.Pointer(w)];
      trace := Putting(q, w, call);
    } else {
      trace := Calling(q, w, call);
    }
  }

  // The same for the queue of termination messages.
  lemma SignalStepIsFifo(s: P.State, a: P.Action) returns (trace: seq<M.Fifo>)
    requires P.Enabled(s, a)
    ensures Leads(trace, Actor(s, a), SignalQueue(s), SignalQueue(P.Apply(s, a)))
  {
    match a
    case ByMain(m) => trace := SignalsByMain(s, m);
    case ByWorker(w, act) => trace := SignalsByWorker(s, w, act);
  }
}
