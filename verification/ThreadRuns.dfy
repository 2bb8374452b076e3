/** What holds of whole runs of the threads over the two queues: shutdown, the event loop, and which
    lines are answered (src/core/main.c, src/thirdparty/c-pthread-queue/queue.c). */
module ThreadRuns {
  import Sums
  import L = LoopPhase
  import M = Monitor
  import P = Pool
  import opened Threads

  // The pool seen along a run of the threads is reachable.
  lemma Reachable(n: nat, run: seq<Action>)
    requires Feasible(Initial(n), run)
    ensures P.Feasible(P.Initial(n), PoolRun(Initial(n), run)) && Inv(Exec(Initial(n), run))
    ensures P.Exec(P.Initial(n), PoolRun(Initial(n), run)) == Seen(Exec(Initial(n), run))
    ensures L.Sound(Seen(Exec(Initial(n), run))) && |Seen(Exec(Initial(n), run)).workers| == n
  {
    InvInitial(n);
    ThreadsRefinePool(Initial(n), run);
    L.Reachable(n, PoolRun(Initial(n), run));
  }

  // A finished pool is a finished main thread.
  lemma FinishedIsSeen(s: State)
    requires Inv(s)
    ensures Seen(s).main.Finished? <==> s.control.main.Finished?
  {
  }

  lemma {:induction false} ExecConcat(s: State, a: seq<Action>, b: seq<Action>)
    requires Feasible(s, a) && Feasible(Exec(s, a), b)
    ensures Feasible(s, a + b) && Exec(s, a + b) == Exec(Exec(s, a), b)
    decreases |a|
  {
    if a == [] {
      assert a + b == b;
    } else {
      assert (a + b)[1..] == a[1..] + b;
      ExecConcat(Apply(s, a[0]), a[1..], b);
    }
  }

  // ---------------------------------------------------------------- lines

  // The lines each reading step of a run brings.
  function Inputs(run: seq<Action>): seq<seq<Line>> {
    if run == [] then []
    else (if run[0].Local? then P.Inputs([run[0].p]) else []) + Inputs(run[1..])
  }

  lemma {:induction false} PoolInputsConcat(a: seq<P.Action>, b: seq<P.Action>)
    ensures P.Inputs(a + b) == P.Inputs(a) + P.Inputs(b)
  {
    if a == [] {
      assert a + b == b;
    } else {
      assert (a + b)[1..] == a[1..] + b;
      PoolInputsConcat(a[1..], b);
    }
  }

  lemma StepInputs(s: State, a: Action)
    requires Enabled(s, a)
    ensures P.Inputs(PoolSteps(s, a)) == if a.Local? then P.Inputs([a.p]) else []
  {
    var steps := PoolSteps(s, a);
    if steps != [] {
      assert steps == [steps[0]] && steps[1..] == [] && P.Inputs(steps[1..]) == [];
    }
  }

  lemma {:induction false} SameInputs(s: State, run: seq<Action>)
    requires Feasible(s, run)
    ensures P.Inputs(PoolRun(s, run)) == Inputs(run)
    decreases |run|
  {
    if run != [] {
      StepInputs(s, run[0]);
      PoolInputsConcat(PoolSteps(s, run[0]), PoolRun(Apply(s, run[0]), run[1..]));
      SameInputs(Apply(s, run[0]), run[1..]);
    }
  }

  // The lines behind the pointers in a sequence of queue values.
  function LinesOf(s: State, values: seq<M.Value>): seq<Line> {
    P.LinesOf(JobsOf(s.memory, values))
  }

  // The lines put on the queue, then those still being read, are the ones given; the queue hands out
  // what was put, in order; and each line handed out is held by one worker or answered, once.
  ghost predicate Conserved(s: State, read: seq<Line>) {
    && Shaped(s)
    && LinesOf(s, s.jobs.enqueued) + P.BeingRead(Seen(s)) == read
    && s.jobs.enqueued == s.jobs.dequeued + s.jobs.ring.Contents()
    && P.HeldOnce(LinesOf(s, s.jobs.dequeued), SeenWorkers(s), s.control.answered)
  }

  lemma SeenHistories(s: State)
    requires Shaped(s)
    ensures Seen(s).received == LinesOf(s, s.jobs.enqueued) && Seen(s).taken == LinesOf(s, s.jobs.dequeued)
    ensures Seen(s).answered == s.control.answered && Seen(s).workers == SeenWorkers(s)
    ensures Seen(s).jobs == JobsOf(s.memory, s.jobs.ring.Contents())
  {
  }

  lemma ConservedState(s: State, read: seq<Line>)
    requires Inv(s) && P.HeldOnce(Seen(s).taken, Seen(s).workers, Seen(s).answered)
    requires Seen(s).received + P.BeingRead(Seen(s)) == read
    ensures Conserved(s, read)
  {
    SeenHistories(s);
  }

  // In every reachable state, the lines are those the main thread read.
  lemma LinesOverQueues(n: nat, run: seq<Action>)
    requires Feasible(Initial(n), run)
    ensures Conserved(Exec(Initial(n), run), P.Flat(Inputs(run)))
  {
    var s := Exec(Initial(n), run);
    Reachable(n, run);
    SameInputs(Initial(n), run);
    P.ReceivedIsInput(P.Initial(n), PoolRun(Initial(n), run));
    assert [] + P.Flat(Inputs(run)) == P.Flat(Inputs(run));
    ConservedState(s, P.Flat(Inputs(run)));
  }

  // Once all workers are joined, the lines answered are those the main thread read, each exactly
  // once, if and only if some worker served or there was none; and then all were handed out.
  lemma ThreadsAnswerOnce(n: nat, run: seq<Action>)
    requires Feasible(Initial(n), run) && Exec(Initial(n), run).control.main.Finished?
    ensures AnsweredOnce(Exec(Initial(n), run), P.Flat(Inputs(run)))
  {
    var s := Exec(Initial(n), run);
    Reachable(n, run);
    LinesOverQueues(n, run);
    FinishedIsSeen(s);
    FinishedWorkers(s);
    P.EveryLineAnsweredOnce(n, PoolRun(Initial(n), run));
    FinishedLines(s, P.Flat(Inputs(run)));
  }

  predicate AnsweredOnce(s: State, lines: seq<Line>) {
    var served := Sums.Sum(s.control.workers, P.Served) > 0;
    && LinesOf(s, s.jobs.enqueued) == lines
    && (multiset(s.control.answered) == multiset(lines) <==> served || lines == [])
    && (served ==> LinesOf(s, s.jobs.dequeued) == lines)
    && (!served ==> s.control.answered == [])
  }

  lemma FinishedLines(s: State, lines: seq<Line>)
    requires Conserved(s, lines) && Seen(s).main.Finished? && SeenWorkers(s) == s.control.workers
    requires Seen(s).received == Seen(s).taken + P.LinesOf(Seen(s).jobs)
    requires var served := Sums.Sum(Seen(s).workers, P.Served) > 0;
      && (multiset(Seen(s).answered) == multiset(Seen(s).received) <==> (served || Seen(s).received == []))
      && (served ==> P.LinesOf(Seen(s).jobs) == [])
      && (!served ==> Seen(s).answered == [])
    ensures AnsweredOnce(s, lines)
  {
    SeenHistories(s);
    assert LinesOf(s, s.jobs.enqueued) + [] == LinesOf(s, s.jobs.enqueued);
    assert Seen(s).taken + [] == Seen(s).taken;
  }

  lemma FinishedWorkers(s: State)
    requires Inv(s) && P.JoinedGone(Seen(s)) && s.control.main.Finished?
    ensures SeenWorkers(s) == s.control.workers
  {
    FinishedIsSeen(s);
    forall i | 0 <= i < |s.control.workers| ensures SeenWorkers(s)[i] == s.control.workers[i] {
      assert Seen(s).workers[i].Gone?;
      assert WorkerCalls(s.control.workers[i], i, s.memory, M.CallOf(s.jobs.pcs[i]), M.CallOf(s.signals.pcs[i]));
    }
  }

  // ---------------------------------------------------------------- shutdown

  // Wherever the threads come to rest, all workers are joined.
  ghost predicate AlwaysCompletes(s: State) {
    forall run :: Feasible(s, run) && AtRest(Exec(s, run)) ==> Exec(s, run).control.main.Finished?
  }

  // With room for messages and sentinels: where no thread can step any more, whatever spurious
  // wakeups there were, all workers are joined.
  lemma ThreadsShutDown(s: State, run: seq<Action>)
    requires Inv(s) && P.Inv(Seen(s)) && P.InShutdown(Seen(s)) && P.CanComplete(Seen(s))
    requires Feasible(s, run) && AtRest(Exec(s, run))
    ensures Exec(s, run).control.main.Finished?
  {
    var t := Exec(s, run);
    ThreadsRefinePool(s, run);
    P.InvExec(Seen(s), PoolRun(s, run));
    P.ShutdownFinite(Seen(s), PoolRun(s, run));
    P.CanCompleteExec(Seen(s), PoolRun(s, run));
    RestIsStuck(t);
    P.StuckIsFinished(Seen(t));
    FinishedIsSeen(t);
  }

  // Without that room and with no worker still to start, they never are.
  lemma ThreadsDoomed(s: State, run: seq<Action>)
    requires Inv(s) && P.Inv(Seen(s)) && P.InShutdown(Seen(s)) && P.Doomed(Seen(s)) && Feasible(s, run)
    ensures !Exec(s, run).control.main.Finished?
  {
    ThreadsRefinePool(s, run);
    P.DoomedExec(Seen(s), PoolRun(s, run));
    FinishedIsSeen(Exec(s, run));
  }

  // Shutdown without that room.
  ghost predicate Short(s: State) {
    Inv(s) && P.InShutdown(Seen(s)) && P.Inv(Seen(s)) && !P.CanComplete(Seen(s))
  }

  // A worker not started yet is in no queue, and fails.
  lemma FailOne(s: State, i: nat)
    requires Short(s) && i < |s.control.workers| && SeenWorkers(s)[i].Starting?
    ensures var a := Local(P.ByWorker(i, P.Start(false)));
      && Enabled(s, a) && Short(Apply(s, a))
      && SeenWorkers(Apply(s, a)) == SeenWorkers(s)[i := P.Leaving(false)]
  {
    var p := P.ByWorker(i, P.Start(false));
    assert WorkerCalls(s.control.workers[i], i, s.memory, M.CallOf(s.jobs.pcs[i]), M.CallOf(s.signals.pcs[i]));
    assert Out(s, i) && s.control.workers[i].Starting?;
    StepRefines(s, Local(p));
    FailKeepsShort(Seen(s), i);
  }

  lemma FailKeepsShort(p: P.State, i: nat)
    requires P.InShutdown(p) && P.Inv(p) && !P.CanComplete(p) && i < |p.workers| && p.workers[i].Starting?
    ensures var a := P.ByWorker(i, P.Start(false));
      && P.Enabled(p, a)
      && var q := P.Apply(p, a);
        && P.InShutdown(q) && P.Inv(q) && !P.CanComplete(q) && q.workers == p.workers[i := P.Leaving(false)]
  {
    P.InvStep(p, P.ByWorker(i, P.Start(false)));
    P.Moves(p, i, P.Start(false), P.Served);
  }

  lemma Prepend(s: State, a: Action, rest: seq<Action>) returns (run: seq<Action>)
    requires Enabled(s, a) && Feasible(Apply(s, a), rest)
    ensures Feasible(s, run) && Exec(s, run) == Exec(Apply(s, a), rest) && run == [a] + rest
  {
    run := [a] + rest;
    assert run[1..] == rest;
  }

  lemma StartedNext(workers: seq<P.Worker>, i: nat)
    requires i < |workers| && StartedUpTo(workers, i)
    ensures StartedUpTo(workers[i := P.Leaving(false)], i + 1)
  {
  }

  predicate StartedUpTo(workers: seq<P.Worker>, i: nat) {
    i <= |workers| && forall j :: 0 <= j < i ==> !workers[j].Starting?
  }

  // All workers not started yet fail, from number i on.
  lemma {:induction false} FailAll(s: State, i: nat) returns (run: seq<Action>)
    requires Short(s) && StartedUpTo(SeenWorkers(s), i)
    ensures Feasible(s, run) && Short(Exec(s, run)) && P.Doomed(Seen(Exec(s, run)))
    decreases |s.control.workers| - i
  {
    if i == |s.control.workers| {
      run := [];
    } else if !SeenWorkers(s)[i].Starting? {
      run := FailAll(s, i + 1);
    } else {
      var a := Local(P.ByWorker(i, P.Start(false)));
      FailOne(s, i);
      StartedNext(SeenWorkers(s), i);
      assert |SeenWorkers(Apply(s, a))| == |SeenWorkers(s)|;
      var rest := FailAll(Apply(s, a), i + 1);
      run := Prepend(s, a, rest);
    }
  }

  // Behind the event loop every step but a wakeup is quiet.
  lemma ShutdownIsQuiet(s: State, a: Action)
    requires Inv(s) && P.InShutdown(Seen(s)) && Enabled(s, a) && !a.Wake?
    ensures Quiet(a) && Inv(Apply(s, a)) && P.InShutdown(Seen(Apply(s, a)))
  {
    StepRefines(s, a);
    var steps := PoolSteps(s, a);
    if steps != [] {
      QuietInShutdown(Seen(s), steps[0]);
    }
  }

  lemma QuietInShutdown(p: P.State, a: P.Action)
    requires P.InShutdown(p) && P.Enabled(p, a)
    ensures P.Quiet(a) && P.InShutdown(P.Apply(p, a))
  {
  }

  // Behind the event loop the threads come to rest.
  lemma {:induction false} RunToRest(s: State) returns (run: seq<Action>)
    requires Inv(s) && P.InShutdown(Seen(s))
    ensures Feasible(s, run) && AtRest(Exec(s, run))
    decreases Measure(s)
  {
    if AtRest(s) {
      run := [];
    } else {
      var a: Action :| !a.Wake? && Enabled(s, a);
      ShutdownIsQuiet(s, a);
      MeasureDrops(s, a);
      var rest := RunToRest(Apply(s, a));
      run := Prepend(s, a, rest);
    }
  }

  // A run that ends at rest with workers not joined.
  lemma IncompleteRun(s: State) returns (run: seq<Action>)
    requires Short(s)
    ensures Feasible(s, run) && AtRest(Exec(s, run)) && !Exec(s, run).control.main.Finished?
  {
    var fail := FailAll(s, 0);
    var d := Exec(s, fail);
    var rest := RunToRest(d);
    ThreadsDoomed(d, rest);
    ExecConcat(s, fail, rest);
    run := fail + rest;
  }

  // Over the queues as implemented, too, shutdown always completes exactly when messages and
  // sentinels find room.
  lemma ThreadsCompleteExactlyWhen(n: nat, before: seq<Action>)
    requires Feasible(Initial(n), before) && Shaped(Exec(Initial(n), before))
    requires P.InShutdown(Seen(Exec(Initial(n), before)))
    ensures var s := Exec(Initial(n), before); AlwaysCompletes(s) <==> P.CanComplete(Seen(s))
  {
    var s := Exec(Initial(n), before);
    Reachable(n, before);
    if P.CanComplete(Seen(s)) {
      forall run | Feasible(s, run) && AtRest(Exec(s, run)) ensures Exec(s, run).control.main.Finished? {
        ThreadsShutDown(s, run);
      }
    } else {
      var run := IncompleteRun(s);
    }
  }

  // ---------------------------------------------------------------- the event loop

  ghost predicate QuietRest(s: State) {
    forall a :: Quiet(a) ==> !Enabled(s, a)
  }

  predicate QuietRun(run: seq<Action>) {
    forall i :: 0 <= i < |run| ==> Quiet(run[i])
  }

  lemma {:induction false} QuietPoolRun(s: State, run: seq<Action>)
    requires Feasible(s, run) && QuietRun(run)
    ensures P.QuietRun(PoolRun(s, run))
    ensures Local(P.ByMain(P.LeaveLoop)) !in run ==> P.ByMain(P.LeaveLoop) !in PoolRun(s, run)
    decreases |run|
  {
    if run != [] {
      assert Quiet(run[0]) && forall i :: 0 <= i < |run[1..]| ==> run[1..][i] == run[i + 1];
      assert run == [run[0]] + run[1..];
      QuietPoolRun(Apply(s, run[0]), run[1..]);
      QuietConcat(PoolSteps(s, run[0]), PoolRun(Apply(s, run[0]), run[1..]));
    }
  }

  lemma QuietConcat(a: seq<P.Action>, b: seq<P.Action>)
    requires P.QuietRun(a) && P.QuietRun(b)
    ensures P.QuietRun(a + b)
  {
  }

  // Where no thread can take a quiet step, the pool cannot.
  lemma QuietRestIsStuck(s: State)
    requires Inv(s) && QuietRest(s)
    ensures L.QuietStuck(Seen(s))
  {
    forall p | P.Quiet(p) ensures !P.Enabled(Seen(s), p) {
      if P.Enabled(Seen(s), p) {
        var a := SomeStep(s, p);
      }
    }
  }

  // Every run that goes on without input and signals until it cannot leaves the loop.
  ghost predicate AlwaysLeaves(s: State) {
    forall run :: Feasible(s, run) && QuietRun(run) && QuietRest(Exec(s, run)) && Shaped(Exec(s, run)) ==>
      P.InShutdown(Seen(Exec(s, run)))
  }

  // The loop runs and need not end by itself.
  ghost predicate Open(s: State) {
    Inv(s) && L.Sound(Seen(s)) && P.InLoop(Seen(s)) && !L.EndsByItself(Seen(s))
  }

  // A step that keeps open a loop which need not end by itself: any step but a callback if there is
  // one; a worker that starts fails or serves, whichever keeps the loop open.
  lemma OpenStep(s: State) returns (a: Action)
    requires Open(s) && !QuietRest(s)
    ensures Quiet(a) && Enabled(s, a)
    ensures a.Local? && a.p.ByWorker? && a.p.act.Start? ==> a.p.act.ok == !Seen(s).unloop
    ensures a == Local(P.ByMain(P.RunCallback)) ==>
      forall p :: P.Quiet(p) && p != P.ByMain(P.RunCallback) ==> !P.Enabled(Seen(s), p)
  {
    var callback := Local(P.ByMain(P.RunCallback));
    if b: Action :| Quiet(b) && Enabled(s, b) && b != callback {
      var starts := b.Local? && b.p.ByWorker? && b.p.act.Start?;
      a := if starts then Local(P.ByWorker(b.p.w, P.Start(!Seen(s).unloop))) else b;
    } else {
      a :| Quiet(a) && Enabled(s, a);
      forall p | P.Quiet(p) && p != P.ByMain(P.RunCallback) ensures !P.Enabled(Seen(s), p) {
        if P.Enabled(Seen(s), p) {
          var b := SomeStep(s, p);
        }
      }
    }
  }

  lemma OpenKept(s: State, a: Action)
    requires Open(s) && Quiet(a) && Enabled(s, a)
    requires a.Local? && a.p.ByWorker? && a.p.act.Start? ==> a.p.act.ok == !Seen(s).unloop
    requires a == Local(P.ByMain(P.RunCallback)) ==>
      forall p :: P.Quiet(p) && p != P.ByMain(P.RunCallback) ==> !P.Enabled(Seen(s), p)
    ensures Open(Apply(s, a))
  {
    StepRefines(s, a);
    var steps := PoolSteps(s, a);
    if steps != [] {
      L.SoundStep(Seen(s), steps[0]);
      L.KeptOpen(Seen(s), steps[0]);
    }
  }

  lemma PrependQuiet(s: State, a: Action, rest: seq<Action>) returns (run: seq<Action>)
    requires Enabled(s, a) && Quiet(a) && Feasible(Apply(s, a), rest) && QuietRun(rest)
    ensures Feasible(s, run) && QuietRun(run) && Exec(s, run) == Exec(Apply(s, a), rest)
  {
    run := Prepend(s, a, rest);
  }

  lemma {:induction false} RunOpen(s: State) returns (run: seq<Action>)
    requires Open(s)
    ensures Feasible(s, run) && QuietRun(run) && QuietRest(Exec(s, run)) && Open(Exec(s, run))
    decreases Measure(s)
  {
    if QuietRest(s) {
      run := [];
    } else {
      var a := OpenStep(s);
      OpenKept(s, a);
      MeasureDrops(s, a);
      var rest := RunOpen(Apply(s, a));
      run := PrependQuiet(s, a, rest);
    }
  }

  // Over the queues as implemented, too, the loop ends by itself exactly then.
  lemma ThreadsLeaveExactlyWhen(n: nat, before: seq<Action>)
    requires Feasible(Initial(n), before) && Shaped(Exec(Initial(n), before))
    requires P.InLoop(Seen(Exec(Initial(n), before)))
    ensures var s := Exec(Initial(n), before); AlwaysLeaves(s) <==> L.EndsByItself(Seen(s))
  {
    var s := Exec(Initial(n), before);
    Reachable(n, before);
    if L.EndsByItself(Seen(s)) {
      forall run | Feasible(s, run) && QuietRun(run) && QuietRest(Exec(s, run)) && Shaped(Exec(s, run))
        ensures P.InShutdown(Seen(Exec(s, run)))
      {
        ThreadsRefinePool(s, run);
        QuietPoolRun(s, run);
        QuietRestIsStuck(Exec(s, run));
        L.LoopEndsByItselfExactlyWhen(n, PoolRun(Initial(n), before));
        assert L.QuietMaximal(Seen(s), PoolRun(s, run));
      }
    } else {
      var run := RunOpen(s);
    }
  }

  // Nothing but input, signals, leaving and wakeups can happen.
  ghost predicate ServingRest(s: State) {
    forall a :: Quiet(a) && a != Local(P.ByMain(P.LeaveLoop)) ==> !Enabled(s, a)
  }

  // The main thread idles, the queue is empty, and every line put on it has been answered, once.
  predicate AllAnswered(s: State) {
    && Shaped(s) && Seen(s).main.Looping? && s.jobs.ring.Contents() == []
    && multiset(s.control.answered) == multiset(LinesOf(s, s.jobs.enqueued))
  }

  lemma RestIsAnswered(s: State)
    requires Inv(s) && P.Inv(Seen(s)) && P.InLoop(Seen(s)) && Sums.Sum(Seen(s).workers, P.Served) > 0 && ServingRest(s)
    ensures AllAnswered(s)
  {
    forall p | P.Quiet(p) && p != P.ByMain(P.LeaveLoop) ensures !P.Enabled(Seen(s), p) {
      if P.Enabled(Seen(s), p) {
        var a := SomeStep(s, p);
      }
    }
    L.IdleMeansAnswered(Seen(s));
    SeenHistories(s);
    assert |JobsOf(s.memory, s.jobs.ring.Contents())| == 0;
  }

  // While the loop runs and some worker serves, where no thread can step any more without input,
  // signals and leaving, every line has been answered.
  lemma ThreadsAnswerEveryLine(n: nat, before: seq<Action>, run: seq<Action>)
    requires Feasible(Initial(n), before) && Shaped(Exec(Initial(n), before))
    requires var s := Exec(Initial(n), before);
      && P.InLoop(Seen(s)) && Sums.Sum(SeenWorkers(s), P.Served) > 0
      && Feasible(s, run) && QuietRun(run) && Local(P.ByMain(P.LeaveLoop)) !in run && ServingRest(Exec(s, run))
    ensures AllAnswered(Exec(Exec(Initial(n), before), run))
  {
    var s := Exec(Initial(n), before);
    Reachable(n, before);
    StillServing(s, run);
    RestIsAnswered(Exec(s, run));
  }

  lemma StillServing(s: State, run: seq<Action>)
    requires Inv(s) && P.Inv(Seen(s)) && P.InLoop(Seen(s)) && Sums.Sum(Seen(s).workers, P.Served) > 0
    requires Feasible(s, run) && QuietRun(run) && Local(P.ByMain(P.LeaveLoop)) !in run
    ensures var t := Exec(s, run);
      Inv(t) && P.Inv(Seen(t)) && P.InLoop(Seen(t)) && Sums.Sum(Seen(t).workers, P.Served) > 0
  {
    ThreadsRefinePool(s, run);
    QuietPoolRun(s, run);
    L.StillServing(Seen(s), PoolRun(s, run));
  }
}
