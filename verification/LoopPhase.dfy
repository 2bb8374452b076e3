/** The worker pool while the event loop runs: when lines get answered, when the loop can end by
    itself, and when shutdown can be reached at all (src/core/main.c). */
module LoopPhase {
  import opened Sums
  import opened Pool

  // ---------------------------------------------------------------- how the loop is told to end

  // Once the last message is received the loop is told to end, and nothing but a signal
  // tells it earlier.
  predicate EndRequested(s: State, interrupted: bool) {
    && (s.active <= 0 < |s.workers| ==> s.unloop)
    && (s.unloop ==> interrupted || s.active <= 0)
    && (s.unloop && |s.workers| == 0 ==> interrupted)
  }

  lemma EndRequestedStep(s: State, a: Action, interrupted: bool)
    requires Signalling(s) && EndRequested(s, interrupted) && Enabled(s, a)
    requires a == ByMain(Interrupt) ==> interrupted
    ensures EndRequested(Apply(s, a), interrupted)
  {
    SumAtMost(s.workers, Posted);
  }

  lemma {:induction false} EndRequestedExec(s: State, run: seq<Action>, interrupted: bool)
    requires Inv(s) && Feasible(s, run) && EndRequested(s, interrupted)
    requires ByMain(Interrupt) in run ==> interrupted
    ensures EndRequested(Exec(s, run), interrupted)
    decreases |run|
  {
    if run != [] {
      EndRequestedStep(s, run[0], interrupted);
      InvStep(s, run[0]);
      EndRequestedExec(Apply(s, run[0]), run[1..], interrupted);
    }
  }

  // A reachable state.
  ghost predicate Sound(s: State) {
    Inv(s) && EndRequested(s, true)
  }

  lemma Reachable(n: nat, before: seq<Action>)
    requires Feasible(Initial(n), before)
    ensures Sound(Exec(Initial(n), before)) && |Exec(Initial(n), before).workers| == n
  {
    InvInitial(n);
    InvExec(Initial(n), before);
    EndRequestedExec(Initial(n), before, true);
    SameWorkers(Initial(n), before);
  }

  lemma SoundStep(s: State, a: Action)
    requires Sound(s) && Enabled(s, a)
    ensures Sound(Apply(s, a))
  {
    InvStep(s, a);
    EndRequestedStep(s, a, true);
  }

  // With workers, the loop is told to end no later than when the messages of all of them were
  // received; without signals, exactly then, and never without workers.
  lemma LoopEndsExactlyWhenAllReported(n: nat, run: seq<Action>)
    requires Feasible(Initial(n), run)
    ensures var s := Exec(Initial(n), run);
      && (s.callbacks == n > 0 ==> s.unloop)
      && (ByMain(Interrupt) !in run ==> (s.unloop <==> s.callbacks == n > 0))
  {
    InvInitial(n);
    CallbackNeverBlocks(n, run);
    SameWorkers(Initial(n), run);
    EndRequestedExec(Initial(n), run, ByMain(Interrupt) in run);
  }

  // ---------------------------------------------------------------- runs up to the next event

  // A run without further input and signals that only these could extend.
  ghost predicate QuietMaximal(s: State, run: seq<Action>) {
    Feasible(s, run) && QuietRun(run) && QuietStuck(Exec(s, run))
  }

  ghost predicate QuietStuck(s: State) {
    forall a :: Quiet(a) ==> !Enabled(s, a)
  }

  lemma {:induction false} RunQuietly(s: State) returns (run: seq<Action>)
    ensures QuietMaximal(s, run)
    decreases Measure(s)
  {
    if QuietStuck(s) {
      run := [];
    } else {
      var a :| Quiet(a) && Enabled(s, a);
      MeasureDrops(s, a);
      var rest := RunQuietly(Apply(s, a));
      run := [a] + rest;
    }
  }

  // ---------------------------------------------------------------- answering

  // Workers inside their service loop.
  predicate InService(w: Worker) { w.Serving? || w.Handling? || w.Finishing? }

  predicate StaysInLoop(run: seq<Action>) {
    QuietRun(run) && ByMain(LeaveLoop) !in run
  }

  lemma ServingStep(s: State, a: Action)
    requires Inv(s) && InLoop(s) && Sum(s.workers, Served) > 0
    requires Enabled(s, a) && Quiet(a) && a != ByMain(LeaveLoop)
    ensures Inv(Apply(s, a)) && InLoop(Apply(s, a)) && Sum(Apply(s, a).workers, Served) > 0
  {
    InvStep(s, a);
    if a.ByWorker? {
      Moves(s, a.w, a.act, Served);
    }
  }

  lemma {:induction false} StillServing(s: State, run: seq<Action>)
    requires Inv(s) && InLoop(s) && Sum(s.workers, Served) > 0
    requires Feasible(s, run) && StaysInLoop(run)
    ensures Inv(Exec(s, run)) && InLoop(Exec(s, run)) && Sum(Exec(s, run).workers, Served) > 0
    decreases |run|
  {
    if run != [] {
      assert Quiet(run[0]) && run[0] != ByMain(LeaveLoop);
      ServingStep(s, run[0]);
      assert forall i :: 0 <= i < |run[1..]| ==> run[1..][i] == run[i + 1];
      StillServing(Apply(s, run[0]), run[1..]);
    }
  }

  lemma {:induction false} SomeServed(ws: seq<Worker>) returns (i: nat)
    requires Sum(ws, Served) > 0
    ensures i < |ws| && Served(ws[i]) == 1
  {
    if Served(ws[0]) == 1 {
      i := 0;
    } else {
      i := SomeServed(ws[1..]);
      i := i + 1;
    }
  }

  // A worker that got through thread_init is in service as long as the loop runs.
  lemma ServedIsInService(s: State, i: nat)
    requires Inv(s) && InLoop(s) && i < |s.workers| && Served(s.workers[i]) == 1
    ensures InService(s.workers[i])
  {
    SumRange(s.workers, i, LeftServed);
  }

  // Nothing but input, signals and leaving can happen: the queue is empty and all is answered.
  lemma IdleMeansAnswered(s: State)
    requires Inv(s) && InLoop(s) && Sum(s.workers, Served) > 0
    requires forall a :: Quiet(a) && a != ByMain(LeaveLoop) ==> !Enabled(s, a)
    ensures s.main.Looping? && s.jobs == [] && multiset(s.answered) == multiset(s.received)
  {
    var i := SomeServed(s.workers);
    ServedIsInService(s, i);
    assert !Enabled(s, ByWorker(i, Take)) && !Enabled(s, ByWorker(i, Answer)) && !Enabled(s, ByWorker(i, Done));
    assert !Enabled(s, ByMain(PutLine)) && !Enabled(s, ByMain(ReadDone)) && !Enabled(s, ByMain(TakeSignal));
    if s.main.InCallback? {
      CallbackFindsMessage(s);
    }
    forall j | 0 <= j < |s.workers| ensures !s.workers[j].Handling? {
      assert !Enabled(s, ByWorker(j, Answer));
    }
    forall l ensures multiset(s.taken)[l] == multiset(s.answered)[l] {
      NoneHolds(s.workers, l);
    }
    assert multiset(s.taken) == multiset(s.answered) && s.received == s.taken;
  }

  lemma CallbackFindsMessage(s: State)
    requires Signalling(s) && s.main.InCallback?
    ensures Enabled(s, ByMain(TakeSignal))
  {
    GoneArePosted(s.workers);
  }

  // While the loop runs and some worker serves, every run without new input, signals and leaving
  // is finite, and where it cannot be extended every line received has been answered.
  lemma EveryLineGetsAnswered(n: nat, before: seq<Action>, run: seq<Action>)
    requires Feasible(Initial(n), before) && InLoop(Exec(Initial(n), before))
    requires Sum(Exec(Initial(n), before).workers, Served) > 0
    requires Feasible(Exec(Initial(n), before), run) && StaysInLoop(run)
    ensures |run| <= Measure(Exec(Initial(n), before))
    ensures var t := Exec(Exec(Initial(n), before), run);
      (forall a :: Quiet(a) && a != ByMain(LeaveLoop) ==> !Enabled(t, a)) ==>
        t.main.Looping? && t.jobs == [] && multiset(t.answered) == multiset(t.received)
  {
    var s := Exec(Initial(n), before);
    Reachable(n, before);
    QuietRunsFinite(s, run);
    StillServing(s, run);
    var t := Exec(s, run);
    if forall a :: Quiet(a) && a != ByMain(LeaveLoop) ==> !Enabled(t, a) {
      IdleMeansAnswered(t);
    }
  }

  // ---------------------------------------------------------------- how the loop ends by itself

  predicate AllWorkersGone(s: State) {
    forall i :: 0 <= i < |s.workers| ==> s.workers[i].Gone?
  }

  // Workers behind their service loop, or past a failed thread_init.
  predicate Departing(w: Worker) { w.Leaving? || w.Notifying? || w.Gone? }

  predicate AllDeparting(s: State) {
    forall i :: 0 <= i < |s.workers| ==> Departing(s.workers[i])
  }

  predicate SomeInService(s: State) {
    exists i :: 0 <= i < |s.workers| && InService(s.workers[i])
  }

  predicate SomeToSend(s: State) {
    exists i :: 0 <= i < |s.workers| && (s.workers[i].Leaving? || s.workers[i].Notifying?)
  }

  function Pending(s: State): nat {
    if s.main.Reading? then |s.main.pending| else 0
  }

  // The job queue has room for the lines being read.
  predicate Room(s: State) { |s.jobs| + Pending(s) <= 256 }

  // Callbacks sure to run: the one in progress, and one for all sends pending or still to come,
  // since these may coalesce.
  function CallbacksToCome(s: State): nat {
    Bit(s.main.InCallback?) + Bit(s.asyncPending || SomeToSend(s))
  }

  // The input callback ends, and the loop has been or will be told to end.
  predicate EndsByItself(s: State) {
    if s.unloop then Room(s) || SomeInService(s)
    else Room(s) && |s.workers| > 0 && AllDeparting(s) && s.active <= CallbacksToCome(s)
  }

  // Every run that goes on without input and signals until it cannot leaves the loop.
  ghost predicate AlwaysLeaves(s: State) {
    forall run :: QuietMaximal(s, run) ==> InShutdown(Exec(s, run))
  }

  // While the loop runs, the queue holds lines only.
  lemma HeadIsLine(s: State)
    requires Draining(s) && InLoop(s) && s.jobs != []
    ensures s.jobs[0].Request?
  {
  }

  // A step of a worker that serves or starts brings a full queue nearer to being emptied.
  lemma FreeingStep(s: State, i: nat) returns (a: Action)
    requires Inv(s) && InLoop(s) && s.jobs != [] && i < |s.workers|
    requires InService(s.workers[i]) || s.workers[i].Starting?
    ensures Quiet(a) && a.ByWorker? && a.w == i && Enabled(s, a)
    ensures InService(Apply(s, a).workers[i])
  {
    HeadIsLine(s);
    a := match s.workers[i]
      case Starting => ByWorker(i, Start(true))
      case Serving => ByWorker(i, Take)
      case Handling(_) => ByWorker(i, Answer)
      case _ => ByWorker(i, Done);
  }

  // Messages not received are in the queue or those of workers that have not posted.
  lemma UnpostedWorker(s: State, i: nat)
    requires Signalling(s) && i < |s.workers| && Posted(s.workers[i]) == 0
    ensures s.active >= |s.signals| + 1
  {
    SumRange(s.workers, i, Posted);
  }

  lemma EndingByMain(s: State, m: MainAction)
    requires Sound(s) && InLoop(s) && EndsByItself(s) && Quiet(ByMain(m)) && MainEnabled(s, m)
    ensures InShutdown(MainApply(s, m)) || EndsByItself(MainApply(s, m))
  {
    var t := MainApply(s, m);
    assert SomeInService(t) == SomeInService(s) && SomeToSend(t) == SomeToSend(s) && AllDeparting(t) == AllDeparting(s);
  }

  lemma EndingByWorker(s: State, w: nat, act: WorkerAction)
    requires Sound(s) && InLoop(s) && EndsByItself(s) && Enabled(s, ByWorker(w, act))
    ensures EndsByItself(Apply(s, ByWorker(w, act)))
  {
    var t := Apply(s, ByWorker(w, act));
    var from, to := s.workers[w], t.workers[w];
    if s.unloop {
      if act.Take? {
        HeadIsLine(s);
      }
      if SomeInService(s) {
        var i :| 0 <= i < |s.workers| && InService(s.workers[i]);
        assert InService(t.workers[i]);
      }
    } else {
      assert Departing(from);
      assert s.workers[w].Leaving? || s.workers[w].Notifying?;
      assert act.PostSignal? ==> t.workers[w].Notifying?;
    }
  }

  lemma EndingStep(s: State, a: Action)
    requires Sound(s) && (InShutdown(s) || EndsByItself(s)) && Enabled(s, a) && Quiet(a)
    ensures InShutdown(Apply(s, a)) || EndsByItself(Apply(s, a))
  {
    if InShutdown(s) {
      ShutdownStays(s, a);
    } else if a.ByMain? {
      EndingByMain(s, a.m);
    } else {
      EndingByWorker(s, a.w, a.act);
    }
  }

  lemma ShutdownStays(s: State, a: Action)
    requires InShutdown(s) && Enabled(s, a)
    ensures InShutdown(Apply(s, a))
  {
  }

  lemma {:induction false} EndingExec(s: State, run: seq<Action>)
    requires Sound(s) && (InShutdown(s) || EndsByItself(s)) && Feasible(s, run) && QuietRun(run)
    ensures Sound(Exec(s, run)) && (InShutdown(Exec(s, run)) || EndsByItself(Exec(s, run)))
    decreases |run|
  {
    if run != [] {
      SoundStep(s, run[0]);
      EndingStep(s, run[0]);
      assert forall i :: 0 <= i < |run[1..]| ==> run[1..][i] == run[i + 1];
      EndingExec(Apply(s, run[0]), run[1..]);
    }
  }

  // A loop that ends by itself has a step to take.
  lemma EndingGoesOn(s: State) returns (a: Action)
    requires Sound(s) && InLoop(s) && EndsByItself(s)
    ensures Quiet(a) && Enabled(s, a)
  {
    if s.main.InCallback? {
      CallbackFindsMessage(s);
      a := ByMain(TakeSignal);
    } else if s.main.Reading? {
      if s.main.pending == [] {
        a := ByMain(ReadDone);
      } else if |s.jobs| < JOB_CAPACITY {
        a := ByMain(PutLine);
      } else {
        var i :| 0 <= i < |s.workers| && InService(s.workers[i]);
        a := FreeingStep(s, i);
      }
    } else if s.unloop {
      a := ByMain(LeaveLoop);
    } else if s.asyncPending {
      a := ByMain(RunCallback);
    } else {
      var i :| 0 <= i < |s.workers| && (s.workers[i].Leaving? || s.workers[i].Notifying?);
      if s.workers[i].Leaving? {
        UnpostedWorker(s, i);
        a := ByWorker(i, PostSignal);
      } else {
        a := ByWorker(i, Send);
      }
    }
  }

  // The other way round: where the loop need not end, a step can be chosen after which it still
  // need not. A starting worker fails if the queue is to stay full, and serves if the loop is not
  // to be told to end.
  lemma Unlucky(s: State, a: Action) returns (b: Action)
    requires Enabled(s, a) && Quiet(a)
    ensures Enabled(s, b) && Quiet(b) && (a.ByWorker? ==> b.ByWorker? && b.w == a.w) && (a.ByMain? ==> b == a)
    ensures b.ByWorker? && b.act.Start? ==> b.act.ok == !s.unloop
  {
    b := if a.ByWorker? && a.act.Start? then ByWorker(a.w, Start(!s.unloop)) else a;
  }

  // With the queue full for good.
  lemma StaysFull(s: State, a: Action)
    requires Sound(s) && InLoop(s) && Enabled(s, a) && Quiet(a) && !Room(s) && !SomeInService(s)
    requires a.ByWorker? && a.act.Start? ==> !a.act.ok
    ensures var t := Apply(s, a); InLoop(t) && t.unloop == s.unloop && !Room(t) && !SomeInService(t)
  {
    var t := Apply(s, a);
    forall i | 0 <= i < |t.workers| ensures !InService(t.workers[i]) {
      assert !InService(s.workers[i]);
    }
  }

  // With a worker that is not departing.
  lemma StaysOpen(s: State, a: Action)
    requires Sound(s) && InLoop(s) && Enabled(s, a) && Quiet(a) && !s.unloop && !AllDeparting(s)
    requires a.ByWorker? && a.act.Start? ==> a.act.ok
    ensures var t := Apply(s, a); InLoop(t) && !t.unloop && !AllDeparting(t)
  {
    var i :| 0 <= i < |s.workers| && !Departing(s.workers[i]);
    UnpostedWorker(s, i);
    if a.ByWorker? && a.act.Take? {
      HeadIsLine(s);
    }
    assert !Departing(Apply(s, a).workers[i]);
  }

  // Too few callbacks: all sends happen before the next callback runs, as far as the queue of
  // messages has room.
  predicate TooFew(s: State) {
    !s.unloop && AllDeparting(s) && s.active > CallbacksToCome(s)
  }

  lemma TooFewBySend(s: State, i: nat)
    requires InLoop(s) && TooFew(s) && i < |s.workers| && s.workers[i].Notifying?
    ensures InLoop(Apply(s, ByWorker(i, Send))) && TooFew(Apply(s, ByWorker(i, Send)))
  {
  }

  lemma TooFewByPost(s: State, i: nat)
    requires InLoop(s) && TooFew(s) && Enabled(s, ByWorker(i, PostSignal))
    ensures InLoop(Apply(s, ByWorker(i, PostSignal))) && TooFew(Apply(s, ByWorker(i, PostSignal)))
  {
  }

  lemma TooFewByMain(s: State, m: MainAction)
    requires Sound(s) && InLoop(s) && TooFew(s) && Quiet(ByMain(m)) && MainEnabled(s, m)
    requires forall i :: 0 <= i < |s.workers| ==>
      !s.workers[i].Notifying? && (s.workers[i].Leaving? ==> |s.signals| == SIGNAL_CAPACITY)
    ensures InLoop(MainApply(s, m)) && TooFew(MainApply(s, m))
  {
    var t := MainApply(s, m);
    assert SomeToSend(t) == SomeToSend(s) && AllDeparting(t) == AllDeparting(s);
    if SomeToSend(s) {
      var i :| 0 <= i < |s.workers| && (s.workers[i].Leaving? || s.workers[i].Notifying?);
      UnpostedWorker(s, i);
    }
  }

  // Every step but running a callback keeps it so, and so does the callback if nothing else can step.
  lemma TooFewKept(s: State, a: Action)
    requires Sound(s) && InLoop(s) && TooFew(s) && Quiet(a) && Enabled(s, a)
    requires a == ByMain(RunCallback) ==> forall b :: Quiet(b) && b != a ==> !Enabled(s, b)
    ensures InLoop(Apply(s, a)) && TooFew(Apply(s, a))
  {
    match a
    case ByWorker(w, act) =>
      if act.Send? {
        TooFewBySend(s, w);
      } else {
        assert Departing(s.workers[w]);
        TooFewByPost(s, w);
      }
    case ByMain(m) =>
      if m.RunCallback? {
        forall i | 0 <= i < |s.workers|
          ensures !s.workers[i].Notifying? && (s.workers[i].Leaving? ==> |s.signals| == SIGNAL_CAPACITY)
        {
          assert !Enabled(s, ByWorker(i, Send)) && !Enabled(s, ByWorker(i, PostSignal));
        }
        TooFewByMain(s, m);
      } else {
        TooFewByOther(s, m);
      }
  }

  lemma TooFewByOther(s: State, m: MainAction)
    requires Sound(s) && InLoop(s) && TooFew(s) && Quiet(ByMain(m)) && MainEnabled(s, m) && !m.RunCallback?
    ensures InLoop(MainApply(s, m)) && TooFew(MainApply(s, m))
  {
    var t := MainApply(s, m);
    assert SomeToSend(t) == SomeToSend(s) && AllDeparting(t) == AllDeparting(s);
  }

  // Which steps keep a loop open that need not end by itself.
  lemma KeptOpen(s: State, a: Action)
    requires Sound(s) && InLoop(s) && !EndsByItself(s) && Quiet(a) && Enabled(s, a)
    requires a.ByWorker? && a.act.Start? ==> a.act.ok == !s.unloop
    requires a == ByMain(RunCallback) ==> forall b :: Quiet(b) && b != a ==> !Enabled(s, b)
    ensures InLoop(Apply(s, a)) && !EndsByItself(Apply(s, a))
  {
    if s.unloop || (AllDeparting(s) && !Room(s)) {
      StaysFull(s, a);
    } else if !AllDeparting(s) {
      StaysOpen(s, a);
    } else if |s.workers| > 0 {
      TooFewKept(s, a);
    }
  }

  lemma TooFewStep(s: State, a: Action) returns (b: Action)
    requires Sound(s) && InLoop(s) && TooFew(s) && Quiet(a) && Enabled(s, a)
    ensures Quiet(b) && Enabled(s, b) && InLoop(Apply(s, b)) && TooFew(Apply(s, b))
  {
    if i: nat :| i < |s.workers| && s.workers[i].Notifying? {
      b := ByWorker(i, Send);
      TooFewBySend(s, i);
    } else if i: nat :| i < |s.workers| && s.workers[i].Leaving? && |s.signals| < SIGNAL_CAPACITY {
      b := ByWorker(i, PostSignal);
      TooFewByPost(s, i);
    } else {
      b := a;
      forall i | 0 <= i < |s.workers|
        ensures !s.workers[i].Notifying? && (s.workers[i].Leaving? ==> |s.signals| == SIGNAL_CAPACITY)
      {
        var k: nat := i;
        assert !(k < |s.workers| && s.workers[k].Notifying?);
        assert !(k < |s.workers| && s.workers[k].Leaving? && |s.signals| < SIGNAL_CAPACITY);
      }
      assert a.ByMain?;
      TooFewByMain(s, a.m);
    }
  }

  // One of the four ways in which the loop need not end by itself.
  lemma OpenStep(s: State, a: Action) returns (b: Action)
    requires Sound(s) && InLoop(s) && !EndsByItself(s) && Quiet(a) && Enabled(s, a)
    ensures Quiet(b) && Enabled(s, b) && InLoop(Apply(s, b)) && !EndsByItself(Apply(s, b))
  {
    b := Unlucky(s, a);
    if s.unloop || (AllDeparting(s) && !Room(s)) {
      StaysFull(s, b);
    } else if !AllDeparting(s) {
      StaysOpen(s, b);
    } else if |s.workers| > 0 {
      b := TooFewStep(s, a);
    }
  }

  lemma {:induction false} RunOpen(s: State) returns (run: seq<Action>)
    requires Sound(s) && InLoop(s) && !EndsByItself(s)
    ensures QuietMaximal(s, run) && InLoop(Exec(s, run))
    decreases Measure(s)
  {
    if QuietStuck(s) {
      run := [];
    } else {
      var a :| Quiet(a) && Enabled(s, a);
      var b := OpenStep(s, a);
      MeasureDrops(s, b);
      SoundStep(s, b);
      var rest := RunOpen(Apply(s, b));
      run := [b] + rest;
    }
  }

  // Exactly when the loop ends by itself, from any reachable state of the loop and for any number
  // of workers, zero included; and what that means once all workers are gone.
  lemma LoopEndsByItselfExactlyWhen(n: nat, before: seq<Action>)
    requires Feasible(Initial(n), before) && InLoop(Exec(Initial(n), before))
    ensures var s := Exec(Initial(n), before);
      && (AlwaysLeaves(s) <==> EndsByItself(s))
      && (AllWorkersGone(s) ==> (EndsByItself(s) <==>
            Room(s) && (s.unloop || (n > 0 && s.active <= Bit(s.main.InCallback?) + Bit(s.asyncPending)))))
  {
    var s := Exec(Initial(n), before);
    Reachable(n, before);
    if EndsByItself(s) {
      forall run | QuietMaximal(s, run) ensures InShutdown(Exec(s, run)) {
        EndingExec(s, run);
        var t := Exec(s, run);
        if InLoop(t) {
          var a := EndingGoesOn(t);
        }
      }
    } else {
      var run := RunOpen(s);
    }
  }

  // ---------------------------------------------------------------- stalls

  // All workers gone, fewer callbacks to come than messages to receive, no exit requested.
  predicate Stalled(s: State) {
    InLoop(s) && !s.unloop && AllWorkersGone(s) && s.active > CallbacksToCome(s)
  }

  // A stalled pool does not end its event loop without a signal, whatever is read.
  lemma {:induction false} StalledForever(s: State, run: seq<Action>)
    requires Stalled(s) && Feasible(s, run) && ByMain(Interrupt) !in run
    ensures Stalled(Exec(s, run))
    decreases |run|
  {
    if run != [] {
      StalledForever(Apply(s, run[0]), run[1..]);
    }
  }

  lemma Extend(s: State, run: seq<Action>, a: Action) returns (longer: seq<Action>, t: State)
    requires Feasible(s, run) && Enabled(Exec(s, run), a)
    ensures Feasible(s, longer) && Exec(s, longer) == t == Apply(Exec(s, run), a)
    ensures longer == run + [a]
  {
    longer, t := run + [a], Apply(Exec(s, run), a);
    assert [a][1..] == [] && Exec(Exec(s, run), [a]) == Exec(t, []);
    ExecConcat(s, run, [a]);
  }

  // The stall is reachable: two failing workers whose sends coalesce into one callback.
  lemma CoalescingStalls() returns (run: seq<Action>)
    ensures Feasible(Initial(2), run) && Stalled(Exec(Initial(2), run))
  {
    var s, t := Initial(2), Initial(2);
    run := [];
    run, t := Extend(s, run, ByWorker(0, Start(false)));
    run, t := Extend(s, run, ByWorker(1, Start(false)));
    run, t := Extend(s, run, ByWorker(0, PostSignal));
    run, t := Extend(s, run, ByWorker(1, PostSignal));
    assert t.workers == [Notifying(false), Notifying(false)] && |t.signals| == 2;
    run, t := Extend(s, run, ByWorker(0, Send));
    run, t := Extend(s, run, ByWorker(1, Send));
    assert t.workers == [Gone(false), Gone(false)];
    run, t := Extend(s, run, ByMain(RunCallback));
    run, t := Extend(s, run, ByMain(TakeSignal));
  }

  // ---------------------------------------------------------------- jams

  // The main thread is reading more lines than the queue has room for and no worker will ever
  // take one: not even a signal is handled any more.
  predicate Jammed(s: State) {
    && s.main.Reading?
    && (forall i :: 0 <= i < |s.workers| ==> !InService(s.workers[i]) && !s.workers[i].Starting?)
    && |s.jobs| + Pending(s) > 256
  }

  lemma {:induction false} JammedForever(s: State, run: seq<Action>)
    requires Draining(s) && Jammed(s) && Feasible(s, run)
    ensures Jammed(Exec(s, run))
    decreases |run|
  {
    if run != [] {
      match run[0] {
        case ByMain(m) => DrainingByMain(s, m);
        case ByWorker(w, act) => DrainingByWorker(s, w, act);
      }
      JammedForever(Apply(s, run[0]), run[1..]);
    }
  }

  // From a busy loop state that is not jammed some quiet step can be taken that does not jam it.
  lemma UnjammedStep(s: State) returns (a: Action)
    requires Inv(s) && InLoop(s) && !s.main.Looping? && !Jammed(s)
    ensures Quiet(a) && Enabled(s, a) && InLoop(Apply(s, a)) && !Jammed(Apply(s, a))
  {
    if s.main.InCallback? {
      CallbackFindsMessage(s);
      a := ByMain(TakeSignal);
    } else if s.main.pending == [] {
      a := ByMain(ReadDone);
    } else if |s.jobs| < JOB_CAPACITY {
      a := ByMain(PutLine);
    } else {
      var i :| 0 <= i < |s.workers| && (InService(s.workers[i]) || s.workers[i].Starting?);
      a := FreeingStep(s, i);
    }
  }

  // A way out of the loop from every state that is not jammed.
  lemma {:induction false} Escape(s: State) returns (run: seq<Action>)
    requires Inv(s) && InLoop(s) && !Jammed(s)
    ensures Feasible(s, run) && InShutdown(Exec(s, run))
    decreases Measure(s)
  {
    if s.main.Looping? {
      var t;
      run, t := Extend(s, [], ByMain(Interrupt));
      run, t := Extend(s, run, ByMain(LeaveLoop));
    } else {
      var a := UnjammedStep(s);
      MeasureDrops(s, a);
      InvStep(s, a);
      var rest := Escape(Apply(s, a));
      run := [a] + rest;
    }
  }

  // Some continuation, signals allowed, reaches shutdown.
  ghost predicate CanShutDown(s: State) {
    exists run :: Feasible(s, run) && InShutdown(Exec(s, run))
  }

  // Exactly when shutdown is out of reach.
  lemma ShutdownReachableExactlyWhen(n: nat, before: seq<Action>)
    requires Feasible(Initial(n), before) && InLoop(Exec(Initial(n), before))
    ensures CanShutDown(Exec(Initial(n), before)) <==> !Jammed(Exec(Initial(n), before))
  {
    var s := Exec(Initial(n), before);
    Reachable(n, before);
    if Jammed(s) {
      forall run | Feasible(s, run) ensures !InShutdown(Exec(s, run)) {
        JammedForever(s, run);
      }
    } else {
      var run := Escape(s);
    }
  }
}
