/** The worker pool and its shutdown protocol (src/core/main.c).

    One main thread feeds a bounded job queue, receives termination messages through a
    bounded signal queue while its event loop runs, and on exit places one NULL sentinel
    per worker and joins all workers. Every queue operation is one atomic blocking step;
    module PoolQueues shows these to be steps of the FIFO queue that module Monitor shows
    queue.c to implement. */
module Pool {
  import opened Sums

  const JOB_CAPACITY: nat := 256
  const SIGNAL_CAPACITY: nat := 8

  type Line = string

  // What the job queue holds: a NULL pointer or a line buffer.
  datatype Job = Sentinel | Request(line: Line)

  // Where a worker is; `served` remembers whether thread_init succeeded.
  datatype Worker =
    | Starting
    | Serving
    | Handling(line: Line)
    | Finishing
    | Leaving(served: bool)
    | Notifying(served: bool)
    | Gone(served: bool)

  // Where the main thread is.
  datatype Main =
    | Looping
    | Reading(pending: seq<Line>)
    | InCallback
    | Placing(placed: nat)
    | Joining(joined: nat)
    | Finished

  datatype State = State(
    main: Main,
    jobs: seq<Job>,
    signals: seq<nat>,
    asyncPending: bool,
    unloop: bool,
    active: int,
    workers: seq<Worker>,
    received: seq<Line>,   // lines enqueued so far, in order
    taken: seq<Line>,      // lines dequeued so far, in order
    answered: seq<Line>,   // lines answered so far, in order
    sends: nat,            // calls of ev_async_send
    callbacks: nat         // completed runs of thread_sig_cb
  )

  datatype MainAction =
    | ReadChunk(lines: seq<Line>) | PutLine | ReadDone
    | RunCallback | TakeSignal
    | Interrupt | LeaveLoop
    | Place | Placed | Join | Finish

  datatype WorkerAction = Start(ok: bool) | Take | Answer | Done | PostSignal | Send

  datatype Action = ByMain(m: MainAction) | ByWorker(w: nat, act: WorkerAction)

  predicate MainEnabled(s: State, m: MainAction) {
    match m
    case ReadChunk(_) => s.main.Looping?
    case PutLine => s.main.Reading? && s.main.pending != [] && |s.jobs| < JOB_CAPACITY
    case ReadDone => s.main == Reading([])
    case RunCallback => s.main.Looping? && s.asyncPending
    case TakeSignal => s.main.InCallback? && s.signals != []
    case Interrupt => s.main.Looping?
    case LeaveLoop => s.main.Looping? && s.unloop
    case Place => s.main.Placing? && s.main.placed < |s.workers| && |s.jobs| < JOB_CAPACITY
    case Placed => s.main == Placing(|s.workers|)
    case Join => s.main.Joining? && s.main.joined < |s.workers| && s.workers[s.main.joined].Gone?
    case Finish => s.main == Joining(|s.workers|)
  }

  predicate WorkerEnabled(s: State, w: Worker, act: WorkerAction) {
    match act
    case Start(_) => w.Starting?
    case Take => w.Serving? && s.jobs != []
    case Answer => w.Handling?
    case Done => w.Finishing?
    case PostSignal => w.Leaving? && |s.signals| < SIGNAL_CAPACITY
    case Send => w.Notifying?
  }

  predicate Enabled(s: State, a: Action) {
    match a
    case ByMain(m) => MainEnabled(s, m)
    case ByWorker(w, act) => w < |s.workers| && WorkerEnabled(s, s.workers[w], act)
  }

  function MainApply(s: State, m: MainAction): State
    requires MainEnabled(s, m)
  {
    match m
    case ReadChunk(lines) => s.(main := Reading(lines))
    case PutLine =>
      s.(main := Reading(s.main.pending[1..]),
         jobs := s.jobs + [Request(s.main.pending[0])],
         received := s.received + [s.main.pending[0]])
    case ReadDone => s.(main := Looping)
    case RunCallback => s.(main := InCallback, asyncPending := false)
    case TakeSignal =>
      s.(main := Looping, signals := s.signals[1..], active := s.active - 1,
         unloop := s.unloop || s.active == 1, callbacks := s.callbacks + 1)
    case Interrupt => s.(unloop := true)
    case LeaveLoop => s.(main := Placing(0))
    case Place => s.(main := Placing(s.main.placed + 1), jobs := s.jobs + [Sentinel])
    case Placed => s.(main := Joining(0))
    case Join => s.(main := Joining(s.main.joined + 1))
    case Finish => s.(main := Finished)
  }

  // The state worker w moves to.
  function Target(s: State, w: Worker, act: WorkerAction): Worker
    requires WorkerEnabled(s, w, act)
  {
    match act
    case Start(ok) => if ok then Serving else Leaving(false)
    case Take => if s.jobs[0].Sentinel? then Leaving(true) else Handling(s.jobs[0].line)
    case Answer => Finishing
    case Done => Serving
    case PostSignal => Notifying(w.served)
    case Send => Gone(w.served)
  }

  // What worker w (number i) does to the shared state.
  function Effect(s: State, i: nat, w: Worker, act: WorkerAction): State
    requires WorkerEnabled(s, w, act)
  {
    match act
    case Take =>
      if s.jobs[0].Sentinel? then s.(jobs := s.jobs[1..])
      else s.(jobs := s.jobs[1..], taken := s.taken + [s.jobs[0].line])
    case Answer => s.(answered := s.answered + [w.line])
    case PostSignal => s.(signals := s.signals + [i])
    case Send => s.(asyncPending := true, sends := s.sends + 1)
    case _ => s
  }

  function Apply(s: State, a: Action): State
    requires Enabled(s, a)
  {
    match a
    case ByMain(m) => MainApply(s, m)
    case ByWorker(w, act) =>
      Effect(s, w, s.workers[w], act).(workers := s.workers[w := Target(s, s.workers[w], act)])
  }

  function Initial(n: nat): State {
    State(Looping, [], [], false, false, n, seq(n, _ => Starting), [], [], [], 0, 0)
  }

  predicate Feasible(s: State, run: seq<Action>)
    decreases |run|
  {
    run == [] || (Enabled(s, run[0]) && Feasible(Apply(s, run[0]), run[1..]))
  }

  function Exec(s: State, run: seq<Action>): State
    requires Feasible(s, run)
    decreases |run|
  {
    if run == [] then s else Exec(Apply(s, run[0]), run[1..])
  }

  ghost predicate Stuck(s: State) {
    forall a :: !Enabled(s, a)
  }

  // A run that cannot be extended.
  ghost predicate Maximal(s: State, run: seq<Action>) {
    Feasible(s, run) && Stuck(Exec(s, run))
  }

  lemma {:induction false} ExecConcat(s: State, a: seq<Action>, b: seq<Action>)
    requires Feasible(s, a) && Feasible(Exec(s, a), b)
    ensures Feasible(s, a + b) && Exec(s, a + b) == Exec(Exec(s, a), b)
    decreases |a|
  {
    if a == [] {
      assert a + b == b;
    } else {
      assert (a + b)[1..] == a[1..] + b;
      ExecConcat(Apply(s, a[0]), a[1..], b);
    }
  }

  // ---------------------------------------------------------------- counting

  function Posted(w: Worker): nat { if w.Notifying? || w.Gone? then 1 else 0 }
  function IsGone(w: Worker): nat { if w.Gone? then 1 else 0 }
  function Served(w: Worker): nat {
    if w.Starting? || ((w.Leaving? || w.Notifying? || w.Gone?) && !w.served) then 0 else 1
  }
  function LeftServed(w: Worker): nat {
    if (w.Leaving? || w.Notifying? || w.Gone?) && w.served then 1 else 0
  }
  function Rank(w: Worker): nat {
    match w
    case Starting => 7
    case Serving => 5
    case Handling(_) => 8
    case Finishing => 7
    case Leaving(_) => 4
    case Notifying(_) => 3
    case Gone(_) => 0
  }

  // How often worker w holds line l unanswered.
  function Holds(l: Line): Worker -> nat {
    (w: Worker) => if w == Handling(l) then 1 else 0
  }

  function LinesOf(jobs: seq<Job>): (lines: seq<Line>)
    ensures |lines| <= |jobs|
  {
    if jobs == [] then []
    else (if jobs[0].Request? then [jobs[0].line] else []) + LinesOf(jobs[1..])
  }

  // No line stands behind a sentinel.
  predicate SentinelsLast(jobs: seq<Job>) {
    jobs == [] || (if jobs[0].Sentinel? then LinesOf(jobs) == [] else SentinelsLast(jobs[1..]))
  }

  lemma {:induction false} LinesOfAppend(jobs: seq<Job>, job: Job)
    ensures LinesOf(jobs + [job]) == LinesOf(jobs) + (if job.Request? then [job.line] else [])
  {
    if jobs == [] {
      assert [job][1..] == [];
    } else {
      assert (jobs + [job])[1..] == jobs[1..] + [job];
      LinesOfAppend(jobs[1..], job);
    }
  }

  // Sentinels go behind anything, lines only behind lines.
  lemma {:induction false} SentinelsStayLast(jobs: seq<Job>, job: Job)
    requires SentinelsLast(jobs) && (job.Sentinel? || |LinesOf(jobs)| == |jobs|)
    ensures SentinelsLast(jobs + [job])
  {
    if jobs == [] {
      assert [job][1..] == [];
    } else {
      assert (jobs + [job])[1..] == jobs[1..] + [job];
      if jobs[0].Sentinel? {
        LinesOfAppend(jobs, job);
      } else {
        SentinelsStayLast(jobs[1..], job);
      }
    }
  }

  lemma NoLinesLast(jobs: seq<Job>)
    requires LinesOf(jobs) == []
    ensures SentinelsLast(jobs)
  {
    assert jobs != [] && jobs[0].Request? ==> |LinesOf(jobs)| > 0;
  }

  lemma HeadTaken(jobs: seq<Job>)
    requires jobs != [] && SentinelsLast(jobs)
    ensures SentinelsLast(jobs[1..])
    ensures jobs[0].Request? ==> |LinesOf(jobs)| == |LinesOf(jobs[1..])| + 1
    ensures jobs[0].Sentinel? ==> LinesOf(jobs) == [] == LinesOf(jobs[1..])
  {
    if LinesOf(jobs[1..]) == [] {
      NoLinesLast(jobs[1..]);
    }
  }

  // How a measure of the workers changes when worker w takes a step.
  lemma Moves(s: State, w: nat, act: WorkerAction, f: Worker -> nat)
    requires Enabled(s, ByWorker(w, act))
    ensures Sum(Apply(s, ByWorker(w, act)).workers, f) + f(s.workers[w])
         == Sum(s.workers, f) + f(Target(s, s.workers[w], act))
  {
    SumUpdate(s.workers, w, Target(s, s.workers[w], act), f);
  }

  // ---------------------------------------------------------------- invariants

  function Bit(b: bool): nat { if b then 1 else 0 }

  predicate InLoop(s: State) { s.main.Looping? || s.main.Reading? || s.main.InCallback? }
  predicate InShutdown(s: State) { !InLoop(s) }

  function PlacedCount(s: State): nat {
    match s.main
    case Placing(k) => k
    case Joining(_) => |s.workers|
    case Finished => |s.workers|
    case _ => 0
  }

  // Accounting of termination messages, asynchronous sends and callbacks.
  predicate Signalling(s: State) {
    && |s.signals| <= SIGNAL_CAPACITY
    && |s.signals| + s.callbacks == Sum(s.workers, Posted)
    && s.sends == Sum(s.workers, IsGone)
    && s.callbacks + Bit(s.asyncPending) + Bit(s.main.InCallback?) <= s.sends
    && s.active == |s.workers| - s.callbacks
  }

  // Sentinels stand behind all lines, one for every worker told to leave.
  predicate Draining(s: State) {
    && |s.jobs| <= JOB_CAPACITY
    && SentinelsLast(s.jobs)
    && |s.jobs| - |LinesOf(s.jobs)| + Sum(s.workers, LeftServed) == PlacedCount(s) <= |s.workers|
    && (Sum(s.workers, LeftServed) > 0 ==> LinesOf(s.jobs) == [])
  }

  // Lines leave the queue in arrival order, and only for a worker that serves.
  predicate Ordered(s: State) {
    && s.received == s.taken + LinesOf(s.jobs)
    && (Sum(s.workers, Served) == 0 ==> s.taken == [])
  }

  // Every line taken is held by one worker or has been answered, exactly once.
  ghost predicate HeldOnce(taken: seq<Line>, workers: seq<Worker>, answered: seq<Line>) {
    forall l :: multiset(taken)[l] == Sum(workers, Holds(l)) + multiset(answered)[l]
  }

  predicate JoinedGone(s: State) {
    && (s.main.Joining? ==> s.main.joined <= |s.workers|
                            && forall i :: 0 <= i < s.main.joined ==> s.workers[i].Gone?)
    && (s.main.Finished? ==> forall i :: 0 <= i < |s.workers| ==> s.workers[i].Gone?)
  }

  ghost predicate Inv(s: State) {
    Signalling(s) && Draining(s) && Ordered(s) && HeldOnce(s.taken, s.workers, s.answered) && JoinedGone(s)
  }

  lemma {:induction false} InitialCounts(n: nat)
    ensures forall f: Worker -> nat :: f(Starting) == 0 ==> Sum(seq(n, _ => Starting), f) == 0
  {
    if n > 0 {
      assert seq(n, _ => Starting)[1..] == seq(n - 1, _ => Starting);
      InitialCounts(n - 1);
    }
  }

  lemma InvInitial(n: nat)
    ensures Inv(Initial(n))
  {
    InitialCounts(n);
    assert Sum(Initial(n).workers, Posted) == 0;
    assert Sum(Initial(n).workers, IsGone) == 0;
    assert Sum(Initial(n).workers, LeftServed) == 0;
  }

  lemma SignallingByMain(s: State, m: MainAction)
    requires Signalling(s) && MainEnabled(s, m)
    ensures Signalling(MainApply(s, m))
  {
  }

  lemma SignallingByWorker(s: State, w: nat, act: WorkerAction)
    requires Signalling(s) && Enabled(s, ByWorker(w, act))
    ensures Signalling(Apply(s, ByWorker(w, act)))
  {
    Moves(s, w, act, Posted);
    Moves(s, w, act, IsGone);
  }

  lemma DrainingPut(s: State)
    requires Draining(s) && MainEnabled(s, PutLine)
    ensures Draining(MainApply(s, PutLine))
  {
    SentinelsStayLast(s.jobs, Request(s.main.pending[0]));
    LinesOfAppend(s.jobs, Request(s.main.pending[0]));
  }

  lemma DrainingPlace(s: State)
    requires Draining(s) && MainEnabled(s, Place)
    ensures Draining(MainApply(s, Place))
  {
    SentinelsStayLast(s.jobs, Sentinel);
    LinesOfAppend(s.jobs, Sentinel);
  }

  lemma DrainingByMain(s: State, m: MainAction)
    requires Draining(s) && MainEnabled(s, m)
    ensures Draining(MainApply(s, m))
  {
    match m
    case PutLine => DrainingPut(s);
    case Place => DrainingPlace(s);
    case _ =>
  }

  lemma DrainingByWorker(s: State, w: nat, act: WorkerAction)
    requires Draining(s) && Enabled(s, ByWorker(w, act))
    ensures Draining(Apply(s, ByWorker(w, act)))
  {
    if act.Take? {
      DrainingTake(s, w);
    } else {
      Moves(s, w, act, LeftServed);
    }
  }

  lemma DrainingTake(s: State, w: nat)
    requires Draining(s) && Enabled(s, ByWorker(w, Take))
    ensures Draining(Apply(s, ByWorker(w, Take)))
  {
    Moves(s, w, Take, LeftServed);
    HeadTaken(s.jobs);
  }

  lemma OrderedByMain(s: State, m: MainAction)
    requires Ordered(s) && MainEnabled(s, m)
    ensures Ordered(MainApply(s, m))
  {
    match m
    case PutLine => LinesOfAppend(s.jobs, Request(s.main.pending[0]));
    case Place => LinesOfAppend(s.jobs, Sentinel);
    case _ =>
  }

  lemma OrderedByWorker(s: State, w: nat, act: WorkerAction)
    requires Ordered(s) && Enabled(s, ByWorker(w, act))
    ensures Ordered(Apply(s, ByWorker(w, act)))
  {
    Moves(s, w, act, Served);
    SumRange(Apply(s, ByWorker(w, act)).workers, w, Served);
  }

  lemma HeldOnceByWorker(s: State, w: nat, act: WorkerAction)
    requires HeldOnce(s.taken, s.workers, s.answered) && Enabled(s, ByWorker(w, act))
    ensures var t := Apply(s, ByWorker(w, act)); HeldOnce(t.taken, t.workers, t.answered)
  {
    var t := Apply(s, ByWorker(w, act));
    var from, to := s.workers[w], Target(s, s.workers[w], act);
    assert multiset(t.taken) == multiset(s.taken) + (if to.Handling? then multiset{to.line} else multiset{});
    assert multiset(t.answered) == multiset(s.answered) + (if from.Handling? then multiset{from.line} else multiset{});
    forall l
      ensures multiset(t.taken)[l] == Sum(t.workers, Holds(l)) + multiset(t.answered)[l]
    {
      SumUpdate(s.workers, w, to, Holds(l));
    }
  }

  lemma JoinedGoneStep(s: State, a: Action)
    requires JoinedGone(s) && Enabled(s, a)
    ensures JoinedGone(Apply(s, a))
  {
  }

  lemma InvStep(s: State, a: Action)
    requires Inv(s) && Enabled(s, a)
    ensures Inv(Apply(s, a))
  {
    JoinedGoneStep(s, a);
    match a
    case ByMain(m) =>
      SignallingByMain(s, m);
      DrainingByMain(s, m);
      OrderedByMain(s, m);
    case ByWorker(w, act) =>
      SignallingByWorker(s, w, act);
      DrainingByWorker(s, w, act);
      OrderedByWorker(s, w, act);
      HeldOnceByWorker(s, w, act);
  }

  lemma {:induction false} InvExec(s: State, run: seq<Action>)
    requires Inv(s) && Feasible(s, run)
    ensures Inv(Exec(s, run))
    decreases |run|
  {
    if run != [] {
      InvStep(s, run[0]);
      InvExec(Apply(s, run[0]), run[1..]);
    }
  }

  // ---------------------------------------------------------------- input

  // The lines each reading step of a run brings.
  function Inputs(run: seq<Action>): seq<seq<Line>> {
    if run == [] then []
    else (if run[0].ByMain? && run[0].m.ReadChunk? then [run[0].m.lines] else []) + Inputs(run[1..])
  }

  function Flat(parts: seq<seq<Line>>): seq<Line> {
    if parts == [] then [] else parts[0] + Flat(parts[1..])
  }

  function BeingRead(s: State): seq<Line> {
    if s.main.Reading? then s.main.pending else []
  }

  lemma InputStep(s: State, a: Action)
    requires Enabled(s, a)
    ensures Apply(s, a).received + BeingRead(Apply(s, a)) == s.received + BeingRead(s) + Flat(Inputs([a]))
  {
    InputsOfOne(a);
    if a.ByMain? {
      InputByMain(s, a.m);
    }
  }

  lemma InputByMain(s: State, m: MainAction)
    requires MainEnabled(s, m)
    ensures var t := MainApply(s, m);
      t.received + BeingRead(t) == s.received + BeingRead(s) + if m.ReadChunk? then m.lines else []
  {
    if m.PutLine? {
      assert s.main.pending == [s.main.pending[0]] + s.main.pending[1..];
    }
  }

  lemma InputsOfOne(a: Action)
    ensures Flat(Inputs([a])) == if a.ByMain? && a.m.ReadChunk? then a.m.lines else []
  {
    assert [a][1..] == [] && Inputs([a][1..]) == [];
    if a.ByMain? && a.m.ReadChunk? {
      assert Inputs([a]) == [a.m.lines] && [a.m.lines][1..] == [];
    }
  }

  lemma FlatConcat(a: seq<seq<Line>>, b: seq<seq<Line>>)
    requires |a| <= 1
    ensures Flat(a + b) == Flat(a) + Flat(b)
  {
    if a == [] {
      assert a + b == b;
    } else {
      assert (a + b)[1..] == b && a[1..] == [];
    }
  }

  // The lines received, then those being read, are those the reading steps brought, in order.
  lemma {:induction false} ReceivedIsInput(s: State, run: seq<Action>)
    requires Feasible(s, run)
    ensures var t := Exec(s, run); t.received + BeingRead(t) == s.received + BeingRead(s) + Flat(Inputs(run))
    decreases |run|
  {
    if run != [] {
      InputStep(s, run[0]);
      assert [run[0]][1..] == [];
      assert Inputs(run) == Inputs([run[0]]) + Inputs(run[1..]);
      FlatConcat(Inputs([run[0]]), Inputs(run[1..]));
      ReceivedIsInput(Apply(s, run[0]), run[1..]);
    }
  }

  // ---------------------------------------------------------------- answers

  // In every reachable state the lines received are, in order, the lines taken and the
  // lines queued; each line taken is held by one worker or answered, once.
  lemma LinesConserved(n: nat, run: seq<Action>)
    requires Feasible(Initial(n), run)
    ensures var s := Exec(Initial(n), run);
      && s.received == s.taken + LinesOf(s.jobs)
      && HeldOnce(s.taken, s.workers, s.answered)
  {
    InvInitial(n);
    InvExec(Initial(n), run);
  }

  // Once all workers are joined, every line was answered exactly once if and only if some
  // worker got through thread_init (or there was no line); otherwise none was answered.
  lemma EveryLineAnsweredOnce(n: nat, run: seq<Action>)
    requires Feasible(Initial(n), run) && Exec(Initial(n), run).main.Finished?
    ensures var s := Exec(Initial(n), run);
      && (multiset(s.answered) == multiset(s.received) <==> (Sum(s.workers, Served) > 0 || s.received == []))
      && (Sum(s.workers, Served) > 0 ==> LinesOf(s.jobs) == [])
      && (Sum(s.workers, Served) == 0 ==> s.answered == [])
  {
    InvInitial(n);
    InvExec(Initial(n), run);
    var s := Exec(Initial(n), run);
    SumSame(s.workers, Served, LeftServed);
    forall l ensures multiset(s.taken)[l] == multiset(s.answered)[l] {
      NoneHolds(s.workers, l);
    }
    assert multiset(s.taken) == multiset(s.answered);
    if Sum(s.workers, Served) == 0 {
      assert |multiset(s.answered)| == 0;
      assert |multiset(s.received)| == |s.received|;
    }
  }

  lemma {:induction false} NoneHolds(ws: seq<Worker>, l: Line)
    requires forall i :: 0 <= i < |ws| ==> !ws[i].Handling?
    ensures Sum(ws, Holds(l)) == 0
  {
    if ws != [] {
      assert forall i :: 0 <= i < |ws[1..]| ==> ws[1..][i] == ws[i + 1];
      NoneHolds(ws[1..], l);
    }
  }

  function InHand(w: Worker): seq<Line> { if w.Handling? then [w.line] else [] }

  predicate InOrder(s: State) {
    |s.workers| == 1 && s.taken == s.answered + InHand(s.workers[0])
  }

  lemma {:induction false} InOrderExec(s: State, run: seq<Action>)
    requires InOrder(s) && Feasible(s, run)
    ensures InOrder(Exec(s, run))
    decreases |run|
  {
    if run != [] {
      assert InOrder(Apply(s, run[0]));
      InOrderExec(Apply(s, run[0]), run[1..]);
    }
  }

  // A single worker answers in the order of arrival.
  lemma SingleWorkerAnswersInOrder(run: seq<Action>)
    requires Feasible(Initial(1), run)
    ensures var s := Exec(Initial(1), run);
      |s.workers| == 1 && s.received == s.answered + InHand(s.workers[0]) + LinesOf(s.jobs)
  {
    LinesConserved(1, run);
    InOrderExec(Initial(1), run);
  }

  // ---------------------------------------------------------------- termination messages

  // Coalesced sends never make a callback wait: a callback in progress finds a message.
  // `active_workers` counts the messages not yet received, never underflows, and reaches
  // zero only when every worker is gone.
  lemma CallbackNeverBlocks(n: nat, run: seq<Action>)
    requires Feasible(Initial(n), run)
    ensures var s := Exec(Initial(n), run);
      && s.callbacks + Bit(s.asyncPending) + Bit(s.main.InCallback?) <= s.sends <= s.callbacks + |s.signals|
      && (s.main.InCallback? ==> Enabled(s, ByMain(TakeSignal)))
      && s.active == |s.workers| - s.callbacks >= 0
      && (s.main.InCallback? ==> s.active > 0)
      && (s.active == 0 ==> forall i :: 0 <= i < |s.workers| ==> s.workers[i].Gone?)
  {
    InvInitial(n);
    InvExec(Initial(n), run);
    var s := Exec(Initial(n), run);
    GoneArePosted(s.workers);
    SumAtMost(s.workers, IsGone);
    if s.active == 0 {
      forall i | 0 <= i < |s.workers| ensures s.workers[i].Gone? {
        SumRange(s.workers, i, IsGone);
      }
    }
  }

  lemma {:induction false} GoneArePosted(ws: seq<Worker>)
    ensures Sum(ws, IsGone) <= Sum(ws, Posted)
  {
    if ws != [] {
      GoneArePosted(ws[1..]);
    }
  }

  // ---------------------------------------------------------------- a measure of the work left

  // Everything but reading more input and receiving a signal.
  predicate Quiet(a: Action) {
    a.ByMain? ==> !a.m.ReadChunk? && !a.m.Interrupt?
  }

  function MainRank(s: State): nat {
    match s.main
    case Looping => 7 * |s.workers| + 10
    case Reading(pending) => 7 * |s.workers| + 11 + 5 * |pending|
    case InCallback => 7 * |s.workers| + 11
    case Placing(k) => if k <= |s.workers| then 5 * (|s.workers| - k) + |s.workers| + 3 else 0
    case Joining(k) => if k <= |s.workers| then |s.workers| - k + 1 else 0
    case Finished => 0
  }

  function Measure(s: State): nat {
    MainRank(s) + 4 * |s.jobs| + 2 * Bit(s.asyncPending) + Sum(s.workers, Rank)
  }

  lemma MeasureDropsByMain(s: State, m: MainAction)
    requires Quiet(ByMain(m)) && MainEnabled(s, m)
    ensures Measure(MainApply(s, m)) < Measure(s)
  {
  }

  lemma MeasureDropsByWorker(s: State, w: nat, act: WorkerAction)
    requires Enabled(s, ByWorker(w, act))
    ensures Measure(Apply(s, ByWorker(w, act))) < Measure(s)
  {
    var t := Apply(s, ByWorker(w, act));
    Moves(s, w, act, Rank);
    assert MainRank(t) == MainRank(s);
  }

  lemma MeasureDrops(s: State, a: Action)
    requires Quiet(a) && Enabled(s, a)
    ensures Measure(Apply(s, a)) < Measure(s)
  {
    match a
    case ByMain(m) => MeasureDropsByMain(s, m);
    case ByWorker(w, act) => MeasureDropsByWorker(s, w, act);
  }

  predicate QuietRun(run: seq<Action>) {
    forall i :: 0 <= i < |run| ==> Quiet(run[i])
  }

  // Without further input and signals every interleaving is finite, in every phase.
  lemma {:induction false} QuietRunsFinite(s: State, run: seq<Action>)
    requires Feasible(s, run) && QuietRun(run)
    ensures |run| + Measure(Exec(s, run)) <= Measure(s)
    decreases |run|
  {
    if run != [] {
      MeasureDrops(s, run[0]);
      assert forall i :: 0 <= i < |run[1..]| ==> run[1..][i] == run[i + 1];
      QuietRunsFinite(Apply(s, run[0]), run[1..]);
    }
  }

  // ---------------------------------------------------------------- shutdown

  // After the event loop returned, every interleaving is finite.
  lemma {:induction false} ShutdownFinite(s: State, run: seq<Action>)
    requires InShutdown(s) && Feasible(s, run)
    ensures InShutdown(Exec(s, run)) && |run| + Measure(Exec(s, run)) <= Measure(s)
    decreases |run|
  {
    if run != [] {
      MeasureDrops(s, run[0]);
      ShutdownFinite(Apply(s, run[0]), run[1..]);
    }
  }

  // Room for the termination messages nobody receives any more, and for the sentinels:
  // either they fit behind the queued jobs, or a serving worker empties the queue first
  // and those not consumed by a serving worker fit.
  predicate CanComplete(s: State) {
    && s.active <= 8
    && (|s.jobs| + (|s.workers| - PlacedCount(s)) <= 256
        || (Sum(s.workers, Served) >= 1 && |s.workers| - Sum(s.workers, Served) <= 256))
  }

  lemma CanCompleteStep(s: State, a: Action)
    requires InShutdown(s) && CanComplete(s) && Enabled(s, a)
    ensures CanComplete(Apply(s, a))
  {
    if a.ByWorker? {
      Moves(s, a.w, a.act, Served);
    }
  }

  lemma {:induction false} CanCompleteExec(s: State, run: seq<Action>)
    requires InShutdown(s) && CanComplete(s) && Feasible(s, run)
    ensures CanComplete(Exec(s, run))
    decreases |run|
  {
    if run != [] {
      CanCompleteStep(s, run[0]);
      CanCompleteExec(Apply(s, run[0]), run[1..]);
    }
  }

  // In a stuck shutdown state with room for its messages, a worker is gone or waits for a job.
  lemma StuckWorker(s: State, i: nat)
    requires Inv(s) && InShutdown(s) && s.active <= SIGNAL_CAPACITY && Stuck(s) && i < |s.workers|
    ensures s.workers[i].Gone? || (s.workers[i].Serving? && s.jobs == [])
  {
    assert forall act :: !Enabled(s, ByWorker(i, act));
    assert !Enabled(s, ByWorker(i, Start(true))) && !Enabled(s, ByWorker(i, Take))
        && !Enabled(s, ByWorker(i, Answer)) && !Enabled(s, ByWorker(i, Done))
        && !Enabled(s, ByWorker(i, PostSignal)) && !Enabled(s, ByWorker(i, Send));
    SumRange(s.workers, i, Posted);
  }

  lemma StuckIsFinished(s: State)
    requires Inv(s) && InShutdown(s) && CanComplete(s) && Stuck(s)
    ensures s.main.Finished?
  {
    assert !Enabled(s, ByMain(Place)) && !Enabled(s, ByMain(Placed))
        && !Enabled(s, ByMain(Join)) && !Enabled(s, ByMain(Finish));
    if s.main.Placing? {
      forall i | 0 <= i < |s.workers| ensures s.workers[i].Gone? {
        StuckWorker(s, i);
      }
      SumSame(s.workers, Served, LeftServed);
      assert false;
    } else if s.main.Joining? {
      var k := s.main.joined;
      StuckWorker(s, k);
      SumRange(s.workers, k, LeftServed);
      assert false;
    }
  }

  // Every maximal run from here joins all workers.
  ghost predicate AlwaysCompletes(s: State) {
    forall run :: Maximal(s, run) ==> Exec(s, run).main.Finished?
  }

  // With more unreceived messages than signal slots no run completes.
  lemma TooManyMessages(s: State, run: seq<Action>)
    requires Inv(s) && InShutdown(s) && s.active > SIGNAL_CAPACITY && Feasible(s, run)
    ensures !Exec(s, run).main.Finished?
  {
    InvExec(s, run);
    ActiveConstant(s, run);
    var t := Exec(s, run);
    if t.main.Finished? {
      SumSame(t.workers, Posted, IsGone);
      AllGone(t.workers);
    }
  }

  lemma {:induction false} ActiveConstant(s: State, run: seq<Action>)
    requires InShutdown(s) && Feasible(s, run)
    ensures Exec(s, run).active == s.active
    decreases |run|
  {
    if run != [] {
      ActiveConstant(Apply(s, run[0]), run[1..]);
    }
  }

  // A pool that cannot complete and in which no worker can still enter service.
  predicate Doomed(s: State) {
    && (forall i :: 0 <= i < |s.workers| ==> !s.workers[i].Starting?)
    && !CanComplete(s)
  }

  lemma DoomedByMain(s: State, m: MainAction)
    requires Draining(s) && InShutdown(s) && Doomed(s) && MainEnabled(s, m)
    ensures Doomed(MainApply(s, m))
  {
  }

  lemma DoomedByWorker(s: State, w: nat, act: WorkerAction)
    requires Draining(s) && Doomed(s) && Enabled(s, ByWorker(w, act))
    ensures Doomed(Apply(s, ByWorker(w, act)))
  {
    Moves(s, w, act, Served);
    SumRange(s.workers, w, Served);
    DrainingByWorker(s, w, act);
    LeftAreServed(Apply(s, ByWorker(w, act)).workers);
  }

  lemma DoomedStep(s: State, a: Action)
    requires Inv(s) && InShutdown(s) && Doomed(s) && Enabled(s, a)
    ensures Doomed(Apply(s, a))
  {
    match a
    case ByMain(m) => DoomedByMain(s, m);
    case ByWorker(w, act) => DoomedByWorker(s, w, act);
  }

  lemma {:induction false} LeftAreServed(ws: seq<Worker>)
    ensures Sum(ws, LeftServed) <= Sum(ws, Served)
  {
    if ws != [] {
      LeftAreServed(ws[1..]);
    }
  }

  lemma {:induction false} DoomedExec(s: State, run: seq<Action>)
    requires Inv(s) && InShutdown(s) && Doomed(s) && Feasible(s, run)
    ensures !Exec(s, run).main.Finished?
    decreases |run|
  {
    if run != [] {
      DoomedStep(s, run[0]);
      InvStep(s, run[0]);
      DoomedExec(Apply(s, run[0]), run[1..]);
    } else {
      DoomedUnfinished(s);
    }
  }

  lemma DoomedUnfinished(s: State)
    requires Inv(s) && !CanComplete(s)
    ensures !s.main.Finished?
  {
    if s.main.Finished? {
      SumSame(s.workers, Posted, IsGone);
      AllGone(s.workers);
    }
  }

  lemma {:induction false} AllGone(ws: seq<Worker>)
    requires forall i :: 0 <= i < |ws| ==> ws[i].Gone?
    ensures Sum(ws, IsGone) == |ws|
  {
    if ws != [] {
      assert forall i :: 0 <= i < |ws[1..]| ==> ws[1..][i] == ws[i + 1];
      AllGone(ws[1..]);
    }
  }

  // Let every worker that is still starting fail, from number i on.
  lemma {:induction false} FailStarting(s: State, i: nat) returns (run: seq<Action>)
    requires Inv(s) && InShutdown(s) && !CanComplete(s) && i <= |s.workers|
    requires forall j :: 0 <= j < i ==> !s.workers[j].Starting?
    ensures Feasible(s, run) && Inv(Exec(s, run)) && InShutdown(Exec(s, run)) && Doomed(Exec(s, run))
    decreases |s.workers| - i
  {
    if i == |s.workers| {
      run := [];
    } else if !s.workers[i].Starting? {
      run := FailStarting(s, i + 1);
    } else {
      var a := ByWorker(i, Start(false));
      InvStep(s, a);
      Moves(s, i, Start(false), Served);
      var rest := FailStarting(Apply(s, a), i + 1);
      run := [a] + rest;
    }
  }

  // Every shutdown state can be run until nothing can move.
  lemma {:induction false} RunToEnd(s: State) returns (run: seq<Action>)
    requires InShutdown(s)
    ensures Maximal(s, run)
    decreases Measure(s)
  {
    if Stuck(s) {
      run := [];
    } else {
      var a :| Enabled(s, a);
      MeasureDrops(s, a);
      var rest := RunToEnd(Apply(s, a));
      run := [a] + rest;
    }
  }

  // Exactly when shutdown terminates: from any reachable state at the end of the event
  // loop, every maximal run joins all workers if and only if CanComplete holds there.
  lemma ShutdownCompletesExactlyWhen(n: nat, before: seq<Action>)
    requires Feasible(Initial(n), before) && InShutdown(Exec(Initial(n), before))
    ensures AlwaysCompletes(Exec(Initial(n), before)) <==> CanComplete(Exec(Initial(n), before))
  {
    var s := Exec(Initial(n), before);
    InvInitial(n);
    InvExec(Initial(n), before);
    if CanComplete(s) {
      forall run | Maximal(s, run) ensures Exec(s, run).main.Finished? {
        InvExec(s, run);
        ShutdownFinite(s, run);
        CanCompleteExec(s, run);
        StuckIsFinished(Exec(s, run));
      }
    } else {
      var fail := FailStarting(s, 0);
      var d := Exec(s, fail);
      var rest := RunToEnd(d);
      DoomedExec(d, rest);
      ExecConcat(s, fail, rest);
      assert Maximal(s, fail + rest);
    }
  }

  // Up to eight workers, one of them serving when the event loop ends: shutdown completes.
  lemma EightWorkersComplete(n: nat, before: seq<Action>)
    requires n <= 8
    requires Feasible(Initial(n), before) && Exec(Initial(n), before).main == Placing(0)
    requires Sum(Exec(Initial(n), before).workers, Served) >= 1
    ensures AlwaysCompletes(Exec(Initial(n), before))
  {
    InvInitial(n);
    InvExec(Initial(n), before);
    SameWorkers(Initial(n), before);
    ShutdownCompletesExactlyWhen(n, before);
  }

  lemma {:induction false} SameWorkers(s: State, run: seq<Action>)
    requires Feasible(s, run)
    ensures |Exec(s, run).workers| == |s.workers|
    decreases |run|
  {
    if run != [] {
      SameWorkers(Apply(s, run[0]), run[1..]);
    }
  }

  // Nine workers none of which reported before the event loop ended: no run ever completes,
  // because the ninth message finds the signal queue full and nobody receives.
  lemma NineWorkersStick(n: nat, before: seq<Action>, run: seq<Action>)
    requires n > 8
    requires Feasible(Initial(n), before) && Exec(Initial(n), before).main == Placing(0)
    requires Exec(Initial(n), before).callbacks == 0
    requires Feasible(Exec(Initial(n), before), run)
    ensures !Exec(Exec(Initial(n), before), run).main.Finished?
  {
    InvInitial(n);
    InvExec(Initial(n), before);
    SameWorkers(Initial(n), before);
    TooManyMessages(Exec(Initial(n), before), run);
  }
}
