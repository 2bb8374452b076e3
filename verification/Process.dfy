/** The whole helper: the threads over the two queues as queue.c implements them, each worker going
    through the plugin chain and its cache with the lines it takes and writing its responses, all
    steps interleaved (src/core/main.c, worker; src/thirdparty/c-pthread-queue/queue.c). */
module Process {
  import Sums
  import C = Chain
  import E = EndToEnd
  import G = ThreadRuns
  import H = Threads
  import P = Pool
  import S = Splitter
  import V = Service

  datatype State = State(threads: H.State, chain: C.State, written: seq<string>)

  datatype Action =
    | Thread(a: H.Action)    // a step of main thread or worker outside the handling of a request
    | Request(v: V.Action)   // a step of the handling of a request, an eviction or a reload

  predicate OfRequest(p: P.Action) { p.ByWorker? && (p.act.Answer? || p.act.Done?) }

  // The threads' own knowledge: no queue, no history of lines.
  function Known(s: State): V.State { V.State(H.Bare(s.threads.control), s.chain, s.written) }

  predicate Enabled(r: V.Wire, s: State, a: Action) {
    match a
    case Thread(h) => H.Enabled(s.threads, h) && (h.Local? ==> !OfRequest(h.p))
    case Request(v) =>
      && s.threads.jobs.ring.Valid() && s.threads.signals.ring.Valid()
      && !v.Pool? && V.Enabled(r, Known(s), v) && (V.OfWorker(v) ==> H.Out(s.threads, v.w))
  }

  function Apply(c: C.Config, r: V.Wire, s: State, a: Action): State
    requires Enabled(r, s, a)
  {
    match a
    case Thread(h) => s.(threads := H.Apply(s.threads, h))
    case Request(v) =>
      var t := V.Apply(c, r, Known(s), v);
      State(s.threads.(control := H.ControlOf(t.pool)), t.chain, t.written)
  }

  function Initial(n: nat, store: map<string, string>): State {
    State(H.Initial(n), C.Initial(n, store), [])
  }

  predicate Feasible(c: C.Config, r: V.Wire, s: State, run: seq<Action>)
    decreases |run|
  {
    run == [] || (Enabled(r, s, run[0]) && Feasible(c, r, Apply(c, r, s, run[0]), run[1..]))
  }

  function Exec(c: C.Config, r: V.Wire, s: State, run: seq<Action>): State
    requires Feasible(c, r, s, run)
    decreases |run|
  {
    if run == [] then s else Exec(c, r, Apply(c, r, s, run[0]), run[1..])
  }

  // ---------------------------------------------------------------- the service seen in it

  function Seen(s: State): V.State
    requires H.Shaped(s.threads)
  {
    V.State(H.Seen(s.threads), s.chain, s.written)
  }

  ghost predicate Inv(r: V.Wire, s: State) { H.Inv(s.threads) && V.Inv(r, Seen(s)) }

  // The step of the service that a step of the process is, if it is one.
  function ServiceSteps(r: V.Wire, s: State, a: Action): seq<V.Action>
    requires Enabled(r, s, a)
  {
    match a
    case Thread(h) => if H.PoolSteps(s.threads, h) == [] then [] else [V.Pool(H.PoolSteps(s.threads, h)[0])]
    case Request(v) => [v]
  }

  lemma ThreadRefines(c: C.Config, r: V.Wire, s: State, h: H.Action)
    requires H.Inv(s.threads) && Enabled(r, s, Thread(h))
    ensures var steps, t := ServiceSteps(r, s, Thread(h)), Apply(c, r, s, Thread(h));
      && H.Inv(t.threads)
      && if steps == [] then Seen(t) == Seen(s)
         else V.Enabled(r, Seen(s), steps[0]) && Seen(t) == V.Apply(c, r, Seen(s), steps[0])
  {
    H.StepRefines(s.threads, h);
    assert s.written + [] == s.written;
  }

  // A worker outside both queues: the service sees its control.
  lemma OutSeen(s: State, w: nat)
    requires H.Inv(s.threads) && H.Out(s.threads, w) && w < |s.threads.control.workers|
    ensures H.Seen(s.threads).workers[w] == s.threads.control.workers[w]
  {
  }

  lemma RequestSeen(r: V.Wire, s: State, v: V.Action)
    requires Inv(r, s) && Enabled(r, s, Request(v))
    ensures V.Enabled(r, Seen(s), v)
    ensures V.PoolSteps(v) != [] ==> V.OfWorker(v) && H.Enabled(s.threads, H.Local(V.PoolSteps(v)[0]))
  {
    if V.OfWorker(v) && v.w < |s.threads.control.workers| {
      OutSeen(s, v.w);
    }
  }

  lemma RequestRefines(c: C.Config, r: V.Wire, s: State, v: V.Action)
    requires Inv(r, s) && Enabled(r, s, Request(v))
    ensures H.Inv(Apply(c, r, s, Request(v)).threads) && V.Enabled(r, Seen(s), v)
    ensures Seen(Apply(c, r, s, Request(v))) == V.Apply(c, r, Seen(s), v)
  {
    RequestSeen(r, s, v);
    var steps := V.PoolSteps(v);
    if steps == [] {
      assert Apply(c, r, s, Request(v)).threads == s.threads;
    } else {
      OutSeen(s, v.w);
      H.StepRefines(s.threads, H.Local(steps[0]));
      assert Apply(c, r, s, Request(v)).threads == H.Apply(s.threads, H.Local(steps[0]));
    }
  }

  // Each step of the process is that step of the service, or invisible.
  lemma StepRefines(c: C.Config, r: V.Wire, s: State, a: Action)
    requires Inv(r, s) && Enabled(r, s, a)
    ensures var steps, t := ServiceSteps(r, s, a), Apply(c, r, s, a);
      && Inv(r, t)
      && if steps == [] then Seen(t) == Seen(s)
         else V.Enabled(r, Seen(s), steps[0]) && Seen(t) == V.Apply(c, r, Seen(s), steps[0])
  {
    match a {
      case Thread(h) => ThreadRefines(c, r, s, h);
      case Request(v) => RequestRefines(c, r, s, v);
    }
    var steps := ServiceSteps(r, s, a);
    if steps != [] {
      V.LinkedStep(c, r, Seen(s), steps[0]);
      V.PairedStep(c, r, Seen(s), steps[0]);
    }
  }

  lemma InvInitial(r: V.Wire, n: nat, store0: map<string, string>)
    ensures Inv(r, Initial(n, store0)) && Seen(Initial(n, store0)) == V.Initial(n, store0)
  {
    H.InvInitial(n);
    V.InvInitial(r, n, store0);
  }

  function ServiceRun(c: C.Config, r: V.Wire, s: State, run: seq<Action>): seq<V.Action>
    requires Feasible(c, r, s, run)
    decreases |run|
  {
    if run == [] then [] else ServiceSteps(r, s, run[0]) + ServiceRun(c, r, Apply(c, r, s, run[0]), run[1..])
  }

  lemma FewSteps(c: C.Config, r: V.Wire, s: V.State, steps: seq<V.Action>, t: V.State)
    requires |steps| <= 1 && (steps == [] ==> t == s)
    requires steps != [] ==> V.Enabled(r, s, steps[0]) && t == V.Apply(c, r, s, steps[0])
    ensures V.Feasible(c, r, s, steps) && V.Exec(c, r, s, steps) == t
  {
    if steps != [] {
      assert steps[1..] == [];
      assert V.Exec(c, r, t, []) == t;
    }
  }

  lemma FirstThread(c: C.Config, r: V.Wire, s: State, h: H.Action)
    requires Inv(r, s) && Enabled(r, s, Thread(h))
    ensures H.Shaped(Apply(c, r, s, Thread(h)).threads)
    ensures V.Feasible(c, r, Seen(s), ServiceSteps(r, s, Thread(h)))
    ensures V.Exec(c, r, Seen(s), ServiceSteps(r, s, Thread(h))) == Seen(Apply(c, r, s, Thread(h)))
  {
    ThreadRefines(c, r, s, h);
    FewSteps(c, r, Seen(s), ServiceSteps(r, s, Thread(h)), Seen(Apply(c, r, s, Thread(h))));
  }

  lemma FirstRequest(c: C.Config, r: V.Wire, s: State, v: V.Action)
    requires Inv(r, s) && Enabled(r, s, Request(v))
    ensures H.Shaped(Apply(c, r, s, Request(v)).threads)
    ensures V.Feasible(c, r, Seen(s), [v])
    ensures V.Exec(c, r, Seen(s), [v]) == Seen(Apply(c, r, s, Request(v)))
  {
    RequestRefines(c, r, s, v);
    FewSteps(c, r, Seen(s), [v], Seen(Apply(c, r, s, Request(v))));
  }

  lemma FirstStep(c: C.Config, r: V.Wire, s: State, a: Action)
    requires Inv(r, s) && Enabled(r, s, a)
    ensures Inv(r, Apply(c, r, s, a)) && V.Feasible(c, r, Seen(s), ServiceSteps(r, s, a))
    ensures V.Exec(c, r, Seen(s), ServiceSteps(r, s, a)) == Seen(Apply(c, r, s, a))
  {
    KeptInv(c, r, s, a);
    match a
    case Thread(h) => FirstThread(c, r, s, h);
    case Request(v) => FirstRequest(c, r, s, v);
  }

  // Every run of the process is a run of the service one sees in it.
  lemma {:induction false} ProcessRefinesService(c: C.Config, r: V.Wire, s: State, run: seq<Action>)
    requires Inv(r, s) && Feasible(c, r, s, run)
    ensures V.Feasible(c, r, Seen(s), ServiceRun(c, r, s, run)) && Inv(r, Exec(c, r, s, run))
    ensures V.Exec(c, r, Seen(s), ServiceRun(c, r, s, run)) == Seen(Exec(c, r, s, run))
    decreases |run|
  {
    if run != [] {
      var steps, next := ServiceSteps(r, s, run[0]), Apply(c, r, s, run[0]);
      FirstStep(c, r, s, run[0]);
      ProcessRefinesService(c, r, next, run[1..]);
      V.ExecConcat(c, r, Seen(s), steps, ServiceRun(c, r, next, run[1..]));
    }
  }

  lemma Reachable(c: C.Config, r: V.Wire, store0: map<string, string>, n: nat, run: seq<Action>)
    requires Feasible(c, r, Initial(n, store0), run)
    ensures var s0, s := Initial(n, store0), Exec(c, r, Initial(n, store0), run);
      && Inv(r, s) && V.Feasible(c, r, V.Initial(n, store0), ServiceRun(c, r, s0, run))
      && V.Exec(c, r, V.Initial(n, store0), ServiceRun(c, r, s0, run)) == Seen(s)
  {
    InvInitial(r, n, store0);
    ProcessRefinesService(c, r, Initial(n, store0), run);
  }

  // ---------------------------------------------------------------- from the chunks to the responses

  // The lines each reading step of a run brings.
  function Inputs(run: seq<Action>): seq<seq<string>> {
    if run == [] then []
    else (if run[0].Thread? && run[0].a.Local? then P.Inputs([run[0].a.p]) else []) + Inputs(run[1..])
  }

  lemma StepInputs(r: V.Wire, s: State, a: Action)
    requires Enabled(r, s, a)
    ensures P.Inputs(V.PoolRun(ServiceSteps(r, s, a)))
         == if a.Thread? && a.a.Local? then P.Inputs([a.a.p]) else []
  {
    var steps := ServiceSteps(r, s, a);
    if steps != [] {
      assert steps == [steps[0]] && steps[1..] == [];
      var ps := V.PoolSteps(steps[0]);
      assert V.PoolRun(steps) == ps + V.PoolRun(steps[1..]) == ps;
      if ps != [] {
        assert ps == [ps[0]] && ps[1..] == [] && P.Inputs(ps[1..]) == [];
      }
    }
  }

  lemma {:induction false} SameInputs(c: C.Config, r: V.Wire, s: State, run: seq<Action>)
    requires Feasible(c, r, s, run)
    ensures P.Inputs(V.PoolRun(ServiceRun(c, r, s, run))) == Inputs(run)
    decreases |run|
  {
    if run != [] {
      var steps, rest := ServiceSteps(r, s, run[0]), ServiceRun(c, r, Apply(c, r, s, run[0]), run[1..]);
      StepInputs(r, s, run[0]);
      V.PoolRunConcat(steps, rest);
      G.PoolInputsConcat(V.PoolRun(steps), V.PoolRun(rest));
      SameInputs(c, r, Apply(c, r, s, run[0]), run[1..]);
    }
  }

  // The process reads the chunks and joins all workers, one of which served.
  predicate Served(c: C.Config, r: V.Wire, store0: map<string, string>, n: nat, chunks: seq<string>, run: seq<Action>) {
    && Feasible(c, r, Initial(n, store0), run) && Inputs(run) == E.Portions("", chunks)
    && var k := Exec(c, r, Initial(n, store0), run).threads.control;
      k.main.Finished? && Sums.Sum(k.workers, P.Served) > 0
  }

  lemma ServedIsSeen(c: C.Config, r: V.Wire, store0: map<string, string>, n: nat, chunks: seq<string>, run: seq<Action>)
    requires Served(c, r, store0, n, chunks, run)
    ensures E.Served(chunks, n, V.PoolRun(ServiceRun(c, r, Initial(n, store0), run)))
  {
    var s := Exec(c, r, Initial(n, store0), run);
    var steps := ServiceRun(c, r, Initial(n, store0), run);
    Reachable(c, r, store0, n, run);
    SameInputs(c, r, Initial(n, store0), run);
    V.RunsOfBothParts(c, r, V.Initial(n, store0), steps);
    P.InvInitial(n);
    P.InvExec(P.Initial(n), V.PoolRun(steps));
    G.FinishedIsSeen(s.threads);
    G.FinishedWorkers(s.threads);
  }

  // Every interleaving of locks, waits, wakeups, plugins, cache, reloads and evictions, however the
  // stream is cut: once all workers are joined, one of which served, the requests answered are those
  // of the stream, each as often, and each response is a rejection or formats the accounted answer
  // to its own request.
  lemma ProcessAnswersTheStream(c: C.Config, r: V.Wire, store0: map<string, string>, n: nat, chunks: seq<string>,
                                run: seq<Action>)
    requires E.Blind(r) && S.WellCut(chunks) && S.NulsLast(S.Flatten(chunks)) && Served(c, r, store0, n, chunks, run)
    ensures var s := Exec(c, r, Initial(n, store0), run);
      && H.Shaped(s.threads) && |s.threads.control.answered| == |s.written|
      && Seen(s).pool.answered == s.threads.control.answered
      && multiset(E.RequestsOf(E.Exchanges(r, Seen(s)))) == multiset(S.Requests(S.Lines(S.Flatten(chunks))))
      && E.OwnAnswers(r, Seen(s))
      && forall e :: e in E.Exchanges(r, Seen(s)) ==> E.Answered(c, r, store0, s.chain, e)
  {
    var steps := ServiceRun(c, r, Initial(n, store0), run);
    Reachable(c, r, store0, n, run);
    ServedIsSeen(c, r, store0, n, chunks, run);
    E.WorkersAnswerTheStream(c, r, store0, chunks, n, steps);
    G.SeenHistories(Exec(c, r, Initial(n, store0), run).threads);
  }

  // ---------------------------------------------------------------- responses at any time

  // In every run every response written is a rejection or formats the accounted answer to its own
  // line; and where the cache holds only what the backends may say, that answer is current.
  lemma ProcessResponses(c: C.Config, r: V.Wire, store0: map<string, string>, n: nat, run: seq<Action>)
    requires Feasible(c, r, Initial(n, store0), run)
    ensures var s := Exec(c, r, Initial(n, store0), run);
      && H.Shaped(s.threads) && |Seen(s).pool.answered| == |s.written|
      && (forall i :: 0 <= i < |s.written| ==> V.AccountedFor(c, r, store0, Seen(s), i))
      && (V.RenewedForLines(c, r, n, store0) ==> forall i :: 0 <= i < |s.written| ==> V.IsCurrent(c, r, Seen(s), i))
  {
    var steps := ServiceRun(c, r, Initial(n, store0), run);
    Reachable(c, r, store0, n, run);
    V.EveryResponseAccounted(c, r, store0, n, steps);
    if V.RenewedForLines(c, r, n, store0) {
      V.ResponsesAreCurrent(c, r, store0, n, steps);
    }
  }

  // ---------------------------------------------------------------- shutdown

  // Nothing but wakeups, evictions and reloads can happen.
  ghost predicate AtRest(r: V.Wire, s: State) {
    forall a: Action :: Own(a) ==> !Enabled(r, s, a)
  }

  predicate Own(a: Action) {
    match a
    case Thread(h) => !h.Wake?
    case Request(v) => V.Own(v)
  }

  lemma SomeStep(r: V.Wire, s: State, p: P.Action) returns (a: Action)
    requires Inv(r, s) && P.Enabled(Seen(s).pool, p)
    ensures Own(a) && Enabled(r, s, a)
  {
    if OfRequest(p) {
      a := RequestStep(r, s, p);
    } else {
      var h := H.SomeStep(s.threads, p);
      a := Thread(h);
    }
  }

  // A worker inside a request can always go on.
  lemma RequestStep(r: V.Wire, s: State, p: P.Action) returns (a: Action)
    requires Inv(r, s) && P.Enabled(Seen(s).pool, p) && OfRequest(p)
    ensures Own(a) && Enabled(r, s, a)
  {
    var v := V.OwnStep(r, Seen(s), p.w);
    a := Request(v);
    if H.Out(s.threads, p.w) {
      OutSeen(s, p.w);
    } else {
      var h := H.SomeStep(s.threads, p);
      a := Thread(h);
    }
  }

  lemma RestIsStuck(r: V.Wire, s: State)
    requires Inv(r, s) && AtRest(r, s)
    ensures P.Stuck(Seen(s).pool)
  {
    forall p ensures !P.Enabled(Seen(s).pool, p) {
      if P.Enabled(Seen(s).pool, p) {
        var a := SomeStep(r, s, p);
      }
    }
  }

  lemma ReachablePool(c: C.Config, r: V.Wire, store0: map<string, string>, n: nat, before: seq<Action>)
    requires Feasible(c, r, Initial(n, store0), before)
    ensures var s := Exec(c, r, Initial(n, store0), before); Inv(r, s) && P.Inv(Seen(s).pool)
  {
    var early := ServiceRun(c, r, Initial(n, store0), before);
    Reachable(c, r, store0, n, before);
    V.RunsOfBothParts(c, r, V.Initial(n, store0), early);
    P.InvInitial(n);
    P.InvExec(P.Initial(n), V.PoolRun(early));
  }

  // With room for messages and sentinels, where nothing but wakeups, evictions and reloads can
  // happen behind the event loop, all workers are joined.
  lemma ShutDownFrom(c: C.Config, r: V.Wire, s: State, run: seq<Action>)
    requires Inv(r, s) && P.Inv(Seen(s).pool) && P.InShutdown(Seen(s).pool) && P.CanComplete(Seen(s).pool)
    requires Feasible(c, r, s, run) && AtRest(r, Exec(c, r, s, run))
    ensures Exec(c, r, s, run).threads.control.main.Finished?
  {
    var t := Exec(c, r, s, run);
    ProcessRefinesService(c, r, s, run);
    var steps := V.PoolRun(ServiceRun(c, r, s, run));
    V.RunsOfBothParts(c, r, Seen(s), ServiceRun(c, r, s, run));
    P.InvExec(Seen(s).pool, steps);
    P.ShutdownFinite(Seen(s).pool, steps);
    P.CanCompleteExec(Seen(s).pool, steps);
    RestIsStuck(r, t);
    P.StuckIsFinished(Seen(t).pool);
    G.FinishedIsSeen(t.threads);
  }

  // ---------------------------------------------------------------- every interleaving ends

  predicate Quiet(a: Action) { Own(a) && (a.Thread? ==> H.Quiet(a.a)) }

  // A step of a thread pays for a whole request.
  function Measure(m: nat, s: State): nat
    requires H.Shaped(s.threads) && |Seen(s).pool.workers| == |s.chain.workers|
  {
    H.Times(2 * m + 7, H.Measure(s.threads)) + V.RequestWork(m, Seen(s))
  }

  // What a step of a thread adds to the requests.
  lemma ThreadWork(c: C.Config, r: V.Wire, s: State, h: H.Action)
    requires Inv(r, s) && Enabled(r, s, Thread(h))
    ensures var t, m := Apply(c, r, s, Thread(h)), |c.plugins|;
      && Inv(r, t) && V.RequestWork(m, Seen(t)) <= V.RequestWork(m, Seen(s)) + 2 * m + 6
  {
    StepRefines(c, r, s, Thread(h));
    var steps := H.PoolSteps(s.threads, h);
    if steps != [] {
      H.StepRefines(s.threads, h);
      V.WorkByPool(|c.plugins|, r, Seen(s), steps[0]);
    }
  }

  lemma MeasureThread(c: C.Config, r: V.Wire, s: State, h: H.Action)
    requires Inv(r, s) && Enabled(r, s, Thread(h)) && H.Quiet(h)
    ensures var t := Apply(c, r, s, Thread(h)); Inv(r, t) && Measure(|c.plugins|, t) < Measure(|c.plugins|, s)
  {
    ThreadWork(c, r, s, h);
    H.MeasureDrops(s.threads, h);
    H.TimesNext(2 * |c.plugins| + 7, H.Measure(Apply(c, r, s, Thread(h)).threads), H.Measure(s.threads));
  }

  lemma RequestThreads(c: C.Config, r: V.Wire, s: State, v: V.Action)
    requires Inv(r, s) && Enabled(r, s, Request(v))
    ensures var t := Apply(c, r, s, Request(v));
      && H.Inv(t.threads) && H.Measure(t.threads) <= H.Measure(s.threads)
  {
    RequestSeen(r, s, v);
    var steps := V.PoolSteps(v);
    if steps == [] {
      assert Apply(c, r, s, Request(v)).threads == s.threads;
    } else {
      H.MeasureLocal(s.threads, steps[0]);
      assert Apply(c, r, s, Request(v)).threads == H.Apply(s.threads, H.Local(steps[0]));
    }
  }

  lemma MeasureRequest(c: C.Config, r: V.Wire, s: State, v: V.Action)
    requires Inv(r, s) && Enabled(r, s, Request(v)) && V.Own(v)
    ensures var t := Apply(c, r, s, Request(v)); Inv(r, t) && Measure(|c.plugins|, t) < Measure(|c.plugins|, s)
  {
    var t := Apply(c, r, s, Request(v));
    RequestWorkDrops(c, r, s, v);
    RequestThreads(c, r, s, v);
    Lower(2 * |c.plugins| + 7, H.Measure(s.threads), H.Measure(t.threads),
          V.RequestWork(|c.plugins|, Seen(s)), V.RequestWork(|c.plugins|, Seen(t)));
  }

  lemma Lower(k: nat, x: nat, x': nat, y: nat, y': nat)
    requires x' <= x && y' < y
    ensures H.Times(k, x') + y' < H.Times(k, x) + y
  {
    if x' < x {
      H.TimesNext(k, x', x);
    }
  }

  lemma RequestWorkDrops(c: C.Config, r: V.Wire, s: State, v: V.Action)
    requires Inv(r, s) && Enabled(r, s, Request(v)) && V.Own(v)
    ensures var t, m := Apply(c, r, s, Request(v)), |c.plugins|;
      Inv(r, t) && V.RequestWork(m, Seen(t)) < V.RequestWork(m, Seen(s))
  {
    StepRefines(c, r, s, Request(v));
    V.WorkByOwn(c, r, Seen(s), v);
  }

  lemma MeasureDrops(c: C.Config, r: V.Wire, s: State, a: Action)
    requires Inv(r, s) && Enabled(r, s, a) && Quiet(a)
    ensures var t := Apply(c, r, s, a); Inv(r, t) && Measure(|c.plugins|, t) < Measure(|c.plugins|, s)
  {
    match a
    case Thread(h) => MeasureThread(c, r, s, h);
    case Request(v) => MeasureRequest(c, r, s, v);
  }

  predicate QuietRun(run: seq<Action>) {
    forall i :: 0 <= i < |run| ==> Quiet(run[i])
  }

  lemma QuietTail(run: seq<Action>)
    requires run != [] && QuietRun(run)
    ensures Quiet(run[0]) && QuietRun(run[1..])
  {
  }

  // Without input, signals, wakeups, evictions and reloads every interleaving is finite.
  lemma {:induction false} ProcessSettles(c: C.Config, r: V.Wire, s: State, run: seq<Action>)
    requires Inv(r, s) && Feasible(c, r, s, run) && QuietRun(run)
    ensures Inv(r, Exec(c, r, s, run))
    ensures |run| + Measure(|c.plugins|, Exec(c, r, s, run)) <= Measure(|c.plugins|, s)
    decreases |run|
  {
    if run != [] {
      QuietTail(run);
      MeasureDrops(c, r, s, run[0]);
      ProcessSettles(c, r, Apply(c, r, s, run[0]), run[1..]);
    }
  }

  // ---------------------------------------------------------------- exactly when shutdown completes

  lemma Prepend(c: C.Config, r: V.Wire, s: State, a: Action, rest: seq<Action>) returns (run: seq<Action>)
    requires Enabled(r, s, a) && Feasible(c, r, Apply(c, r, s, a), rest)
    ensures Feasible(c, r, s, run) && Exec(c, r, s, run) == Exec(c, r, Apply(c, r, s, a), rest)
  {
    run := [a] + rest;
    assert run[1..] == rest;
  }

  // Shutdown without room for all messages and sentinels.
  ghost predicate Short(r: V.Wire, s: State) { Inv(r, s) && G.Short(s.threads) }

  // So far the workers before number i have started or failed.
  ghost predicate FailedUpTo(r: V.Wire, s: State, i: nat) {
    Short(r, s) && G.StartedUpTo(H.SeenWorkers(s.threads), i)
  }

  lemma FailStep(c: C.Config, r: V.Wire, s: State, i: nat) returns (a: Action, t: State)
    requires FailedUpTo(r, s, i)
    requires i < |s.threads.control.workers| && H.SeenWorkers(s.threads)[i].Starting?
    ensures Enabled(r, s, a) && t == Apply(c, r, s, a)
    ensures FailedUpTo(r, t, i + 1) && |t.threads.control.workers| == |s.threads.control.workers|
  {
    a, t := FailsHere(c, r, s, i);
    StartedNext(H.SeenWorkers(s.threads), H.SeenWorkers(t.threads), i);
  }

  lemma FailsHere(c: C.Config, r: V.Wire, s: State, i: nat) returns (a: Action, t: State)
    requires Short(r, s)
    requires i < |s.threads.control.workers| && H.SeenWorkers(s.threads)[i].Starting?
    ensures Enabled(r, s, a) && t == Apply(c, r, s, a) && Short(r, t)
    ensures |t.threads.control.workers| == |s.threads.control.workers|
    ensures H.SeenWorkers(t.threads) == H.SeenWorkers(s.threads)[i := P.Leaving(false)]
  {
    a, t := FailsInThreads(c, r, s, i);
    KeptInv(c, r, s, a);
  }

  lemma FailsInThreads(c: C.Config, r: V.Wire, s: State, i: nat) returns (a: Action, t: State)
    requires G.Short(s.threads)
    requires i < |s.threads.control.workers| && H.SeenWorkers(s.threads)[i].Starting?
    ensures Enabled(r, s, a) && t == Apply(c, r, s, a) && G.Short(t.threads)
    ensures |t.threads.control.workers| == |s.threads.control.workers|
    ensures H.SeenWorkers(t.threads) == H.SeenWorkers(s.threads)[i := P.Leaving(false)]
  {
    a := Thread(H.Local(P.ByWorker(i, P.Start(false))));
    t := Apply(c, r, s, a);
    G.FailOne(s.threads, i);
  }

  lemma StartedNext(before: seq<P.Worker>, after: seq<P.Worker>, i: nat)
    requires i < |before| && G.StartedUpTo(before, i) && after == before[i := P.Leaving(false)]
    ensures G.StartedUpTo(after, i + 1) && |after| == |before|
  {
  }

  lemma KeptInv(c: C.Config, r: V.Wire, s: State, a: Action)
    requires Inv(r, s) && Enabled(r, s, a)
    ensures Inv(r, Apply(c, r, s, a))
  {
    StepRefines(c, r, s, a);
  }

  lemma OneMore(r: V.Wire, s: State, i: nat)
    requires FailedUpTo(r, s, i) && i < |s.threads.control.workers| && !H.SeenWorkers(s.threads)[i].Starting?
    ensures FailedUpTo(r, s, i + 1)
  {
  }

  ghost predicate Lost(r: V.Wire, s: State) { Short(r, s) && P.Doomed(Seen(s).pool) }

  lemma AllStarted(r: V.Wire, s: State)
    requires FailedUpTo(r, s, |s.threads.control.workers|)
    ensures Lost(r, s)
  {
  }

  lemma ShutdownIsQuiet(c: C.Config, r: V.Wire, s: State, a: Action)
    requires Inv(r, s) && P.InShutdown(Seen(s).pool) && Enabled(r, s, a) && Own(a)
    ensures Quiet(a) && Inv(r, Apply(c, r, s, a)) && P.InShutdown(Seen(Apply(c, r, s, a)).pool)
  {
    StepRefines(c, r, s, a);
    match a
    case Thread(h) => G.ShutdownIsQuiet(s.threads, h);
    case Request(v) => RequestInShutdown(c, r, s, v);
  }

  lemma RequestInShutdown(c: C.Config, r: V.Wire, s: State, v: V.Action)
    requires Inv(r, s) && P.InShutdown(Seen(s).pool) && Enabled(r, s, Request(v))
    ensures H.Shaped(Apply(c, r, s, Request(v)).threads) && P.InShutdown(Seen(Apply(c, r, s, Request(v))).pool)
  {
    RequestRefines(c, r, s, v);
    ServiceInShutdown(c, r, Seen(s), v);
  }

  lemma ServiceInShutdown(c: C.Config, r: V.Wire, s: V.State, v: V.Action)
    requires P.InShutdown(s.pool) && V.Enabled(r, s, v)
    ensures P.InShutdown(V.Apply(c, r, s, v).pool)
  {
    var steps := V.PoolSteps(v);
    V.StepsEnabled(c, r, s, v);
    if steps != [] {
      G.QuietInShutdown(s.pool, steps[0]);
    }
  }

  lemma {:induction false} RunToRest(c: C.Config, r: V.Wire, s: State) returns (run: seq<Action>)
    requires Inv(r, s) && P.InShutdown(Seen(s).pool)
    ensures Feasible(c, r, s, run) && AtRest(r, Exec(c, r, s, run))
    decreases Measure(|c.plugins|, s)
  {
    if AtRest(r, s) {
      run := [];
    } else {
      var a: Action :| Own(a) && Enabled(r, s, a);
      ShutdownIsQuiet(c, r, s, a);
      MeasureDrops(c, r, s, a);
      var rest := RunToRest(c, r, Apply(c, r, s, a));
      run := Prepend(c, r, s, a, rest);
    }
  }

  // A doomed pool is never finished, whatever the process does.
  lemma ProcessDoomed(c: C.Config, r: V.Wire, s: State, run: seq<Action>)
    requires Lost(r, s) && Feasible(c, r, s, run)
    ensures !Exec(c, r, s, run).threads.control.main.Finished?
  {
    ProcessRefinesService(c, r, s, run);
    V.RunsOfBothParts(c, r, Seen(s), ServiceRun(c, r, s, run));
    P.DoomedExec(Seen(s).pool, V.PoolRun(ServiceRun(c, r, s, run)));
    G.FinishedIsSeen(Exec(c, r, s, run).threads);
  }

  lemma LostForGood(c: C.Config, r: V.Wire, s: State) returns (run: seq<Action>)
    requires Lost(r, s)
    ensures Feasible(c, r, s, run) && AtRest(r, Exec(c, r, s, run))
    ensures !Exec(c, r, s, run).threads.control.main.Finished?
  {
    run := RunToRest(c, r, s);
    ProcessDoomed(c, r, s, run);
  }

  // Every worker that has not started fails, from number i on; then the process goes on to its rest.
  lemma {:induction false} FailAll(c: C.Config, r: V.Wire, s: State, i: nat) returns (run: seq<Action>)
    requires FailedUpTo(r, s, i)
    ensures Feasible(c, r, s, run) && AtRest(r, Exec(c, r, s, run))
    ensures !Exec(c, r, s, run).threads.control.main.Finished?
    decreases |s.threads.control.workers| - i
  {
    if i == |s.threads.control.workers| {
      AllStarted(r, s);
      run := LostForGood(c, r, s);
    } else if !H.SeenWorkers(s.threads)[i].Starting? {
      OneMore(r, s, i);
      run := FailAll(c, r, s, i + 1);
    } else {
      var a, t := FailStep(c, r, s, i);
      var rest := FailAll(c, r, t, i + 1);
      run := Prepend(c, r, s, a, rest);
    }
  }

  lemma IncompleteRun(c: C.Config, r: V.Wire, s: State) returns (run: seq<Action>)
    requires Short(r, s)
    ensures Feasible(c, r, s, run) && AtRest(r, Exec(c, r, s, run))
    ensures !Exec(c, r, s, run).threads.control.main.Finished?
  {
    run := FailAll(c, r, s, 0);
  }

  // Wherever the process comes to rest, all workers are joined.
  ghost predicate AlwaysCompletes(c: C.Config, r: V.Wire, s: State) {
    forall run :: Feasible(c, r, s, run) && AtRest(r, Exec(c, r, s, run)) ==>
      Exec(c, r, s, run).threads.control.main.Finished?
  }

  // Of the whole process, too, shutdown always completes exactly when messages and sentinels find room.
  lemma ProcessCompletesExactlyWhen(c: C.Config, r: V.Wire, store0: map<string, string>, n: nat, before: seq<Action>)
    requires Feasible(c, r, Initial(n, store0), before) && H.Shaped(Exec(c, r, Initial(n, store0), before).threads)
    requires P.InShutdown(Seen(Exec(c, r, Initial(n, store0), before)).pool)
    ensures var s := Exec(c, r, Initial(n, store0), before);
      AlwaysCompletes(c, r, s) <==> P.CanComplete(Seen(s).pool)
  {
    var s := Exec(c, r, Initial(n, store0), before);
    ReachablePool(c, r, store0, n, before);
    if P.CanComplete(Seen(s).pool) {
      forall run | Feasible(c, r, s, run) && AtRest(r, Exec(c, r, s, run))
        ensures Exec(c, r, s, run).threads.control.main.Finished?
      {
        ShutDownFrom(c, r, s, run);
      }
    } else {
      var run := IncompleteRun(c, r, s);
    }
  }
}
