/** Exactly when every response the service writes is current: any run of the plugin chain about
    one line is the chain's part of a run of the service, so that a stale answer of the chain is a
    stale response (src/core/main.c, worker). */
module Currency {
  import C = Chain
  import P = Pool
  import V = Service
  import X = Transparency

  // The main thread idles, no job is queued, and every worker is ready for the line or has it.
  ghost predicate Ready(r: V.Wire, s: V.State, line: string) {
    && V.Inv(r, s) && V.Valid(r, line) && s.pool.main.Looping? && s.pool.jobs == []
    && forall w :: 0 <= w < |s.pool.workers| ==> ReadyWorker(s.pool.workers[w], line)
  }

  predicate ReadyWorker(p: P.Worker, line: string) {
    p.Starting? || p.Serving? || p.Finishing? || p == P.Handling(line)
  }

  lemma {:induction false} ChainRunConcat(a: seq<V.Action>, b: seq<V.Action>)
    ensures V.ChainRun(a + b) == V.ChainRun(a) + V.ChainRun(b)
  {
    if a == [] {
      assert a + b == b;
    } else {
      assert (a + b)[1..] == a[1..] + b;
      ChainRunConcat(a[1..], b);
    }
  }

  lemma Then(c: C.Config, r: V.Wire, s: V.State, a: seq<V.Action>, b: seq<V.Action>) returns (run: seq<V.Action>)
    requires V.Feasible(c, r, s, a) && V.Feasible(c, r, V.Exec(c, r, s, a), b)
    ensures V.Feasible(c, r, s, run) && V.Exec(c, r, s, run) == V.Exec(c, r, V.Exec(c, r, s, a), b)
    ensures V.ChainRun(run) == V.ChainRun(a) + V.ChainRun(b)
  {
    V.ExecConcat(c, r, s, a, b);
    ChainRunConcat(a, b);
    run := a + b;
  }

  lemma One(c: C.Config, r: V.Wire, s: V.State, a: V.Action) returns (run: seq<V.Action>)
    requires V.Inv(r, s) && V.Enabled(r, s, a)
    ensures V.Feasible(c, r, s, run) && V.Exec(c, r, s, run) == V.Apply(c, r, s, a)
    ensures V.ChainRun(run) == V.ChainSteps(a) && V.Inv(r, V.Apply(c, r, s, a))
  {
    run := [a];
    assert run[1..] == [] && V.Exec(c, r, V.Apply(c, r, s, a), []) == V.Apply(c, r, s, a);
    assert V.ChainSteps(a) + [] == V.ChainSteps(a);
    V.LinkedStep(c, r, s, a);
    V.PairedStep(c, r, s, a);
  }

  // ---------------------------------------------------------------- a worker gets the line

  // One step of the pool that leaves the chain alone.
  lemma PoolStep(c: C.Config, r: V.Wire, s: V.State, p: P.Action) returns (run: seq<V.Action>)
    requires V.Inv(r, s) && V.Outside(p) && P.Enabled(s.pool, p)
    ensures V.Feasible(c, r, s, run) && V.ChainRun(run) == []
    ensures var t := V.Exec(c, r, s, run); t.pool == P.Apply(s.pool, p) && t.chain == s.chain && V.Inv(r, t)
  {
    run := One(c, r, s, V.Pool(p));
  }

  // The main thread reads the line and puts it on the queue.
  lemma QueueLine(c: C.Config, r: V.Wire, s: V.State, line: string) returns (run: seq<V.Action>)
    requires Ready(r, s, line)
    ensures V.Feasible(c, r, s, run) && V.ChainRun(run) == []
    ensures var t := V.Exec(c, r, s, run);
      && V.Inv(r, t) && t.chain == s.chain && t.pool.main.Looping?
      && t.pool.jobs == [P.Request(line)] && t.pool.workers == s.pool.workers
  {
    run := PoolStep(c, r, s, P.ByMain(P.ReadChunk([line])));
    var put := PoolStep(c, r, V.Exec(c, r, s, run), P.ByMain(P.PutLine));
    run := Then(c, r, s, run, put);
    assert [line][1..] == [];
    var back := PoolStep(c, r, V.Exec(c, r, s, run), P.ByMain(P.ReadDone));
    run := Then(c, r, s, run, back);
  }

  lemma ServeLine(c: C.Config, r: V.Wire, s: V.State, w: nat, line: string) returns (run: seq<V.Action>)
    requires Ready(r, s, line) && w < |s.pool.workers| && s.pool.workers[w].Serving?
    ensures V.Feasible(c, r, s, run) && V.ChainRun(run) == []
    ensures var t := V.Exec(c, r, s, run);
      Ready(r, t, line) && t.chain == s.chain && w < |t.pool.workers| && t.pool.workers[w] == P.Handling(line)
  {
    run := QueueLine(c, r, s, line);
    var take := TakeLine(c, r, V.Exec(c, r, s, run), w, line);
    run := Then(c, r, s, run, take);
  }

  lemma TakeLine(c: C.Config, r: V.Wire, s: V.State, w: nat, line: string) returns (run: seq<V.Action>)
    requires V.Inv(r, s) && V.Valid(r, line) && s.pool.main.Looping? && s.pool.jobs == [P.Request(line)]
    requires forall i :: 0 <= i < |s.pool.workers| ==> ReadyWorker(s.pool.workers[i], line)
    requires w < |s.pool.workers| && s.pool.workers[w].Serving?
    ensures V.Feasible(c, r, s, run) && V.ChainRun(run) == []
    ensures var t := V.Exec(c, r, s, run);
      Ready(r, t, line) && t.chain == s.chain && w < |t.pool.workers| && t.pool.workers[w] == P.Handling(line)
  {
    run := PoolStep(c, r, s, P.ByWorker(w, P.Take));
  }

  // A worker outside the plugins comes to serve ...
  lemma BackToService(c: C.Config, r: V.Wire, s: V.State, w: nat, line: string) returns (run: seq<V.Action>)
    requires Ready(r, s, line) && w < |s.pool.workers| && (s.pool.workers[w].Starting? || s.pool.workers[w].Finishing?)
    requires w < |s.chain.workers| && s.chain.workers[w].Idle?
    ensures V.Feasible(c, r, s, run) && V.ChainRun(run) == []
    ensures var t := V.Exec(c, r, s, run);
      Ready(r, t, line) && t.chain == s.chain && w < |t.pool.workers| && t.pool.workers[w].Serving?
  {
    if s.pool.workers[w].Starting? {
      run := PoolStep(c, r, s, P.ByWorker(w, P.Start(true)));
    } else {
      run := One(c, r, s, V.Done(w));
    }
  }

  // ... and gets the line.
  lemma GetLine(c: C.Config, r: V.Wire, s: V.State, w: nat, line: string) returns (run: seq<V.Action>)
    requires Ready(r, s, line) && w < |s.pool.workers| && w < |s.chain.workers| && s.chain.workers[w].Idle?
    ensures V.Feasible(c, r, s, run) && V.ChainRun(run) == []
    ensures var t := V.Exec(c, r, s, run);
      Ready(r, t, line) && t.chain == s.chain && w < |t.pool.workers| && t.pool.workers[w] == P.Handling(line)
  {
    run := [];
    if !s.pool.workers[w].Handling? {
      if !s.pool.workers[w].Serving? {
        run := BackToService(c, r, s, w, line);
      }
      var serve := ServeLine(c, r, V.Exec(c, r, s, run), w, line);
      run := Then(c, r, s, run, serve);
    }
  }

  // ---------------------------------------------------------------- runs of the chain

  // The step of the service that a step of the chain is, once the worker has the line.
  function Same(a: C.Action): V.Action {
    match a
    case Begin(w, address) => V.Begin(w, address)
    case Ask(w) => V.Ask(w)
    case Respond(w) => V.Respond(w)
    case Store(w, stored) => V.Store(w, stored)
    case Evict(key) => V.Evict(key)
    case Reload => V.Reload
  }

  lemma SameStep(c: C.Config, r: V.Wire, s: V.State, a: C.Action, line: string) returns (run: seq<V.Action>)
    requires Ready(r, s, line) && C.Enabled(s.chain, a)
    requires a.Begin? ==> a.address == V.AddressOf(r, line)
                          && a.w < |s.pool.workers| && s.pool.workers[a.w] == P.Handling(line)
    ensures V.Feasible(c, r, s, run) && V.ChainRun(run) == [a]
    ensures Ready(r, V.Exec(c, r, s, run), line)
  {
    if a.Respond? {
      assert V.LinkedWorker(r, s.pool.workers[a.w], s.chain.workers[a.w]);
    }
    run := One(c, r, s, Same(a));
  }

  lemma ChainStepHappens(c: C.Config, r: V.Wire, s: V.State, a: C.Action, line: string) returns (run: seq<V.Action>)
    requires Ready(r, s, line) && C.Enabled(s.chain, a) && (a.Begin? ==> a.address == V.AddressOf(r, line))
    ensures V.Feasible(c, r, s, run) && V.ChainRun(run) == [a]
    ensures var t := V.Exec(c, r, s, run); Ready(r, t, line) && t.chain == C.Apply(c, s.chain, a)
  {
    run := [];
    if a.Begin? {
      run := GetLine(c, r, s, a.w, line);
    }
    var step := SameStep(c, r, V.Exec(c, r, s, run), a, line);
    run := Then(c, r, s, run, step);
    V.RunsOfBothParts(c, r, s, run);
    assert [a][1..] == [] && C.Exec(c, C.Apply(c, s.chain, a), []) == C.Apply(c, s.chain, a);
  }

  // Every run of the chain with requests for one line's address only happens in the service.
  lemma {:induction false} ChainRunHappens(c: C.Config, r: V.Wire, s: V.State, steps: seq<C.Action>, line: string)
      returns (run: seq<V.Action>)
    requires Ready(r, s, line) && C.Feasible(c, s.chain, steps) && X.Only(steps, V.AddressOf(r, line))
    ensures V.Feasible(c, r, s, run) && V.ChainRun(run) == steps
    decreases |steps|
  {
    if steps == [] {
      run := [];
    } else {
      run := ChainStepHappens(c, r, s, steps[0], line);
      OnlyTail(steps, V.AddressOf(r, line));
      var rest := ChainRunHappens(c, r, V.Exec(c, r, s, run), steps[1..], line);
      run := Then(c, r, s, run, rest);
    }
  }

  lemma OnlyTail(steps: seq<C.Action>, address: string)
    requires steps != [] && X.Only(steps, address)
    ensures X.Only(steps[1..], address) && [steps[0]] + steps[1..] == steps
  {
  }

  // ---------------------------------------------------------------- the service

  // In every run every response written is current.
  ghost predicate AlwaysCurrent(c: C.Config, r: V.Wire, n: nat, store0: map<string, string>) {
    forall run :: V.Feasible(c, r, V.Initial(n, store0), run) ==>
      AllCurrent(c, r, V.Exec(c, r, V.Initial(n, store0), run))
  }

  ghost predicate AllCurrent(c: C.Config, r: V.Wire, s: V.State) {
    |s.pool.answered| == |s.written| && forall i :: 0 <= i < |s.written| ==> V.IsCurrent(c, r, s, i)
  }

  // Every answer of the chain is the answer to some line.
  lemma {:induction false} LineOf(r: V.Wire, answered: seq<string>, m: nat, k: nat) returns (i: nat)
    requires m <= |answered| && k < V.PlaceOf(r, answered, m)
    ensures i < m && V.PlaceOf(r, answered, i) == k && V.Valid(r, answered[i])
  {
    i := m - 1;
    V.NextPlace(r, answered, i);
    if V.PlaceOf(r, answered, i) != k {
      i := LineOf(r, answered, m - 1, k);
    }
  }

  lemma StaleResponse(c: C.Config, r: V.Wire, s: V.State, k: nat)
    requires V.Inv(r, s) && k < |s.chain.answers| && !X.Current(c, s.chain.answers[k])
    ensures !AllCurrent(c, r, s)
  {
    var answered := s.pool.answered;
    assert answered[..|answered|] == answered;
    var i := LineOf(r, answered, |answered|, k);
    assert !V.IsCurrent(c, r, s, i);
  }

  lemma ReadyAtFirst(r: V.Wire, n: nat, store0: map<string, string>, line: string)
    requires V.Valid(r, line)
    ensures Ready(r, V.Initial(n, store0), line)
  {
    V.InvInitial(r, n, store0);
  }

  // A line whose address does not meet the condition has a run with a stale response.
  lemma StaleRun(c: C.Config, r: V.Wire, n: nat, store0: map<string, string>, line: string) returns (run: seq<V.Action>)
    requires n > 0 && V.Valid(r, line) && !V.RenewedFor(c, r, n, store0, line)
    ensures V.Feasible(c, r, V.Initial(n, store0), run) && !AllCurrent(c, r, V.Exec(c, r, V.Initial(n, store0), run))
  {
    var s := V.Initial(n, store0);
    var steps := X.StaleAt(c, n, store0, V.AddressOf(r, line));
    ReadyAtFirst(r, n, store0, line);
    run := ChainRunHappens(c, r, s, steps, line);
    V.ReachablePairs(c, r, store0, n, run);
    var k := StalePlace(c, C.Exec(c, C.Initial(n, store0), steps).answers);
    StaleResponse(c, r, V.Exec(c, r, s, run), k);
  }

  lemma StalePlace(c: C.Config, answers: seq<C.Answer>) returns (k: nat)
    requires exists answer :: answer in answers && !X.Current(c, answer)
    ensures k < |answers| && !X.Current(c, answers[k])
  {
    var answer :| answer in answers && !X.Current(c, answer);
    k :| k < |answers| && answers[k] == answer;
  }

  // Every response of every run is current exactly when, for each address some line asks about,
  // whatever verdict a request can find in the cache is one the backends may give meanwhile.
  lemma ServiceCurrentExactlyWhen(c: C.Config, r: V.Wire, n: nat, store0: map<string, string>)
    requires n > 0
    ensures AlwaysCurrent(c, r, n, store0) <==> V.RenewedForLines(c, r, n, store0)
  {
    if V.RenewedForLines(c, r, n, store0) {
      forall run | V.Feasible(c, r, V.Initial(n, store0), run)
        ensures AllCurrent(c, r, V.Exec(c, r, V.Initial(n, store0), run))
      {
        V.ResponsesAreCurrent(c, r, store0, n, run);
      }
    } else {
      var line :| V.Valid(r, line) && !V.RenewedFor(c, r, n, store0, line);
      var run := StaleRun(c, r, n, store0, line);
    }
  }
}
