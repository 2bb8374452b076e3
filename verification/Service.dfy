/** Worker pool and plugin chain as one step system: a worker parses the line it holds, asks the
    plugins step by step while other workers, reloads and evictions go on, and writes its response
    (src/core/main.c, worker). */
module Service {
  import opened Buffer
  import Sums
  import L = LoopPhase
  import P = Pool
  import C = Chain
  import T = TxtFile
  import R = RequestLine
  import X = Transparency
  import Y = Steadiness

  datatype State = State(
    pool: P.State,
    chain: C.State,
    written: seq<string>   // the responses on standard output, in order
  )

  datatype Action =
    | Pool(a: P.Action)                // every step outside the handling of a request
    | Begin(w: nat, address: string)   // the parsed address is valid: enter the handler loop
    | Reject(w: nat)                   // it is not: respond at once
    | Ask(w: nat)
    | Respond(w: nat)
    | Store(w: nat, stored: bool)
    | Done(w: nat)
    | Evict(key: string)
    | Reload

  // How a worker reads requests and writes responses: the fields of a line, whether an address is
  // valid, and the response line.
  datatype Wire = Wire(parse: string -> R.Fields, resolves: string -> bool, respond: (nat, bool, string) -> string)

  function Width(r: T.Resolver): nat { if r.haveIpv6 then 45 else 15 }

  // As the code does it; sscanf reads a C string.
  function WireOf(r: T.Resolver): Wire {
    Wire((line: string) => R.Parse(BeforeNul(line), Width(r)),
         (address: string) => T.Resolve(r, address).Some?,
         (channel: nat, ok: bool, log: string) => R.Response(channel, ok, log))
  }

  function AddressOf(r: Wire, line: string): string { r.parse(line).address }

  predicate Valid(r: Wire, line: string) { r.resolves(AddressOf(r, line)) }

  function Rejection(r: Wire, line: string): string {
    r.respond(r.parse(line).channel, false, "Valid IP address expected")
  }

  function Format(r: Wire, line: string, reply: C.Reply): string {
    r.respond(r.parse(line).channel, reply.ok, if reply.log.NoLog? then "" else reply.log.text)
  }

  // ---------------------------------------------------------------- steps

  predicate Handles(s: State, w: nat) { w < |s.pool.workers| && s.pool.workers[w].Handling? }

  // The requests' own steps are taken by Reject, Respond and Done.
  predicate Outside(a: P.Action) { a.ByWorker? ==> !a.act.Answer? && !a.act.Done? }

  predicate Enabled(r: Wire, s: State, a: Action) {
    match a
    case Pool(p) => Outside(p) && P.Enabled(s.pool, p)
    case Begin(w, address) =>
      Handles(s, w) && C.Enabled(s.chain, C.Begin(w, address))
      && Valid(r, s.pool.workers[w].line) && address == AddressOf(r, s.pool.workers[w].line)
    case Reject(w) =>
      Handles(s, w) && w < |s.chain.workers| && s.chain.workers[w].Idle? && !Valid(r, s.pool.workers[w].line)
    case Ask(w) => C.Enabled(s.chain, C.Ask(w))
    case Respond(w) => Handles(s, w) && C.Enabled(s.chain, C.Respond(w))
    case Store(w, stored) => C.Enabled(s.chain, C.Store(w, stored))
    case Done(w) =>
      w < |s.pool.workers| && s.pool.workers[w].Finishing? && w < |s.chain.workers| && s.chain.workers[w].Idle?
    case Evict(_) => true
    case Reload => true
  }

  // The step of the pool, and of the chain, that an action is.
  function PoolSteps(a: Action): seq<P.Action> {
    match a
    case Pool(p) => [p]
    case Reject(w) => [P.ByWorker(w, P.Answer)]
    case Respond(w) => [P.ByWorker(w, P.Answer)]
    case Done(w) => [P.ByWorker(w, P.Done)]
    case _ => []
  }

  function ChainSteps(a: Action): seq<C.Action> {
    match a
    case Begin(w, address) => [C.Begin(w, address)]
    case Ask(w) => [C.Ask(w)]
    case Respond(w) => [C.Respond(w)]
    case Store(w, stored) => [C.Store(w, stored)]
    case Evict(key) => [C.Evict(key)]
    case Reload => [C.Reload]
    case _ => []
  }

  // What an action writes.
  function Output(c: C.Config, r: Wire, s: State, a: Action): seq<string>
    requires Enabled(r, s, a)
  {
    match a
    case Reject(w) => [Rejection(r, s.pool.workers[w].line)]
    case Respond(w) =>
      [Format(r, s.pool.workers[w].line, C.ReplyFor(s.chain.workers[w].result, c.denyByDefault))]
    case _ => []
  }

  lemma StepsEnabled(c: C.Config, r: Wire, s: State, a: Action)
    requires Enabled(r, s, a)
    ensures P.Feasible(s.pool, PoolSteps(a)) && C.Feasible(c, s.chain, ChainSteps(a))
  {
    assert PoolSteps(a) != [] ==> PoolSteps(a)[1..] == [];
    assert ChainSteps(a) != [] ==> ChainSteps(a)[1..] == [];
  }

  function Apply(c: C.Config, r: Wire, s: State, a: Action): State
    requires Enabled(r, s, a)
  {
    var ps, cs := PoolSteps(a), ChainSteps(a);
    State(if ps == [] then s.pool else P.Apply(s.pool, ps[0]),
          if cs == [] then s.chain else C.Apply(c, s.chain, cs[0]),
          s.written + Output(c, r, s, a))
  }

  function Initial(n: nat, store: map<string, string>): State {
    State(P.Initial(n), C.Initial(n, store), [])
  }

  predicate Feasible(c: C.Config, r: Wire, s: State, run: seq<Action>)
    decreases |run|
  {
    run == [] || (Enabled(r, s, run[0]) && Feasible(c, r, Apply(c, r, s, run[0]), run[1..]))
  }

  function Exec(c: C.Config, r: Wire, s: State, run: seq<Action>): State
    requires Feasible(c, r, s, run)
    decreases |run|
  {
    if run == [] then s else Exec(c, r, Apply(c, r, s, run[0]), run[1..])
  }

  // ---------------------------------------------------------------- the two parts of a run

  function PoolRun(run: seq<Action>): seq<P.Action> {
    if run == [] then [] else PoolSteps(run[0]) + PoolRun(run[1..])
  }

  function ChainRun(run: seq<Action>): seq<C.Action> {
    if run == [] then [] else ChainSteps(run[0]) + ChainRun(run[1..])
  }

  // One step of the pool or of the chain, or none.
  lemma SingleSteps(c: C.Config, s: State, ps: seq<P.Action>, cs: seq<C.Action>)
    requires |ps| <= 1 && P.Feasible(s.pool, ps) && |cs| <= 1 && C.Feasible(c, s.chain, cs)
    ensures P.Exec(s.pool, ps) == if ps == [] then s.pool else P.Apply(s.pool, ps[0])
    ensures C.Exec(c, s.chain, cs) == if cs == [] then s.chain else C.Apply(c, s.chain, cs[0])
  {
    if ps != [] {
      assert ps[1..] == [];
      assert P.Exec(P.Apply(s.pool, ps[0]), []) == P.Apply(s.pool, ps[0]);
    }
    if cs != [] {
      assert cs[1..] == [];
      assert C.Exec(c, C.Apply(c, s.chain, cs[0]), []) == C.Apply(c, s.chain, cs[0]);
    }
  }

  // Every run is a run of the pool alone and a run of the chain alone.
  lemma {:induction false} RunsOfBothParts(c: C.Config, r: Wire, s: State, run: seq<Action>)
    requires Feasible(c, r, s, run)
    ensures P.Feasible(s.pool, PoolRun(run)) && P.Exec(s.pool, PoolRun(run)) == Exec(c, r, s, run).pool
    ensures C.Feasible(c, s.chain, ChainRun(run)) && C.Exec(c, s.chain, ChainRun(run)) == Exec(c, r, s, run).chain
    decreases |run|
  {
    if run != [] {
      var a := run[0];
      StepsEnabled(c, r, s, a);
      SingleSteps(c, s, PoolSteps(a), ChainSteps(a));
      RunsOfBothParts(c, r, Apply(c, r, s, a), run[1..]);
      P.ExecConcat(s.pool, PoolSteps(a), PoolRun(run[1..]));
      C.ExecConcat(c, s.chain, ChainSteps(a), ChainRun(run[1..]));
    }
  }

  // ---------------------------------------------------------------- a worker in both parts

  predicate LinkedWorker(r: Wire, p: P.Worker, w: C.Worker) {
    match p
    case Handling(line) =>
      w.Idle? || ((w.Asking? || w.Decided?) && Valid(r, line) && w.address == AddressOf(r, line))
    case Finishing => w.Idle? || w.Storing?
    case _ => w.Idle?
  }

  // Outside the handling of a request a worker is in no plugin, inside it works on its own line.
  predicate Linked(r: Wire, ps: seq<P.Worker>, cs: seq<C.Worker>) {
    |ps| == |cs| && forall w :: 0 <= w < |ps| ==> LinkedWorker(r, ps[w], cs[w])
  }

  lemma LinkedUpdate(r: Wire, ps: seq<P.Worker>, cs: seq<C.Worker>, w: nat, p: P.Worker, q: C.Worker)
    requires Linked(r, ps, cs) && w < |ps| && LinkedWorker(r, p, q)
    ensures Linked(r, ps[w := p], cs[w := q])
  {
  }

  // What a step of the pool does to its workers and its answers.
  function PoolMoved(s: P.State, p: P.Action): seq<P.Worker>
    requires P.Enabled(s, p)
  {
    if p.ByMain? then s.workers else s.workers[p.w := P.Target(s, s.workers[p.w], p.act)]
  }

  lemma PoolEffect(s: P.State, p: P.Action)
    requires P.Enabled(s, p)
    ensures P.Apply(s, p).workers == PoolMoved(s, p)
    ensures P.Apply(s, p).answered
         == s.answered + if p.ByWorker? && p.act.Answer? then [s.workers[p.w].line] else []
  {
    assert s.answered + [] == s.answered;
  }

  // The worker a step of the chain moves keeps its address until it responded.
  lemma ChainEffect(c: C.Config, s: C.State, a: C.Action) returns (to: C.Worker)
    requires C.Enabled(s, a) && !a.Evict? && !a.Reload?
    ensures C.Apply(c, s, a).workers == s.workers[a.w := to]
    ensures a.Begin? ==> to.Asking? && to.address == a.address
    ensures a.Ask? ==> (to.Asking? || to.Decided?) && to.address == s.workers[a.w].address
    ensures a.Respond? || a.Store? ==> to.Idle? || to.Storing?
  {
    to := C.Apply(c, s, a).workers[a.w];
  }

  // The answer worker w is about to give.
  function AnswerOf(c: C.Config, s: C.State, w: nat): C.Answer
    requires C.Enabled(s, C.Respond(w))
  {
    var worker := s.workers[w];
    C.Answer(worker.address, worker.result, worker.origin, C.ReplyFor(worker.result, c.denyByDefault),
             worker.since, s.version)
  }

  lemma AnswerEffect(c: C.Config, s: C.State, a: C.Action)
    requires C.Enabled(s, a)
    ensures !a.Respond? ==> C.Apply(c, s, a).answers == s.answers
    ensures a.Respond? ==> C.Apply(c, s, a).answers == s.answers + [AnswerOf(c, s, a.w)]
  {
  }

  // The worker of an action other than a step of the pool or of the cache and the tables.
  predicate OfWorker(a: Action) { !a.Pool? && !a.Evict? && !a.Reload? }

  lemma WorkersMove(c: C.Config, r: Wire, s: State, a: Action) returns (p: P.Worker, q: C.Worker)
    requires Linked(r, s.pool.workers, s.chain.workers) && Enabled(r, s, a) && OfWorker(a)
    ensures a.w < |s.pool.workers| == |s.chain.workers| && LinkedWorker(r, p, q)
    ensures Apply(c, r, s, a).pool.workers == s.pool.workers[a.w := p]
    ensures Apply(c, r, s, a).chain.workers == s.chain.workers[a.w := q]
  {
    var ps, cs := PoolSteps(a), ChainSteps(a);
    StepsEnabled(c, r, s, a);
    SingleSteps(c, s, ps, cs);
    p, q := s.pool.workers[a.w], s.chain.workers[a.w];
    assert LinkedWorker(r, p, q);
    if ps != [] {
      PoolEffect(s.pool, ps[0]);
      p := P.Target(s.pool, p, ps[0].act);
    }
    if cs != [] {
      q := ChainEffect(c, s.chain, cs[0]);
    }
  }

  lemma LinkedByPool(r: Wire, s: State, p: P.Action)
    requires Linked(r, s.pool.workers, s.chain.workers) && P.Enabled(s.pool, p) && Outside(p)
    ensures Linked(r, P.Apply(s.pool, p).workers, s.chain.workers)
  {
    PoolEffect(s.pool, p);
    if p.ByWorker? {
      assert LinkedWorker(r, s.pool.workers[p.w], s.chain.workers[p.w]);
      var to := P.Target(s.pool, s.pool.workers[p.w], p.act);
      LinkedUpdate(r, s.pool.workers, s.chain.workers, p.w, to, s.chain.workers[p.w]);
      assert s.chain.workers[p.w := s.chain.workers[p.w]] == s.chain.workers;
    }
  }

  lemma LinkedStep(c: C.Config, r: Wire, s: State, a: Action)
    requires Linked(r, s.pool.workers, s.chain.workers) && Enabled(r, s, a)
    ensures Linked(r, Apply(c, r, s, a).pool.workers, Apply(c, r, s, a).chain.workers)
  {
    if OfWorker(a) {
      var p, q := WorkersMove(c, r, s, a);
      LinkedUpdate(r, s.pool.workers, s.chain.workers, a.w, p, q);
    } else {
      StepsEnabled(c, r, s, a);
      SingleSteps(c, s, PoolSteps(a), ChainSteps(a));
      if a.Pool? {
        LinkedByPool(r, s, a.a);
      }
    }
  }

  // ---------------------------------------------------------------- what is written

  function ValidCount(r: Wire, lines: seq<string>): (n: nat)
    ensures n <= |lines|
  {
    if lines == [] then 0
    else ValidCount(r, lines[..|lines| - 1]) + if Valid(r, lines[|lines| - 1]) then 1 else 0
  }

  predicate Formats(r: Wire, answer: C.Answer, line: string, text: string) {
    answer.address == AddressOf(r, line) && text == Format(r, line, answer.reply)
  }

  // The text rejects the line or formats answer number k.
  predicate FromAnswer(r: Wire, answers: seq<C.Answer>, k: nat, line: string, text: string) {
    if Valid(r, line) then k < |answers| && Formats(r, answers[k], line, text) else text == Rejection(r, line)
  }

  // The responses written are, in order, those to the lines answered: a rejection for a line
  // without a valid address, and for the others the next answer of the chain, which is for the
  // line's address.
  predicate Paired(r: Wire, answered: seq<string>, answers: seq<C.Answer>, written: seq<string>) {
    && |written| == |answered|
    && |answers| == ValidCount(r, answered)
    && forall i :: 0 <= i < |answered| ==> FromAnswer(r, answers, ValidCount(r, answered[..i]), answered[i], written[i])
  }

  lemma MoreAnswers(r: Wire, fewer: seq<C.Answer>, answers: seq<C.Answer>, k: nat, line: string, text: string)
    requires fewer <= answers && FromAnswer(r, fewer, k, line, text)
    ensures FromAnswer(r, answers, k, line, text)
  {
  }

  lemma PairLine(r: Wire, answered: seq<string>, answers: seq<C.Answer>, written: seq<string>,
                 line: string, more: seq<C.Answer>, text: string)
    requires Paired(r, answered, answers, written)
    requires |more| == if Valid(r, line) then 1 else 0
    requires FromAnswer(r, answers + more, |answers|, line, text)
    ensures Paired(r, answered + [line], answers + more, written + [text])
  {
    var lines, texts := answered + [line], written + [text];
    assert lines[..|answered|] == answered;
    forall i | 0 <= i < |lines|
      ensures FromAnswer(r, answers + more, ValidCount(r, lines[..i]), lines[i], texts[i])
    {
      if i < |answered| {
        assert lines[..i] == answered[..i];
        MoreAnswers(r, answers, answers + more, ValidCount(r, answered[..i]), answered[i], written[i]);
      }
    }
  }

  ghost predicate Inv(r: Wire, s: State) {
    Linked(r, s.pool.workers, s.chain.workers) && Paired(r, s.pool.answered, s.chain.answers, s.written)
  }

  lemma PairedRespond(c: C.Config, r: Wire, s: State, w: nat)
    requires Inv(r, s) && Enabled(r, s, Respond(w))
    ensures var t := Apply(c, r, s, Respond(w)); Paired(r, t.pool.answered, t.chain.answers, t.written)
  {
    var worker := s.chain.workers[w];
    assert LinkedWorker(r, s.pool.workers[w], worker);
    StepsEnabled(c, r, s, Respond(w));
    SingleSteps(c, s, PoolSteps(Respond(w)), ChainSteps(Respond(w)));
    PoolEffect(s.pool, P.ByWorker(w, P.Answer));
    AnswerEffect(c, s.chain, C.Respond(w));
    var answer := AnswerOf(c, s.chain, w);
    var line := s.pool.workers[w].line;
    assert (s.chain.answers + [answer])[|s.chain.answers|] == answer;
    PairLine(r, s.pool.answered, s.chain.answers, s.written, line, [answer], Format(r, line, answer.reply));
  }

  lemma PairedReject(c: C.Config, r: Wire, s: State, w: nat)
    requires Inv(r, s) && Enabled(r, s, Reject(w))
    ensures var t := Apply(c, r, s, Reject(w)); Paired(r, t.pool.answered, t.chain.answers, t.written)
  {
    StepsEnabled(c, r, s, Reject(w));
    SingleSteps(c, s, PoolSteps(Reject(w)), ChainSteps(Reject(w)));
    PoolEffect(s.pool, P.ByWorker(w, P.Answer));
    var line := s.pool.workers[w].line;
    assert s.chain.answers + [] == s.chain.answers;
    PairLine(r, s.pool.answered, s.chain.answers, s.written, line, [], Rejection(r, line));
  }

  // All other steps neither answer nor write.
  lemma PairedOther(c: C.Config, r: Wire, s: State, a: Action)
    requires Inv(r, s) && Enabled(r, s, a) && !a.Respond? && !a.Reject?
    ensures var t := Apply(c, r, s, a); Paired(r, t.pool.answered, t.chain.answers, t.written)
  {
    var ps, cs := PoolSteps(a), ChainSteps(a);
    StepsEnabled(c, r, s, a);
    SingleSteps(c, s, ps, cs);
    if ps != [] {
      PoolEffect(s.pool, ps[0]);
    }
    if cs != [] {
      AnswerEffect(c, s.chain, cs[0]);
    }
    assert s.written + [] == s.written && s.pool.answered + [] == s.pool.answered;
  }

  lemma PairedStep(c: C.Config, r: Wire, s: State, a: Action)
    requires Inv(r, s) && Enabled(r, s, a)
    ensures var t := Apply(c, r, s, a); Paired(r, t.pool.answered, t.chain.answers, t.written)
  {
    match a
    case Reject(w) => PairedReject(c, r, s, w);
    case Respond(w) => PairedRespond(c, r, s, w);
    case _ => PairedOther(c, r, s, a);
  }

  lemma InvInitial(r: Wire, n: nat, store0: map<string, string>)
    ensures Inv(r, Initial(n, store0))
  {
  }

  lemma {:induction false} InvExec(c: C.Config, r: Wire, s: State, run: seq<Action>)
    requires Inv(r, s) && Feasible(c, r, s, run)
    ensures Inv(r, Exec(c, r, s, run))
    decreases |run|
  {
    if run != [] {
      LinkedStep(c, r, s, run[0]);
      PairedStep(c, r, s, run[0]);
      InvExec(c, r, Apply(c, r, s, run[0]), run[1..]);
    }
  }

  // Among the answers of the chain, the place of the one to line number i.
  function PlaceOf(r: Wire, answered: seq<string>, i: nat): nat
    requires i <= |answered|
  {
    ValidCount(r, answered[..i])
  }

  lemma NextPlace(r: Wire, answered: seq<string>, i: nat)
    requires i < |answered|
    ensures PlaceOf(r, answered, i + 1) == PlaceOf(r, answered, i) + if Valid(r, answered[i]) then 1 else 0
  {
    assert answered[..i + 1][..i] == answered[..i];
  }

  lemma LaterPlace(r: Wire, answered: seq<string>, i: nat)
    requires i < |answered|
    ensures PlaceOf(r, answered, i) <= PlaceOf(r, answered, i + 1)
  {
    NextPlace(r, answered, i);
  }

  lemma {:induction false} PlacesAscend(r: Wire, answered: seq<string>, i: nat, j: nat)
    requires i <= j <= |answered|
    ensures PlaceOf(r, answered, i) <= PlaceOf(r, answered, j)
    decreases j
  {
    if i < j {
      LaterPlace(r, answered, j - 1);
      PlacesAscend(r, answered, i, j - 1);
    }
  }

  // No two lines share an answer.
  lemma OwnAnswer(r: Wire, answered: seq<string>, i: nat, j: nat)
    requires i < j <= |answered| && Valid(r, answered[i])
    ensures PlaceOf(r, answered, i) < PlaceOf(r, answered, j)
  {
    NextPlace(r, answered, i);
    PlacesAscend(r, answered, i + 1, j);
  }

  // The answer is accounted for: some backend decided it, it was cached, or no plugin decided; and
  // unless it came from the cache, the backends may give it while its request is in progress.
  ghost predicate Settled(c: C.Config, store0: map<string, string>, chain: C.State, answer: C.Answer) {
    && C.Accounted(c, store0, chain, answer.address, answer.result, answer.origin)
    && C.Says(answer.reply, answer.result, c.denyByDefault)
    && (!answer.origin.FromCache? ==> X.Current(c, answer))
  }

  // A line without a valid address was rejected; otherwise the text formats the answer to this
  // very line, and that answer is accounted for.
  ghost predicate AccountedFor(c: C.Config, r: Wire, store0: map<string, string>, s: State, i: nat)
    requires i < |s.pool.answered| == |s.written|
  {
    var k := PlaceOf(r, s.pool.answered, i);
    && FromAnswer(r, s.chain.answers, k, s.pool.answered[i], s.written[i])
    && (Valid(r, s.pool.answered[i]) ==> k < |s.chain.answers| && Settled(c, store0, s.chain, s.chain.answers[k]))
  }

  lemma AnswersSettled(c: C.Config, store0: map<string, string>, chain: C.State)
    requires C.Inv(c, store0, chain)
    requires forall answer :: answer in chain.answers && !answer.origin.FromCache? ==> X.Current(c, answer)
    ensures forall k :: 0 <= k < |chain.answers| ==> Settled(c, store0, chain, chain.answers[k])
  {
    forall result { C.ReplySays(result, c.denyByDefault); }
  }

  lemma ReachablePairs(c: C.Config, r: Wire, store0: map<string, string>, n: nat, run: seq<Action>)
    requires Feasible(c, r, Initial(n, store0), run)
    ensures Inv(r, Exec(c, r, Initial(n, store0), run))
    ensures C.Feasible(c, C.Initial(n, store0), ChainRun(run))
    ensures C.Exec(c, C.Initial(n, store0), ChainRun(run)) == Exec(c, r, Initial(n, store0), run).chain
  {
    RunsOfBothParts(c, r, Initial(n, store0), run);
    InvInitial(r, n, store0);
    InvExec(c, r, Initial(n, store0), run);
  }

  // Whatever is reloaded, evicted and interleaved, each response written is a rejection or the
  // formatted answer to its own line, and that answer is accounted for.
  lemma EveryResponseAccounted(c: C.Config, r: Wire, store0: map<string, string>, n: nat, run: seq<Action>)
    requires Feasible(c, r, Initial(n, store0), run)
    ensures var s := Exec(c, r, Initial(n, store0), run);
      && |s.written| == |s.pool.answered|
      && (forall i :: 0 <= i < |s.written| ==> AccountedFor(c, r, store0, s, i))
      && (forall d :: d in s.chain.decisions ==> C.Genuine(c, d, s.chain.version))
  {
    var s := Exec(c, r, Initial(n, store0), run);
    ReachablePairs(c, r, store0, n, run);
    C.InvInitial(c, n, store0);
    C.InvExec(c, store0, C.Initial(n, store0), ChainRun(run));
    X.OnlyCachedRepliesAreStale(c, n, store0, ChainRun(run));
    AnswersSettled(c, store0, s.chain);
    forall i | 0 <= i < |s.written| ensures AccountedFor(c, r, store0, s, i) {
      assert FromAnswer(r, s.chain.answers, PlaceOf(r, s.pool.answered, i), s.pool.answered[i], s.written[i]);
    }
  }

  // The text rejects line number i, or formats the answer to it and that answer is current.
  ghost predicate IsCurrent(c: C.Config, r: Wire, s: State, i: nat)
    requires i < |s.pool.answered| == |s.written|
  {
    var k := PlaceOf(r, s.pool.answered, i);
    && FromAnswer(r, s.chain.answers, k, s.pool.answered[i], s.written[i])
    && (Valid(r, s.pool.answered[i]) ==> k < |s.chain.answers| && X.Current(c, s.chain.answers[k]))
  }

  // The condition on cached verdicts, for the addresses that some line asks about.
  ghost predicate RenewedForLines(c: C.Config, r: Wire, n: nat, store0: map<string, string>) {
    forall line :: Valid(r, line) ==> RenewedFor(c, r, n, store0, line)
  }

  ghost predicate RenewedFor(c: C.Config, r: Wire, n: nat, store0: map<string, string>, line: string) {
    X.RenewedAt(c, n, AddressOf(r, line)) && X.RenewedFromAt(c, store0, AddressOf(r, line))
  }

  // Where the cache holds only what the backends may say while it is asked, every response is one
  // the backends may give while its own request is in progress.
  lemma ResponsesAreCurrent(c: C.Config, r: Wire, store0: map<string, string>, n: nat, run: seq<Action>)
    requires RenewedForLines(c, r, n, store0) && Feasible(c, r, Initial(n, store0), run)
    ensures var s := Exec(c, r, Initial(n, store0), run);
      && |s.written| == |s.pool.answered|
      && forall i :: 0 <= i < |s.written| ==> IsCurrent(c, r, s, i)
  {
    var s := Exec(c, r, Initial(n, store0), run);
    ReachablePairs(c, r, store0, n, run);
    X.RepliesAreCurrent(c, n, store0, ChainRun(run));
    forall i | 0 <= i < |s.written| ensures IsCurrent(c, r, s, i) {
      var k := PlaceOf(r, s.pool.answered, i);
      assert FromAnswer(r, s.chain.answers, k, s.pool.answered[i], s.written[i]);
      if Valid(r, s.pool.answered[i]) {
        assert s.chain.answers[k] in s.chain.answers && RenewedFor(c, r, n, store0, s.pool.answered[i]);
      }
    }
  }

  // The response to a line by the plugin list without its cache plugins.
  function Response(c: C.Config, r: Wire, line: string): string {
    if !Valid(r, line) then Rejection(r, line) else Format(r, line, C.PureReply(c, AddressOf(r, line)))
  }

  // Where reloads do not change what the backends reply and the initial cache agrees with it,
  // each response written is that of the plugin list without its cache plugins, in every run.
  lemma ResponsesArePure(c: C.Config, r: Wire, store0: map<string, string>, n: nat, run: seq<Action>)
    requires Y.Steady(c) && Y.Agreeing(c, store0) && Feasible(c, r, Initial(n, store0), run)
    ensures var s := Exec(c, r, Initial(n, store0), run);
      && |s.written| == |s.pool.answered|
      && forall i :: 0 <= i < |s.written| ==> s.written[i] == Response(c, r, s.pool.answered[i])
  {
    var s := Exec(c, r, Initial(n, store0), run);
    RunsOfBothParts(c, r, Initial(n, store0), run);
    InvInitial(r, n, store0);
    InvExec(c, r, Initial(n, store0), run);
    Y.RepliesArePure(c, n, store0, ChainRun(run));
    forall i | 0 <= i < |s.written| ensures s.written[i] == Response(c, r, s.pool.answered[i]) {
      assert FromAnswer(r, s.chain.answers, ValidCount(r, s.pool.answered[..i]), s.pool.answered[i], s.written[i]);
    }
  }

  // ---------------------------------------------------------------- requests end

  // The steps left in a request, with m plugins.
  function RequestRank(m: nat, p: P.Worker, q: C.Worker): nat {
    if p.Handling? then
      match q
      case Idle => 2 * m + 6
      case Asking(_, at, _, _) => m + 5 + if at <= m then m - at else 0
      case _ => m + 4
    else if p.Finishing? then
      match q
      case Storing(_, _, at) => 2 + if at <= m then m - at else 0
      case _ => 1
    else 0
  }

  // Inside the handler loops the chain moves on ...
  lemma ChainRankDrops(c: C.Config, r: Wire, s: State, a: Action)
    requires Linked(r, s.pool.workers, s.chain.workers) && Enabled(r, s, a) && OfWorker(a) && PoolSteps(a) == []
    ensures var m, t := |c.plugins|, C.Apply(c, s.chain, ChainSteps(a)[0]);
      && a.w < |s.pool.workers| == |s.chain.workers| == |t.workers|
      && RequestRank(m, s.pool.workers[a.w], t.workers[a.w]) < RequestRank(m, s.pool.workers[a.w], s.chain.workers[a.w])
  {
    assert LinkedWorker(r, s.pool.workers[a.w], s.chain.workers[a.w]);
    if a.Ask? {
      AskRankDrops(c, s.chain, a.w, s.pool.workers[a.w]);
    }
  }

  lemma AskRankDrops(c: C.Config, s: C.State, w: nat, p: P.Worker)
    requires p.Handling? && w < |s.workers| && s.workers[w].Asking?
    ensures RequestRank(|c.plugins|, p, C.AskApply(c, s, w).workers[w]) < RequestRank(|c.plugins|, p, s.workers[w])
  {
  }

  // ... and a response or the end of the request moves on the pool.
  lemma PoolRankDrops(m: nat, r: Wire, s: State, a: Action, to: C.Worker)
    requires Linked(r, s.pool.workers, s.chain.workers) && Enabled(r, s, a) && (a.Reject? || a.Respond? || a.Done?)
    requires to.Idle? || to == s.chain.workers[a.w] || (to.Storing? && to.at == 0 && a.Respond?)
    ensures P.Enabled(s.pool, PoolSteps(a)[0])
    ensures RequestRank(m, P.Target(s.pool, s.pool.workers[a.w], PoolSteps(a)[0].act), to)
          < RequestRank(m, s.pool.workers[a.w], s.chain.workers[a.w])
  {
    assert LinkedWorker(r, s.pool.workers[a.w], s.chain.workers[a.w]);
  }

  lemma RankDrops(c: C.Config, r: Wire, s: State, a: Action)
    requires Linked(r, s.pool.workers, s.chain.workers) && Enabled(r, s, a) && OfWorker(a)
    ensures var m, t := |c.plugins|, Apply(c, r, s, a);
      && a.w < |s.pool.workers| == |s.chain.workers| == |t.pool.workers| == |t.chain.workers|
      && RequestRank(m, t.pool.workers[a.w], t.chain.workers[a.w])
       < RequestRank(m, s.pool.workers[a.w], s.chain.workers[a.w])
  {
    StepsEnabled(c, r, s, a);
    SingleSteps(c, s, PoolSteps(a), ChainSteps(a));
    if PoolSteps(a) == [] {
      ChainRankDrops(c, r, s, a);
    } else {
      PoolEffect(s.pool, PoolSteps(a)[0]);
      PoolRankDrops(|c.plugins|, r, s, a, Apply(c, r, s, a).chain.workers[a.w]);
    }
  }

  // A worker inside a request can always go on, by a step of its own.
  function OwnStep(r: Wire, s: State, w: nat): (a: Action)
    requires Linked(r, s.pool.workers, s.chain.workers) && w < |s.pool.workers|
    requires s.pool.workers[w].Handling? || s.pool.workers[w].Finishing?
    ensures OfWorker(a) && a.w == w && Enabled(r, s, a)
    ensures a.Done? ==> s.pool.workers[w].Finishing?
    ensures a.Reject? || a.Respond? ==> s.pool.workers[w].Handling?
  {
    assert LinkedWorker(r, s.pool.workers[w], s.chain.workers[w]);
    match s.chain.workers[w]
    case Asking(_, _, _, _) => Ask(w)
    case Decided(_, _, _, _, _) => Respond(w)
    case Storing(_, _, _) => Store(w, true)
    case Idle =>
      if s.pool.workers[w].Finishing? then Done(w)
      else if Valid(r, s.pool.workers[w].line) then Begin(w, AddressOf(r, s.pool.workers[w].line))
      else Reject(w)
  }

  lemma Prepend(c: C.Config, r: Wire, s: State, a: Action, rest: seq<Action>) returns (run: seq<Action>)
    requires Enabled(r, s, a) && Feasible(c, r, Apply(c, r, s, a), rest)
    ensures Feasible(c, r, s, run) && Exec(c, r, s, run) == Exec(c, r, Apply(c, r, s, a), rest)
    ensures PoolRun(run) == PoolSteps(a) + PoolRun(rest)
  {
    run := [a] + rest;
    assert run[1..] == rest;
  }

  lemma TakeOwnStep(c: C.Config, r: Wire, s: State, w: nat) returns (a: Action)
    requires Inv(r, s) && w < |s.pool.workers|
    requires s.pool.workers[w].Handling? || s.pool.workers[w].Finishing?
    ensures Enabled(r, s, a) && Inv(r, Apply(c, r, s, a))
    ensures PoolSteps(a) == [] ==>
      var t := Apply(c, r, s, a);
      && t.pool == s.pool && w < |t.chain.workers|
      && RequestRank(|c.plugins|, t.pool.workers[w], t.chain.workers[w])
       < RequestRank(|c.plugins|, s.pool.workers[w], s.chain.workers[w])
    ensures PoolSteps(a) != [] ==>
      PoolSteps(a) == [P.ByWorker(w, if s.pool.workers[w].Handling? then P.Answer else P.Done)]
  {
    a := OwnStep(r, s, w);
    LinkedStep(c, r, s, a);
    PairedStep(c, r, s, a);
    RankDrops(c, r, s, a);
  }

  // Left alone, a worker inside a request takes the pool's next step of that worker.
  lemma {:induction false} GoOn(c: C.Config, r: Wire, s: State, w: nat) returns (run: seq<Action>)
    requires Inv(r, s) && w < |s.pool.workers|
    requires s.pool.workers[w].Handling? || s.pool.workers[w].Finishing?
    ensures Feasible(c, r, s, run) && Inv(r, Exec(c, r, s, run))
    ensures PoolRun(run) == [P.ByWorker(w, if s.pool.workers[w].Handling? then P.Answer else P.Done)]
    decreases RequestRank(|c.plugins|, s.pool.workers[w], s.chain.workers[w])
  {
    var a := TakeOwnStep(c, r, s, w);
    var rest := [];
    if PoolSteps(a) == [] {
      rest := GoOn(c, r, Apply(c, r, s, a), w);
    }
    run := Prepend(c, r, s, a, rest);
  }

  lemma Lift(c: C.Config, r: Wire, s: State, p: P.Action) returns (run: seq<Action>)
    requires Inv(r, s) && P.Enabled(s.pool, p)
    ensures Feasible(c, r, s, run) && Inv(r, Exec(c, r, s, run)) && PoolRun(run) == [p]
    ensures Exec(c, r, s, run).pool == P.Apply(s.pool, p)
  {
    run := LiftRun(c, r, s, p);
    RunsOfBothParts(c, r, s, run);
    assert [p][1..] == [];
    assert P.Exec(P.Apply(s.pool, p), []) == P.Apply(s.pool, p);
  }

  lemma LiftRun(c: C.Config, r: Wire, s: State, p: P.Action) returns (run: seq<Action>)
    requires Inv(r, s) && P.Enabled(s.pool, p)
    ensures Feasible(c, r, s, run) && Inv(r, Exec(c, r, s, run)) && PoolRun(run) == [p]
  {
    if Outside(p) {
      run := [Pool(p)];
      assert run[1..] == [];
      assert PoolSteps(Pool(p)) + [] == [p];
      LinkedStep(c, r, s, Pool(p));
      PairedStep(c, r, s, Pool(p));
    } else {
      run := GoOn(c, r, s, p.w);
    }
  }

  lemma {:induction false} PoolRunConcat(a: seq<Action>, b: seq<Action>)
    ensures PoolRun(a + b) == PoolRun(a) + PoolRun(b)
  {
    if a == [] {
      assert a + b == b;
    } else {
      assert (a + b)[1..] == a[1..] + b;
      PoolRunConcat(a[1..], b);
    }
  }

  lemma {:induction false} ExecConcat(c: C.Config, r: Wire, s: State, a: seq<Action>, b: seq<Action>)
    requires Feasible(c, r, s, a) && Feasible(c, r, Exec(c, r, s, a), b)
    ensures Feasible(c, r, s, a + b) && Exec(c, r, s, a + b) == Exec(c, r, Exec(c, r, s, a), b)
    decreases |a|
  {
    if a == [] {
      assert a + b == b;
    } else {
      assert (a + b)[1..] == a[1..] + b && (a + b)[0] == a[0];
      var t := Apply(c, r, s, a[0]);
      assert Feasible(c, r, t, a[1..]) && Exec(c, r, s, a) == Exec(c, r, t, a[1..]);
      ExecConcat(c, r, t, a[1..], b);
    }
  }

  // Conversely every run of the pool is the pool's part of a run of the service: what happens in
  // some pool run can happen, whatever the plugins answer.
  lemma EveryPoolRunHappens(c: C.Config, r: Wire, s: State, steps: seq<P.Action>) returns (run: seq<Action>)
    requires Inv(r, s) && P.Feasible(s.pool, steps)
    ensures Feasible(c, r, s, run) && PoolRun(run) == steps
    ensures Exec(c, r, s, run).pool == P.Exec(s.pool, steps)
  {
    run := LiftAll(c, r, s, steps);
    RunsOfBothParts(c, r, s, run);
  }

  lemma {:induction false} LiftAll(c: C.Config, r: Wire, s: State, steps: seq<P.Action>)
      returns (run: seq<Action>)
    requires Inv(r, s) && P.Feasible(s.pool, steps)
    ensures Feasible(c, r, s, run) && PoolRun(run) == steps
    decreases |steps|
  {
    if steps == [] {
      run := [];
    } else {
      var first := Lift(c, r, s, steps[0]);
      var rest := LiftAll(c, r, Exec(c, r, s, first), steps[1..]);
      ExecConcat(c, r, s, first, rest);
      PoolRunConcat(first, rest);
      run := first + rest;
    }
  }

  // ---------------------------------------------------------------- shutdown of the service

  // Steps of main thread and workers: not the cache server's evictions, not reloads.
  predicate Own(a: Action) { !a.Evict? && !a.Reload? }

  ghost predicate AtRest(r: Wire, s: State) {
    forall a :: Own(a) ==> !Enabled(r, s, a)
  }

  // The service can step where the pool can, and the other way round.
  lemma StepOfService(r: Wire, s: State, p: P.Action) returns (a: Action)
    requires Inv(r, s) && P.Enabled(s.pool, p)
    ensures Own(a) && Enabled(r, s, a) && (Quiet(a) <==> P.Quiet(p))
    ensures a.Pool? ==> a.a == p
  {
    a := if Outside(p) then Pool(p) else OwnStep(r, s, p.w);
  }

  lemma StepOfPool(r: Wire, s: State, a: Action) returns (p: P.Action)
    requires Inv(r, s) && Own(a) && Enabled(r, s, a)
    ensures P.Enabled(s.pool, p)
  {
    if a.Pool? {
      p := a.a;
    } else {
      assert LinkedWorker(r, s.pool.workers[a.w], s.chain.workers[a.w]);
      p := P.ByWorker(a.w, if s.pool.workers[a.w].Handling? then P.Answer else P.Done);
    }
  }

  // Where nothing but evictions and reloads can happen, the pool is stuck.
  lemma RestingPoolIsStuck(r: Wire, s: State)
    requires Inv(r, s) && AtRest(r, s)
    ensures P.Stuck(s.pool)
  {
    forall p ensures !P.Enabled(s.pool, p) {
      if P.Enabled(s.pool, p) {
        var a := StepOfService(r, s, p);
      }
    }
  }

  ghost predicate AlwaysCompletes(c: C.Config, r: Wire, s: State) {
    forall run :: Feasible(c, r, s, run) && AtRest(r, Exec(c, r, s, run)) ==> Exec(c, r, s, run).pool.main.Finished?
  }

  lemma StuckPoolRests(r: Wire, s: State)
    requires Inv(r, s) && P.Stuck(s.pool)
    ensures AtRest(r, s)
  {
    forall a | Own(a) ensures !Enabled(r, s, a) {
      if Enabled(r, s, a) {
        var p := StepOfPool(r, s, a);
      }
    }
  }

  // The condition under which shutdown always completes is the pool's, whatever the plugins,
  // the cache and the tables do.
  lemma ServiceCompletesExactlyWhen(c: C.Config, r: Wire, store0: map<string, string>, n: nat,
                                    before: seq<Action>)
    requires Feasible(c, r, Initial(n, store0), before)
    requires P.InShutdown(Exec(c, r, Initial(n, store0), before).pool)
    ensures var s := Exec(c, r, Initial(n, store0), before); AlwaysCompletes(c, r, s) <==> P.CanComplete(s.pool)
  {
    var s := Exec(c, r, Initial(n, store0), before);
    InvInitial(r, n, store0);
    InvExec(c, r, Initial(n, store0), before);
    RunsOfBothParts(c, r, Initial(n, store0), before);
    P.ShutdownCompletesExactlyWhen(n, PoolRun(before));
    if P.CanComplete(s.pool) {
      forall run | Feasible(c, r, s, run) && AtRest(r, Exec(c, r, s, run))
        ensures Exec(c, r, s, run).pool.main.Finished?
      {
        InvExec(c, r, s, run);
        RestingPoolIsStuck(r, Exec(c, r, s, run));
        RunsOfBothParts(c, r, s, run);
        assert P.Maximal(s.pool, PoolRun(run));
      }
    } else {
      var steps :| P.Maximal(s.pool, steps) && !P.Exec(s.pool, steps).main.Finished?;
      var run := EveryPoolRunHappens(c, r, s, steps);
      InvExec(c, r, s, run);
      StuckPoolRests(r, Exec(c, r, s, run));
    }
  }

  // ---------------------------------------------------------------- the service settles

  function Pairs(ps: seq<P.Worker>, qs: seq<C.Worker>): (pairs: seq<(P.Worker, C.Worker)>)
    requires |ps| == |qs|
    ensures |pairs| == |ps| && forall i :: 0 <= i < |ps| ==> pairs[i] == (ps[i], qs[i])
  {
    seq(|ps|, i requires 0 <= i < |ps| => (ps[i], qs[i]))
  }

  function RankOf(m: nat): ((P.Worker, C.Worker)) -> nat {
    (pair: (P.Worker, C.Worker)) => RequestRank(m, pair.0, pair.1)
  }

  function RequestWork(m: nat, s: State): nat
    requires |s.pool.workers| == |s.chain.workers|
  {
    Sums.Sum(Pairs(s.pool.workers, s.chain.workers), RankOf(m))
  }

  // A step of the pool pays for a whole request.
  function Measure(m: nat, s: State): nat
    requires |s.pool.workers| == |s.chain.workers|
  {
    (2 * m + 7) * P.Measure(s.pool) + RequestWork(m, s)
  }

  predicate Quiet(a: Action) { a.Pool? ==> P.Quiet(a.a) }

  lemma WorkUpdate(m: nat, ps: seq<P.Worker>, qs: seq<C.Worker>, w: nat, p: P.Worker, q: C.Worker)
    requires |ps| == |qs| && w < |ps|
    ensures Sums.Sum(Pairs(ps[w := p], qs[w := q]), RankOf(m)) + RequestRank(m, ps[w], qs[w])
         == Sums.Sum(Pairs(ps, qs), RankOf(m)) + RequestRank(m, p, q)
  {
    assert Pairs(ps[w := p], qs[w := q]) == Pairs(ps, qs)[w := (p, q)];
    Sums.SumUpdate(Pairs(ps, qs), w, (p, q), RankOf(m));
  }

  lemma WorkByOwn(c: C.Config, r: Wire, s: State, a: Action)
    requires Linked(r, s.pool.workers, s.chain.workers) && Enabled(r, s, a) && OfWorker(a)
    ensures var t := Apply(c, r, s, a);
      |t.pool.workers| == |t.chain.workers| && RequestWork(|c.plugins|, t) < RequestWork(|c.plugins|, s)
  {
    var p, q := WorkersMove(c, r, s, a);
    RankDrops(c, r, s, a);
    WorkUpdate(|c.plugins|, s.pool.workers, s.chain.workers, a.w, p, q);
  }

  lemma WorkByPool(m: nat, r: Wire, s: State, p: P.Action)
    requires Linked(r, s.pool.workers, s.chain.workers) && P.Enabled(s.pool, p) && Outside(p)
    ensures |P.Apply(s.pool, p).workers| == |s.chain.workers|
    ensures RequestWork(m, State(P.Apply(s.pool, p), s.chain, s.written)) <= RequestWork(m, s) + 2 * m + 6
  {
    PoolEffect(s.pool, p);
    if p.ByWorker? {
      var w, to := p.w, P.Target(s.pool, s.pool.workers[p.w], p.act);
      assert LinkedWorker(r, s.pool.workers[w], s.chain.workers[w]);
      WorkUpdate(m, s.pool.workers, s.chain.workers, w, to, s.chain.workers[w]);
      assert s.chain.workers[w := s.chain.workers[w]] == s.chain.workers;
    }
  }

  lemma Scaled(k: nat, x: nat, y: nat)
    requires x < y
    ensures k * x + k <= k * y
  {
    assert k * (y - x - 1) >= 0;
  }

  lemma PoolMeasureDrops(s: P.State, steps: seq<P.Action>)
    requires |steps| <= 1 && P.Feasible(s, steps) && P.QuietRun(steps)
    ensures steps == [] ==> P.Exec(s, steps) == s
    ensures steps != [] ==> P.Measure(P.Exec(s, steps)) < P.Measure(s)
  {
    if steps != [] {
      P.QuietRunsFinite(s, steps);
    }
  }

  lemma MeasureStep(c: C.Config, r: Wire, s: State, a: Action)
    requires Linked(r, s.pool.workers, s.chain.workers) && Enabled(r, s, a) && Quiet(a)
    ensures var t := Apply(c, r, s, a);
      && |t.pool.workers| == |t.chain.workers|
      && Measure(|c.plugins|, t) + (if Own(a) then 1 else 0) <= Measure(|c.plugins|, s)
  {
    var m, t := |c.plugins|, Apply(c, r, s, a);
    StepsEnabled(c, r, s, a);
    SingleSteps(c, s, PoolSteps(a), ChainSteps(a));
    PoolMeasureDrops(s.pool, PoolSteps(a));
    if PoolSteps(a) != [] {
      Scaled(2 * m + 7, P.Measure(t.pool), P.Measure(s.pool));
    }
    if OfWorker(a) {
      WorkByOwn(c, r, s, a);
    } else if a.Pool? {
      WorkByPool(m, r, s, a.a);
    }
  }

  function OwnSteps(run: seq<Action>): nat {
    if run == [] then 0 else (if Own(run[0]) then 1 else 0) + OwnSteps(run[1..])
  }

  // Without further input and signals main thread and workers take finitely many steps,
  // whatever is reloaded and evicted meanwhile.
  lemma {:induction false} ServiceSettles(c: C.Config, r: Wire, s: State, run: seq<Action>)
    requires Inv(r, s) && Feasible(c, r, s, run)
    requires forall i :: 0 <= i < |run| ==> Quiet(run[i])
    ensures Inv(r, Exec(c, r, s, run))
    ensures OwnSteps(run) + Measure(|c.plugins|, Exec(c, r, s, run)) <= Measure(|c.plugins|, s)
    decreases |run|
  {
    if run != [] {
      LinkedStep(c, r, s, run[0]);
      PairedStep(c, r, s, run[0]);
      MeasureStep(c, r, s, run[0]);
      assert forall i :: 0 <= i < |run[1..]| ==> run[1..][i] == run[i + 1];
      ServiceSettles(c, r, Apply(c, r, s, run[0]), run[1..]);
    }
  }

  // ---------------------------------------------------------------- answering

  // Steps that neither bring input or signals nor leave the event loop.
  predicate Serving(a: Action) {
    Quiet(a) && a != Pool(P.ByMain(P.LeaveLoop))
  }

  lemma {:induction false} ServingPoolRun(run: seq<Action>)
    requires forall i :: 0 <= i < |run| ==> Serving(run[i])
    ensures L.StaysInLoop(PoolRun(run))
  {
    if run != [] {
      assert forall i :: 0 <= i < |run[1..]| ==> run[1..][i] == run[i + 1];
      ServingPoolRun(run[1..]);
      assert Serving(run[0]);
      forall i | 0 <= i < |PoolRun(run)| ensures P.Quiet(PoolRun(run)[i]) {
        if i >= |PoolSteps(run[0])| {
          assert PoolRun(run)[i] == PoolRun(run[1..])[i - |PoolSteps(run[0])|];
        }
      }
    }
  }

  // While the loop runs and some worker serves: when nothing but input, signals, leaving,
  // evictions and reloads can happen, every line received has its response written.
  lemma EveryRequestGetsItsResponse(c: C.Config, r: Wire, store0: map<string, string>, n: nat,
                                    before: seq<Action>, run: seq<Action>)
    requires Feasible(c, r, Initial(n, store0), before)
    requires var s := Exec(c, r, Initial(n, store0), before);
      P.InLoop(s.pool) && Sums.Sum(s.pool.workers, P.Served) > 0 && Feasible(c, r, s, run)
    requires forall i :: 0 <= i < |run| ==> Serving(run[i])
    requires var t := Exec(c, r, Exec(c, r, Initial(n, store0), before), run);
      forall a :: Own(a) && Serving(a) ==> !Enabled(r, t, a)
    ensures var t := Exec(c, r, Exec(c, r, Initial(n, store0), before), run);
      && t.pool.jobs == [] && multiset(t.pool.answered) == multiset(t.pool.received)
      && Paired(r, t.pool.answered, t.chain.answers, t.written)
  {
    var s := Exec(c, r, Initial(n, store0), before);
    var t := Exec(c, r, s, run);
    InvInitial(r, n, store0);
    InvExec(c, r, Initial(n, store0), before);
    InvExec(c, r, s, run);
    RunsOfBothParts(c, r, Initial(n, store0), before);
    RunsOfBothParts(c, r, s, run);
    ServingPoolRun(run);
    L.EveryLineGetsAnswered(n, PoolRun(before), PoolRun(run));
    forall p | P.Quiet(p) && p != P.ByMain(P.LeaveLoop) ensures !P.Enabled(t.pool, p) {
      if P.Enabled(t.pool, p) {
        var a := StepOfService(r, t, p);
      }
    }
  }
}
