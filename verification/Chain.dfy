/** The plugin chain of a worker and its memcached first-level cache
    (src/core/main.c, src/plugins/mod_memcached). */
module Chain {
  import opened Handlers

  // A backend is known by its number; NoHandler is a plugin without handle_request.
  datatype Plugin = Backend(id: nat) | Memcached | NoHandler

  // What a backend answers for an address under a version of its tables.
  type Backends = (nat, nat, string) -> Status

  datatype Config = Config(plugins: seq<Plugin>, backends: Backends, denyByDefault: bool)

  datatype Log = NoLog | Log(text: string)
  datatype Reply = Reply(ok: bool, log: Log)

  predicate Decisive(status: Status) { status.Allow? || status.Deny? }

  // What Squid is to be told: OK for a permission and, unless denied by default, where no plugin
  // decided; the text distinguishes the three cases.
  predicate Says(reply: Reply, status: Status, denyByDefault: bool) {
    && (reply.ok <==> status.Allow? || (!status.Deny? && !denyByDefault))
    && (reply.log == NoLog <==> status.Allow?)
    && (reply.log == Log("DENIED") <==> status.Deny?)
    && (reply.log == Log("UNKNOWN ERR") <==> !status.Allow? && !status.Deny?)
  }

  function ReplyFor(result: Status, denyByDefault: bool): Reply {
    match result
    case Allow => Reply(true, NoLog)
    case Deny => Reply(false, Log("DENIED"))
    case _ => Reply(!denyByDefault, Log("UNKNOWN ERR"))
  }

  lemma ReplySays(result: Status, denyByDefault: bool)
    ensures Says(ReplyFor(result, denyByDefault), result, denyByDefault)
  {
  }

  const KEY_PREFIX := "webcontrol_host_"

  function Key(address: string): string { KEY_PREFIX + address }

  // The value stored for a verdict, and the verdict read from a value's first four bytes.
  function Encode(result: Status): string { if result.Allow? then "TRUE" else "FALSE" }
  function Decode(value: string): Status { if |value| >= 4 && value[..4] == "TRUE" then Allow else Deny }

  lemma CodecRoundTrip(result: Status)
    requires Decisive(result)
    ensures Decode(Encode(result)) == result
  {
    assert "FALSE"[0] != "TRUE"[0];
  }

  // A value is a permission exactly if it opens with TRUE; a denial is stored as FALSE.
  lemma StoredVerdicts(value: string)
    ensures Decode(value) == if "TRUE" <= value then Allow else Deny
    ensures value == Encode(Allow) <==> value == "TRUE"
    ensures value == Encode(Deny) <==> value == "FALSE"
  {
  }

  lemma KeysDiffer(a: string, b: string)
    requires Key(a) == Key(b)
    ensures a == b
  {
    assert a == Key(a)[|KEY_PREFIX|..];
    assert b == Key(b)[|KEY_PREFIX|..];
  }

  // The status one plugin returns; a cache hit is a verdict, a miss goes on.
  function Handle(c: Config, p: Plugin, version: nat, store: map<string, string>, address: string): Status {
    match p
    case Backend(id) => c.backends(version, id, address)
    case Memcached => if Key(address) in store then Decode(store[Key(address)]) else GoOn
    case NoHandler => GoOn
  }

  // ---------------------------------------------------------------- the plugin list without its cache

  function Uncached(plugins: seq<Plugin>): seq<Plugin> {
    if plugins == [] then []
    else (if plugins[0].Memcached? then [] else [plugins[0]]) + Uncached(plugins[1..])
  }

  // The place of the first plugin that returns a status other than GoOn.
  function DecidedAt(c: Config, plugins: seq<Plugin>, version: nat, store: map<string, string>,
                     address: string): (at: nat)
    ensures at <= |plugins|
    ensures forall j :: 0 <= j < at ==> Handle(c, plugins[j], version, store, address) == GoOn
    ensures at < |plugins| ==> Handle(c, plugins[at], version, store, address) != GoOn
  {
    if plugins == [] || Handle(c, plugins[0], version, store, address) != GoOn then 0
    else 1 + DecidedAt(c, plugins[1..], version, store, address)
  }

  function FirstDecision(c: Config, plugins: seq<Plugin>, version: nat, store: map<string, string>,
                         address: string): Status {
    var at := DecidedAt(c, plugins, version, store, address);
    if at < |plugins| then Handle(c, plugins[at], version, store, address) else GoOn
  }

  // What the plugin list decides without its cache plugins.
  function PureDecision(c: Config, address: string): Status {
    FirstDecision(c, Uncached(c.plugins), 0, map[], address)
  }

  function PureReply(c: Config, address: string): Reply {
    ReplyFor(PureDecision(c, address), c.denyByDefault)
  }

  // ---------------------------------------------------------------- workers sharing one cache

  // How a result came about. A trail lists the table version current when each plugin was asked.
  datatype Origin =
    | FromBackend(at: nat, trail: seq<nat>)
    | FromCache(known: nat, at: nat, trail: seq<nat>)   // `known` decisions had been made
    | Undecided(trail: seq<nat>)

  datatype Decision = Decision(address: string, at: nat, trail: seq<nat>, status: Status)

  // `since` is the table version current when the request began.
  datatype Worker =
    | Idle
    | Asking(address: string, at: nat, trail: seq<nat>, since: nat)
    | Decided(address: string, result: Status, skip: bool, origin: Origin, since: nat)
    | Storing(address: string, result: Status, at: nat)

  // The table versions current when the request began and when it was answered come last.
  datatype Answer = Answer(address: string, result: Status, origin: Origin, reply: Reply, since: nat, until: nat)

  datatype State = State(
    store: map<string, string>,
    version: nat,
    workers: seq<Worker>,
    decisions: seq<Decision>,   // every status other than GoOn a backend returned, in order
    answers: seq<Answer>
  )

  datatype Action =
    | Begin(w: nat, address: string)
    | Ask(w: nat)
    | Respond(w: nat)
    | Store(w: nat, stored: bool)
    | Evict(key: string)
    | Reload

  predicate Enabled(s: State, a: Action) {
    match a
    case Begin(w, _) => w < |s.workers| && s.workers[w].Idle?
    case Ask(w) => w < |s.workers| && s.workers[w].Asking?
    case Respond(w) => w < |s.workers| && s.workers[w].Decided?
    case Store(w, _) => w < |s.workers| && s.workers[w].Storing?
    case Evict(_) => true
    case Reload => true
  }

  // One turn of the handler loop.
  function AskApply(c: Config, s: State, w: nat): State
    requires w < |s.workers| && s.workers[w].Asking?
  {
    var Asking(address, at, trail, since) := s.workers[w];
    if at >= |c.plugins| then
      s.(workers := s.workers[w := Decided(address, GoOn, false, Undecided(trail), since)])
    else
      var status := Handle(c, c.plugins[at], s.version, s.store, address);
      var asked := trail + [s.version];
      if status.GoOn? then s.(workers := s.workers[w := Asking(address, at + 1, asked, since)])
      else if c.plugins[at].Memcached? then
        s.(workers := s.workers[w := Decided(address, status, true, FromCache(|s.decisions|, at, asked), since)])
      else
        s.(workers := s.workers[w := Decided(address, status, false, FromBackend(at, asked), since)],
           decisions := s.decisions + [Decision(address, at, asked, status)])
  }

  function Apply(c: Config, s: State, a: Action): State
    requires Enabled(s, a)
  {
    match a
    case Begin(w, address) => s.(workers := s.workers[w := Asking(address, 0, [], s.version)])
    case Ask(w) => AskApply(c, s, w)
    case Respond(w) =>
      var Decided(address, result, skip, origin, since) := s.workers[w];
      s.(workers := s.workers[w := if Decisive(result) && !skip then Storing(address, result, 0) else Idle],
         answers := s.answers
                    + [Answer(address, result, origin, ReplyFor(result, c.denyByDefault), since, s.version)])
    case Store(w, stored) =>
      var Storing(address, result, at) := s.workers[w];
      if at >= |c.plugins| then s.(workers := s.workers[w := Idle])
      else
        s.(workers := s.workers[w := Storing(address, result, at + 1)],
           store := if c.plugins[at].Memcached? && stored then s.store[Key(address) := Encode(result)] else s.store)
    case Evict(key) => s.(store := s.store - {key})
    case Reload => s.(version := s.version + 1)
  }

  function Initial(workers: nat, store: map<string, string>): State {
    State(store, 0, seq(workers, _ => Idle), [], [])
  }

  predicate Feasible(c: Config, s: State, run: seq<Action>)
    decreases |run|
  {
    run == [] || (Enabled(s, run[0]) && Feasible(c, Apply(c, s, run[0]), run[1..]))
  }

  function Exec(c: Config, s: State, run: seq<Action>): State
    requires Feasible(c, s, run)
    decreases |run|
  {
    if run == [] then s else Exec(c, Apply(c, s, run[0]), run[1..])
  }

  // ---------------------------------------------------------------- provenance

  // The first `at` plugins were asked about the address, in order, under versions no later
  // than `version`, and every backend among them went on.
  ghost predicate WentOn(c: Config, address: string, at: nat, trail: seq<nat>, version: nat) {
    && |trail| == at <= |c.plugins|
    && (forall j :: 0 <= j < at ==> trail[j] <= version)
    && (forall i, j :: 0 <= i <= j < at ==> trail[i] <= trail[j])
    && (forall j :: 0 <= j < at && c.plugins[j].Backend? ==>
          c.backends(trail[j], c.plugins[j].id, address) == GoOn)
  }

  // A genuine decision: a backend gave it, under the version then current, after all earlier
  // backends of the list went on.
  ghost predicate Genuine(c: Config, d: Decision, version: nat) {
    && d.at < |c.plugins| && c.plugins[d.at].Backend?
    && |d.trail| == d.at + 1
    && d.trail[d.at] <= version
    && WentOn(c, d.address, d.at, d.trail[..d.at], d.trail[d.at])
    && d.status == c.backends(d.trail[d.at], c.plugins[d.at].id, d.address) != GoOn
  }

  // The verdict was decided for the address among the first `known` decisions.
  ghost predicate DecidedBefore(decisions: seq<Decision>, known: nat, address: string, result: Status) {
    exists k :: 0 <= k < known && k < |decisions| && decisions[k].address == address && decisions[k].status == result
  }

  // The verdict stands in the cache the run started with.
  predicate Inherited(store0: map<string, string>, address: string, result: Status) {
    Key(address) in store0 && Decode(store0[Key(address)]) == result
  }

  ghost predicate Accounted(c: Config, store0: map<string, string>, s: State, address: string, result: Status,
                            origin: Origin) {
    match origin
    case FromBackend(at, trail) => Decision(address, at, trail, result) in s.decisions
    case FromCache(known, at, trail) =>
      known <= |s.decisions| && Decisive(result)
      && at < |c.plugins| && c.plugins[at].Memcached? && |trail| == at + 1
      && WentOn(c, address, at, trail[..at], trail[at]) && trail[at] <= s.version
      && (Inherited(store0, address, result) || DecidedBefore(s.decisions, known, address, result))
    case Undecided(trail) => result == GoOn && WentOn(c, address, |c.plugins|, trail, s.version)
  }

  ghost predicate WorkerOk(c: Config, store0: map<string, string>, s: State, w: Worker) {
    match w
    case Idle => true
    case Asking(address, at, trail, _) => WentOn(c, address, at, trail, s.version)
    case Decided(address, result, skip, origin, _) =>
      Accounted(c, store0, s, address, result, origin) && skip == origin.FromCache?
    case Storing(address, result, _) =>
      Decisive(result) && DecidedBefore(s.decisions, |s.decisions|, address, result)
  }

  // Every cached value is inherited or encodes a verdict decided for that very address.
  ghost predicate StoreOk(store0: map<string, string>, s: State) {
    forall address :: Key(address) in s.store ==>
      var result := Decode(s.store[Key(address)]);
      Inherited(store0, address, result) || DecidedBefore(s.decisions, |s.decisions|, address, result)
  }

  ghost predicate Inv(c: Config, store0: map<string, string>, s: State) {
    && (forall d :: d in s.decisions ==> Genuine(c, d, s.version))
    && (forall i :: 0 <= i < |s.workers| ==> WorkerOk(c, store0, s, s.workers[i]))
    && StoreOk(store0, s)
    && (forall i :: 0 <= i < |s.answers| ==>
          Accounted(c, store0, s, s.answers[i].address, s.answers[i].result, s.answers[i].origin)
          && s.answers[i].reply == ReplyFor(s.answers[i].result, c.denyByDefault))
  }

  // Nothing said about the past is unsaid when decisions are added or tables reloaded.
  lemma DecidedStays(decisions: seq<Decision>, more: seq<Decision>, known: nat, address: string, result: Status)
    requires decisions <= more && DecidedBefore(decisions, known, address, result)
    ensures DecidedBefore(more, known, address, result)
    ensures DecidedBefore(more, |more|, address, result)
  {
    var k :| 0 <= k < known && k < |decisions| && decisions[k].address == address && decisions[k].status == result;
    assert more[k] == decisions[k];
  }

  lemma AccountedStays(c: Config, store0: map<string, string>, s: State, t: State, address: string, result: Status,
                       origin: Origin)
    requires Accounted(c, store0, s, address, result, origin)
    requires s.decisions <= t.decisions && s.version <= t.version
    ensures Accounted(c, store0, t, address, result, origin)
  {
    if origin.FromCache? && !Inherited(store0, address, result) {
      DecidedStays(s.decisions, t.decisions, origin.known, address, result);
    } else if origin.FromBackend? {
      var d := Decision(address, origin.at, origin.trail, result);
      var k :| 0 <= k < |s.decisions| && s.decisions[k] == d;
      assert t.decisions[k] == d;
    }
  }

  lemma WorkerStays(c: Config, store0: map<string, string>, s: State, t: State, w: Worker)
    requires WorkerOk(c, store0, s, w)
    requires s.decisions <= t.decisions && s.version <= t.version
    ensures WorkerOk(c, store0, t, w)
  {
    match w
    case Decided(address, result, _, origin, _) => AccountedStays(c, store0, s, t, address, result, origin);
    case Storing(address, result, _) => DecidedStays(s.decisions, t.decisions, |s.decisions|, address, result);
    case _ =>
  }

  lemma DecisionsGrow(c: Config, s: State, a: Action)
    requires Enabled(s, a)
    ensures s.decisions <= Apply(c, s, a).decisions && s.version <= Apply(c, s, a).version
    ensures |Apply(c, s, a).workers| == |s.workers|
  {
  }

  // The decisions stay genuine; a new one is the one AskApply records.
  lemma GenuineStep(c: Config, store0: map<string, string>, s: State, a: Action)
    requires Inv(c, store0, s) && Enabled(s, a)
    ensures forall d :: d in Apply(c, s, a).decisions ==> Genuine(c, d, Apply(c, s, a).version)
  {
    var t := Apply(c, s, a);
    forall d | d in t.decisions ensures Genuine(c, d, t.version) {
      if d in s.decisions {
        assert Genuine(c, d, s.version);
      } else {
        var Asking(address, at, trail, _) := s.workers[a.w];
        assert WorkerOk(c, store0, s, s.workers[a.w]);
        assert d == Decision(address, at, trail + [s.version], c.backends(s.version, c.plugins[at].id, address));
        assert d.trail[..d.at] == trail;
      }
    }
  }

  // The worker that moved is accounted for.
  lemma MoverStep(c: Config, store0: map<string, string>, s: State, a: Action)
    requires Inv(c, store0, s) && Enabled(s, a) && !a.Evict? && !a.Reload?
    ensures WorkerOk(c, store0, Apply(c, s, a), Apply(c, s, a).workers[a.w])
  {
    var t := Apply(c, s, a);
    var from := s.workers[a.w];
    assert WorkerOk(c, store0, s, from);
    match a
    case Ask(w) =>
      var Asking(address, at, trail, _) := from;
      if at < |c.plugins| {
        var status := Handle(c, c.plugins[at], s.version, s.store, address);
        if status.GoOn? {
          assert (trail + [s.version])[..at] == trail;
        } else if c.plugins[at].Memcached? {
          assert (trail + [s.version])[..at] == trail;
        } else {
          assert t.decisions[|s.decisions|] == Decision(address, at, trail + [s.version], status);
        }
      }
    case Respond(w) =>
      var Decided(address, result, skip, origin, _) := from;
      if Decisive(result) && !skip {
        var d := Decision(address, origin.at, origin.trail, result);
        var k :| 0 <= k < |s.decisions| && s.decisions[k] == d;
        assert DecidedBefore(t.decisions, |t.decisions|, address, result);
      }
    case _ =>
  }

  lemma StoreStep(c: Config, store0: map<string, string>, s: State, a: Action)
    requires Inv(c, store0, s) && Enabled(s, a)
    ensures StoreOk(store0, Apply(c, s, a))
  {
    var t := Apply(c, s, a);
    DecisionsGrow(c, s, a);
    forall address | Key(address) in t.store
      ensures Inherited(store0, address, Decode(t.store[Key(address)]))
           || DecidedBefore(t.decisions, |t.decisions|, address, Decode(t.store[Key(address)]))
    {
      if Key(address) in s.store && t.store[Key(address)] == s.store[Key(address)] {
        var result := Decode(s.store[Key(address)]);
        if !Inherited(store0, address, result) {
          DecidedStays(s.decisions, t.decisions, |s.decisions|, address, result);
        }
      } else {
        var Storing(mine, result, _) := s.workers[a.w];
        assert WorkerOk(c, store0, s, s.workers[a.w]);
        KeysDiffer(address, mine);
        CodecRoundTrip(result);
      }
    }
  }

  lemma InvStep(c: Config, store0: map<string, string>, s: State, a: Action)
    requires Inv(c, store0, s) && Enabled(s, a)
    ensures Inv(c, store0, Apply(c, s, a))
  {
    var t := Apply(c, s, a);
    DecisionsGrow(c, s, a);
    GenuineStep(c, store0, s, a);
    StoreStep(c, store0, s, a);
    forall i | 0 <= i < |t.workers| ensures WorkerOk(c, store0, t, t.workers[i]) {
      if t.workers[i] == s.workers[i] {
        WorkerStays(c, store0, s, t, s.workers[i]);
      } else {
        MoverStep(c, store0, s, a);
      }
    }
    forall i | 0 <= i < |t.answers|
      ensures Accounted(c, store0, t, t.answers[i].address, t.answers[i].result, t.answers[i].origin)
      ensures t.answers[i].reply == ReplyFor(t.answers[i].result, c.denyByDefault)
    {
      if i < |s.answers| {
        assert t.answers[i] == s.answers[i];
        AccountedStays(c, store0, s, t, s.answers[i].address, s.answers[i].result, s.answers[i].origin);
      } else {
        assert WorkerOk(c, store0, s, s.workers[a.w]);
      }
    }
  }

  lemma InvInitial(c: Config, workers: nat, store0: map<string, string>)
    ensures Inv(c, store0, Initial(workers, store0))
  {
  }

  lemma {:induction false} InvExec(c: Config, store0: map<string, string>, s: State, run: seq<Action>)
    requires Inv(c, store0, s) && Feasible(c, s, run)
    ensures Inv(c, store0, Exec(c, s, run))
    decreases |run|
  {
    if run != [] {
      InvStep(c, store0, s, run[0]);
      InvExec(c, store0, Apply(c, s, run[0]), run[1..]);
    }
  }

  // A verdict answered from the cache was decided earlier, for the same address, by a backend
  // under a table version then current (or stood in the initial cache), whatever is reloaded,
  // evicted or interleaved.
  lemma CacheProvenance(c: Config, workers: nat, store0: map<string, string>, run: seq<Action>)
    requires Feasible(c, Initial(workers, store0), run)
    ensures var s := Exec(c, Initial(workers, store0), run);
      && (forall d :: d in s.decisions ==> Genuine(c, d, s.version))
      && (forall i :: 0 <= i < |s.answers| && s.answers[i].origin.FromCache? ==>
            var Answer(address, result, origin, _, _, _) := s.answers[i];
            origin.known <= |s.decisions| && Decisive(result)
            && (Inherited(store0, address, result) || DecidedBefore(s.decisions, origin.known, address, result)))
      && StoreOk(store0, s)
  {
    InvInitial(c, workers, store0);
    InvExec(c, store0, Initial(workers, store0), run);
  }

  // In every run every answer is accounted for, and its reply says what was decided.
  lemma EveryReplySaysTheDecision(c: Config, workers: nat, store0: map<string, string>, run: seq<Action>)
    requires Feasible(c, Initial(workers, store0), run)
    ensures var s := Exec(c, Initial(workers, store0), run);
      forall i :: 0 <= i < |s.answers| ==>
        var Answer(address, result, origin, reply, _, _) := s.answers[i];
        Says(reply, result, c.denyByDefault) && Accounted(c, store0, s, address, result, origin)
  {
    InvInitial(c, workers, store0);
    InvExec(c, store0, Initial(workers, store0), run);
    forall result { ReplySays(result, c.denyByDefault); }
  }

  // ---------------------------------------------------------------- transparency

  ghost predicate Fixed(c: Config) {
    forall version, id, address :: c.backends(version, id, address) == c.backends(0, id, address)
  }

  // The initial cache holds only verdicts the uncached list would give.
  ghost predicate Coherent(c: Config, store0: map<string, string>) {
    forall address :: Key(address) in store0 ==> Decode(store0[Key(address)]) == PureDecision(c, address)
  }

  lemma FirstGoesOn(c: Config, plugins: seq<Plugin>, version: nat, store: map<string, string>, address: string)
    requires plugins != [] && Handle(c, plugins[0], version, store, address) == GoOn
    ensures FirstDecision(c, plugins, version, store, address)
         == FirstDecision(c, plugins[1..], version, store, address)
  {
  }

  // Plugins that go on do not influence the decision of the uncached list.
  lemma {:induction false} SkipWhatGoesOn(c: Config, plugins: seq<Plugin>, at: nat, address: string)
    requires at <= |plugins|
    requires forall j :: 0 <= j < at && plugins[j].Backend? ==> c.backends(0, plugins[j].id, address) == GoOn
    ensures FirstDecision(c, Uncached(plugins), 0, map[], address)
         == FirstDecision(c, Uncached(plugins[at..]), 0, map[], address)
  {
    if at > 0 {
      assert plugins[1..][at - 1..] == plugins[at..];
      assert forall j :: 0 <= j < at - 1 ==> plugins[1..][j] == plugins[j + 1];
      SkipWhatGoesOn(c, plugins[1..], at - 1, address);
      if plugins[0].Memcached? {
        assert Uncached(plugins) == Uncached(plugins[1..]);
      } else {
        assert Uncached(plugins)[1..] == Uncached(plugins[1..]);
        FirstGoesOn(c, Uncached(plugins), 0, map[], address);
      }
    } else {
      assert plugins[0..] == plugins;
    }
  }

  lemma GenuineIsPure(c: Config, d: Decision, version: nat)
    requires Fixed(c) && Genuine(c, d, version)
    ensures PureDecision(c, d.address) == d.status
  {
    forall j | 0 <= j < d.at && c.plugins[j].Backend?
      ensures c.backends(0, c.plugins[j].id, d.address) == GoOn
    {
      assert c.backends(d.trail[..d.at][j], c.plugins[j].id, d.address) == GoOn;
    }
    SkipWhatGoesOn(c, c.plugins, d.at, d.address);
    var rest := c.plugins[d.at..];
    assert Uncached(rest)[0] == c.plugins[d.at];
  }

  lemma ExhaustedIsPure(c: Config, address: string, trail: seq<nat>, version: nat)
    requires Fixed(c) && WentOn(c, address, |c.plugins|, trail, version)
    ensures PureDecision(c, address) == GoOn
  {
    SkipWhatGoesOn(c, c.plugins, |c.plugins|, address);
  }

  // With backends that are fixed functions of the address and a coherent initial cache, every
  // reply, in any interleaving with any evictions and lost stores, is the reply of the plugin
  // list without its cache plugins, wherever and however often these stand in the list.
  lemma CacheTransparency(c: Config, workers: nat, store0: map<string, string>, run: seq<Action>)
    requires Fixed(c) && Coherent(c, store0)
    requires Feasible(c, Initial(workers, store0), run)
    ensures forall i :: 0 <= i < |Exec(c, Initial(workers, store0), run).answers| ==>
      var answer := Exec(c, Initial(workers, store0), run).answers[i];
      answer.reply == PureReply(c, answer.address)
  {
    var s := Exec(c, Initial(workers, store0), run);
    InvInitial(c, workers, store0);
    InvExec(c, store0, Initial(workers, store0), run);
    forall i | 0 <= i < |s.answers| ensures s.answers[i].reply == PureReply(c, s.answers[i].address) {
      var Answer(address, result, origin, _, _, _) := s.answers[i];
      match origin
      case FromBackend(at, trail) => GenuineIsPure(c, Decision(address, at, trail, result), s.version);
      case FromCache(known, _, _) =>
        if !Inherited(store0, address, result) {
          var k :| 0 <= k < known && k < |s.decisions|
                   && s.decisions[k].address == address && s.decisions[k].status == result;
          GenuineIsPure(c, s.decisions[k], s.version);
        }
      case Undecided(trail) => ExhaustedIsPure(c, address, trail, s.version);
    }
  }

  // Where the cache holds nothing for the address, the list decides as without its cache plugins.
  lemma {:induction false} MissingIsUncached(c: Config, plugins: seq<Plugin>, version: nat,
                                             store: map<string, string>, address: string)
    requires Key(address) !in store
    ensures FirstDecision(c, plugins, version, store, address)
         == FirstDecision(c, Uncached(plugins), version, map[], address)
  {
    if plugins != [] {
      MissingIsUncached(c, plugins[1..], version, store, address);
      if plugins[0].Memcached? {
        FirstGoesOn(c, plugins, version, store, address);
        assert Uncached(plugins) == Uncached(plugins[1..]);
      } else {
        assert Uncached(plugins)[0] == plugins[0] && Uncached(plugins)[1..] == Uncached(plugins[1..]);
        assert Handle(c, plugins[0], version, store, address) == Handle(c, plugins[0], version, map[], address);
        if Handle(c, plugins[0], version, store, address) == GoOn {
          FirstGoesOn(c, plugins, version, store, address);
          FirstGoesOn(c, Uncached(plugins), version, map[], address);
        }
      }
    }
  }

  // An eviction takes the entry of that address, and no other: its backends are asked anew.
  lemma EvictedIsAskedAnew(c: Config, s: State, address: string, other: string)
    requires other != address
    ensures var t := Apply(c, s, Evict(Key(address)));
      && FirstDecision(c, c.plugins, t.version, t.store, address)
         == FirstDecision(c, Uncached(c.plugins), s.version, map[], address)
      && (Key(other) in t.store <==> Key(other) in s.store)
      && (Key(other) in s.store ==> t.store[Key(other)] == s.store[Key(other)])
  {
    var t := Apply(c, s, Evict(Key(address)));
    MissingIsUncached(c, c.plugins, t.version, t.store, address);
    if Key(other) == Key(address) {
      KeysDiffer(other, address);
    }
  }

  // ---------------------------------------------------------------- one worker's loop body

  datatype Result = Unset | Set(status: Status)

  class Request {
    const address: string
    var result: Result
    var skipPost: bool

    constructor (address: string)
      ensures this.address == address && result == Unset && !skipPost
    {
      this.address := address;
      result, skipPost := Unset, false;
    }
  }

  class Cache {
    var store: map<string, string>
  }

  // webcontrol_memcached_generate_key: the prefix and the address copied side by side.
  method GenerateKey(address: string, key: array<char>) returns (len: nat)
    requires |KEY_PREFIX| + |address| <= key.Length
    modifies key
    ensures len == |Key(address)| && key[..len] == Key(address) == "webcontrol_host_" + address
    ensures key[len..] == old(key[len..])
  {
    len := |KEY_PREFIX|;
    forall i | 0 <= i < len { key[i] := KEY_PREFIX[i]; }
    forall i | len <= i < len + |address| { key[i] := address[i - len]; }
    len := len + |address|;
  }

  method HandleRequest(c: Config, p: Plugin, version: nat, req: Request, cache: Cache) returns (status: Status)
    modifies req`skipPost
    ensures status == Handle(c, p, version, cache.store, req.address)
    ensures req.skipPost == (old(req.skipPost) || (p.Memcached? && status != GoOn))
  {
    match p
    case Backend(id) => status := c.backends(version, id, req.address);
    case Memcached =>
      if Key(req.address) in cache.store {
        status := Decode(cache.store[Key(req.address)]);
        req.skipPost := true;
      } else {
        status := GoOn;
      }
    case NoHandler => status := GoOn;
  }

  // What serving one request leaves in the cache.
  function StoreAfter(c: Config, version: nat, store: map<string, string>, address: string): map<string, string> {
    var at := DecidedAt(c, c.plugins, version, store, address);
    if at < |c.plugins| && !c.plugins[at].Memcached? && Memcached in c.plugins
       && Decisive(FirstDecision(c, c.plugins, version, store, address))
    then store[Key(address) := Encode(FirstDecision(c, c.plugins, version, store, address))]
    else store
  }

  // The handler loop, the response and the post-handler loop of one request.
  method Serve(c: Config, version: nat, req: Request, cache: Cache) returns (reply: Reply)
    requires req.result == Unset && !req.skipPost
    modifies req, cache
    ensures Says(reply, FirstDecision(c, c.plugins, version, old(cache.store), req.address), c.denyByDefault)
    ensures cache.store == StoreAfter(c, version, old(cache.store), req.address)
  {
    ghost var store := cache.store;
    ghost var at := DecidedAt(c, c.plugins, version, store, req.address);
    var i := 0;
    while i < |c.plugins|
      invariant 0 <= i <= at && cache.store == store && !req.skipPost
      invariant req.result == Unset || req.result == Set(GoOn)
    {
      if !c.plugins[i].NoHandler? {
        var status := HandleRequest(c, c.plugins[i], version, req, cache);
        req.result := Set(status);
        if status != GoOn {
          break;
        }
      }
      i := i + 1;
    }
    ghost var decision := FirstDecision(c, c.plugins, version, store, req.address);
    assert i == at;
    assert at < |c.plugins| ==> req.result == Set(decision) && req.skipPost == c.plugins[at].Memcached?;
    assert at == |c.plugins| ==> decision == GoOn;
    match req.result {
      case Set(Allow) => reply := Reply(true, NoLog);
      case Set(Deny) => reply := Reply(false, Log("DENIED"));
      case _ =>
        reply := Reply(!c.denyByDefault, Log("UNKNOWN ERR"));
        return;
    }
    if !req.skipPost {
      var verdict := req.result.status;
      var j := 0;
      while j < |c.plugins|
        invariant 0 <= j <= |c.plugins| && req.result == Set(decision)
        invariant cache.store
               == if Memcached in c.plugins[..j] then store[Key(req.address) := Encode(decision)] else store
      {
        if c.plugins[j].Memcached? {
          cache.store := cache.store[Key(req.address) := Encode(verdict)];
        }
        assert c.plugins[..j + 1] == c.plugins[..j] + [c.plugins[j]];
        j := j + 1;
      }
      assert c.plugins[..j] == c.plugins;
    }
  }

  // ---------------------------------------------------------------- Serve is a run of the step system

  lemma {:induction false} ExecConcat(c: Config, s: State, a: seq<Action>, b: seq<Action>)
    requires Feasible(c, s, a) && Feasible(c, Exec(c, s, a), b)
    ensures Feasible(c, s, a + b) && Exec(c, s, a + b) == Exec(c, Exec(c, s, a), b)
    decreases |a|
  {
    if a == [] {
      assert a + b == b;
    } else {
      assert (a + b)[1..] == a[1..] + b;
      ExecConcat(c, Apply(c, s, a[0]), a[1..], b);
    }
  }

  lemma {:induction false} AskAlone(c: Config, s: State, w: nat) returns (run: seq<Action>)
    requires w < |s.workers| && s.workers[w].Asking?
    requires s.workers[w].at <= DecidedAt(c, c.plugins, s.version, s.store, s.workers[w].address)
    ensures Feasible(c, s, run)
    ensures var address := s.workers[w].address;
      var at := DecidedAt(c, c.plugins, s.version, s.store, address);
      var t := Exec(c, s, run);
      && t.store == s.store && t.version == s.version && t.answers == s.answers && w < |t.workers|
      && t.workers[w].Decided? && t.workers[w].address == address
      && t.workers[w].result == FirstDecision(c, c.plugins, s.version, s.store, address)
      && t.workers[w].skip == (at < |c.plugins| && c.plugins[at].Memcached?)
    decreases |c.plugins| - s.workers[w].at
  {
    var t := Apply(c, s, Ask(w));
    if t.workers[w].Asking? {
      var rest := AskAlone(c, t, w);
      run := [Ask(w)] + rest;
    } else {
      assert Exec(c, t, []) == t;
      run := [Ask(w)];
      assert run[1..] == [];
    }
  }

  lemma {:induction false} StoreAlone(c: Config, s: State, w: nat, stored: bool) returns (run: seq<Action>)
    requires w < |s.workers| && s.workers[w].Storing? && s.workers[w].at <= |c.plugins|
    ensures Feasible(c, s, run) && forall i :: 0 <= i < |run| ==> run[i].Store?
    ensures var Storing(address, result, at) := s.workers[w];
      var store := if stored && Memcached in c.plugins[at..] then s.store[Key(address) := Encode(result)] else s.store;
      Exec(c, s, run) == s.(workers := s.workers[w := Idle], store := store)
    decreases |c.plugins| - s.workers[w].at
  {
    var Storing(address, result, at) := s.workers[w];
    var t := Apply(c, s, Store(w, stored));
    if at < |c.plugins| {
      var rest := StoreAlone(c, t, w, stored);
      assert c.plugins[at..] == [c.plugins[at]] + c.plugins[at + 1..];
      run := [Store(w, stored)] + rest;
    } else {
      assert Exec(c, t, []) == t;
      run := [Store(w, stored)];
      assert run[1..] == [];
    }
  }

  // A worker left alone answers, and leaves in the cache, what Serve does; the cache server may
  // lose what is stored.
  lemma ServeIsARun(c: Config, s: State, w: nat, address: string, stored: bool) returns (run: seq<Action>)
    requires w < |s.workers| && s.workers[w].Idle?
    ensures Feasible(c, s, run)
    ensures var t := Exec(c, s, run);
      && |t.answers| == |s.answers| + 1 && t.answers[..|s.answers|] == s.answers
      && t.answers[|s.answers|].address == address
      && Says(t.answers[|s.answers|].reply, FirstDecision(c, c.plugins, s.version, s.store, address), c.denyByDefault)
      && t.store == (if stored then StoreAfter(c, s.version, s.store, address) else s.store)
      && w < |t.workers| && t.workers[w].Idle?
  {
    var s1 := Apply(c, s, Begin(w, address));
    var asking := AskAlone(c, s1, w);
    var s2 := Exec(c, s1, asking);
    var s3 := Apply(c, s2, Respond(w));
    var storing := [];
    if s3.workers[w].Storing? {
      storing := StoreAlone(c, s3, w, stored);
      assert c.plugins[0..] == c.plugins;
    }
    ReplySays(s2.workers[w].result, c.denyByDefault);
    var answering := [Respond(w)] + storing;
    assert answering[1..] == storing;
    ExecConcat(c, s1, asking, answering);
    run := [Begin(w, address)] + (asking + answering);
    assert run[1..] == asking + answering;
  }
}
