/** What the cache in front of the plugins does to the replies while tables are reloaded
    (src/core/main.c, src/plugins/mod_memcached): a reply is current if the backends, asked one
    after another while the request was in progress, would give it. */
module Transparency {
  import opened Handlers
  import opened Chain

  // ---------------------------------------------------------------- what the backends reply

  // Table versions under which the plugins of one request may be asked, one after another.
  ghost predicate Ascending(trail: seq<nat>) {
    forall i, j :: 0 <= i <= j < |trail| ==> trail[i] <= trail[j]
  }

  // What the backends from number `at` on decide when asked under these versions.
  function TrailDecision(c: Config, at: nat, trail: seq<nat>, address: string): Status
    requires at <= |c.plugins| == |trail|
    decreases |trail| - at
  {
    if at == |c.plugins| then GoOn
    else if c.plugins[at].Backend? && c.backends(trail[at], c.plugins[at].id, address) != GoOn then
      c.backends(trail[at], c.plugins[at].id, address)
    else TrailDecision(c, at + 1, trail, address)
  }

  // All backends in front of plugin number `at` go on.
  predicate GoOnBefore(c: Config, at: nat, trail: seq<nat>, address: string) {
    && at <= |c.plugins| == |trail|
    && forall j :: 0 <= j < at && c.plugins[j].Backend? ==> c.backends(trail[j], c.plugins[j].id, address) == GoOn
  }

  predicate Between(trail: seq<nat>, since: nat, until: nat) {
    forall j :: 0 <= j < |trail| ==> since <= trail[j] <= until
  }

  // The backends, asked in order between two versions, may give this reply.
  ghost predicate MayReply(c: Config, address: string, since: nat, until: nat, reply: Reply) {
    exists trail: seq<nat> ::
      && Ascending(trail) && |trail| == |c.plugins| && Between(trail, since, until)
      && ReplyFor(TrailDecision(c, 0, trail, address), c.denyByDefault) == reply
  }

  ghost predicate Current(c: Config, answer: Answer) {
    MayReply(c, answer.address, answer.since, answer.until, answer.reply)
  }

  // In every run every reply is current.
  ghost predicate AlwaysCurrent(c: Config, workers: nat, store0: map<string, string>) {
    forall run :: Feasible(c, Initial(workers, store0), run) ==>
      forall answer :: answer in Exec(c, Initial(workers, store0), run).answers ==> Current(c, answer)
  }

  // ---------------------------------------------------------------- the condition

  // Asked under this trail, plugin number `at` decides the address.
  ghost predicate Decides(c: Config, address: string, at: nat, trail: seq<nat>) {
    && Ascending(trail) && GoOnBefore(c, at, trail, address) && at < |c.plugins| && c.plugins[at].Backend?
    && Decisive(c.backends(trail[at], c.plugins[at].id, address))
  }

  // Asked under this trail, cache plugin number `at` is reached.
  ghost predicate Reaches(c: Config, address: string, at: nat, trail: seq<nat>) {
    Ascending(trail) && GoOnBefore(c, at, trail, address) && at < |c.plugins| && c.plugins[at].Memcached?
  }

  // The verdict can be in the cache when a request that began under `since` looks it up under `at`:
  // a lone worker decided it in an earlier request, another worker may have done so meanwhile.
  predicate Earlier(workers: nat, decided: nat, since: nat, at: nat) {
    decided <= if workers == 1 then since else at
  }

  // Whatever verdict a request for the address can find in the cache, the backends may give it
  // while that request asks its plugins up to the cache.
  ghost predicate RenewedAt(c: Config, workers: nat, address: string) {
    forall d: nat, t1, at: nat, t2 ::
      Decides(c, address, d, t1) && Reaches(c, address, at, t2) && Earlier(workers, t1[d], t2[0], t2[at]) ==>
        MayReply(c, address, t2[0], t2[at],
                 ReplyFor(c.backends(t1[d], c.plugins[d].id, address), c.denyByDefault))
  }

  // The same for what the cache held at first.
  ghost predicate RenewedFromAt(c: Config, store0: map<string, string>, address: string) {
    forall at: nat, t2 :: Reaches(c, address, at, t2) && Key(address) in store0 ==>
      MayReply(c, address, t2[0], t2[at], ReplyFor(Decode(store0[Key(address)]), c.denyByDefault))
  }

  ghost predicate Renewed(c: Config, workers: nat) {
    forall address :: RenewedAt(c, workers, address)
  }

  ghost predicate RenewedFrom(c: Config, store0: map<string, string>) {
    forall address :: RenewedFromAt(c, store0, address)
  }

  // ---------------------------------------------------------------- trails and versions in a run

  lemma {:induction false} DecisionAfter(c: Config, from: nat, at: nat, trail: seq<nat>, address: string)
    requires from <= at && GoOnBefore(c, at, trail, address)
    ensures TrailDecision(c, from, trail, address) == TrailDecision(c, at, trail, address)
    decreases at - from
  {
    if from < at {
      DecisionAfter(c, from + 1, at, trail, address);
    }
  }

  // A trail up to some plugin, continued under its last version.
  lemma Continued(c: Config, address: string, at: nat, trail: seq<nat>, version: nat) returns (full: seq<nat>)
    requires WentOn(c, address, at, trail, version)
    ensures Ascending(full) && |full| == |c.plugins| && GoOnBefore(c, at, full, address)
    ensures forall j :: 0 <= j < |full| ==> full[j] == if j < at then trail[j] else version
  {
    full := trail + seq(|c.plugins| - at, _ => version);
    forall j | 0 <= j < at && c.plugins[j].Backend?
      ensures c.backends(full[j], c.plugins[j].id, address) == GoOn
    {
      assert full[j] == trail[j];
    }
  }

  // The version under which a decision was made.
  function DecidedUnder(d: Decision): nat {
    if d.trail == [] then 0 else d.trail[|d.trail| - 1]
  }

  // The plugins were asked while the request was in progress, and what the cache held then had
  // been decided before.
  predicate Timed(decisions: seq<Decision>, workers: nat, origin: Origin, since: nat, until: nat) {
    && since <= until && Between(origin.trail, since, until)
    && (origin.FromCache? ==>
          && origin.trail != [] && origin.known <= |decisions|
          && forall k :: 0 <= k < origin.known ==>
               Earlier(workers, DecidedUnder(decisions[k]), since, origin.trail[|origin.trail| - 1]))
  }

  predicate TimedWorker(s: State, w: Worker) {
    match w
    case Asking(_, _, trail, since) =>
      && since <= s.version && Between(trail, since, s.version)
      && (|s.workers| == 1 ==> forall k :: 0 <= k < |s.decisions| ==> DecidedUnder(s.decisions[k]) <= since)
    case Decided(_, _, _, origin, since) => Timed(s.decisions, |s.workers|, origin, since, s.version)
    case _ => true
  }

  predicate Timely(s: State) {
    && (forall k :: 0 <= k < |s.decisions| ==> DecidedUnder(s.decisions[k]) <= s.version)
    && (forall i :: 0 <= i < |s.workers| ==> TimedWorker(s, s.workers[i]))
    && (forall i :: 0 <= i < |s.answers| ==>
          Timed(s.decisions, |s.workers|, s.answers[i].origin, s.answers[i].since, s.answers[i].until))
  }

  lemma TimedStays(decisions: seq<Decision>, more: seq<Decision>, workers: nat, origin: Origin,
                   since: nat, until: nat, later: nat)
    requires decisions <= more && until <= later && Timed(decisions, workers, origin, since, until)
    ensures Timed(more, workers, origin, since, later)
  {
    if origin.FromCache? {
      assert forall k :: 0 <= k < origin.known ==> more[k] == decisions[k];
    }
  }

  lemma TimelyMover(c: Config, s: State, a: Action)
    requires Timely(s) && Enabled(s, a) && !a.Evict? && !a.Reload?
    ensures TimedWorker(Apply(c, s, a), Apply(c, s, a).workers[a.w])
  {
    assert TimedWorker(s, s.workers[a.w]);
  }

  lemma TimelyDecisions(c: Config, s: State, a: Action)
    requires Timely(s) && Enabled(s, a)
    ensures var t := Apply(c, s, a); forall k :: 0 <= k < |t.decisions| ==> DecidedUnder(t.decisions[k]) <= t.version
  {
    var t := Apply(c, s, a);
    forall k | 0 <= k < |t.decisions| ensures DecidedUnder(t.decisions[k]) <= t.version {
      if k < |s.decisions| {
        assert t.decisions[k] == s.decisions[k];
      }
    }
  }

  lemma TimelyOther(c: Config, s: State, a: Action, i: nat)
    requires Timely(s) && Enabled(s, a) && i < |s.workers| && (a.Evict? || a.Reload? || a.w != i)
    ensures var t := Apply(c, s, a); |t.workers| == |s.workers| && TimedWorker(t, t.workers[i])
  {
    var t := Apply(c, s, a);
    DecisionsGrow(c, s, a);
    assert t.workers[i] == s.workers[i] && TimedWorker(s, s.workers[i]);
    if s.workers[i].Decided? {
      TimedStays(s.decisions, t.decisions, |s.workers|, s.workers[i].origin, s.workers[i].since, s.version, t.version);
    }
  }

  lemma TimelyAnswers(c: Config, s: State, a: Action)
    requires Timely(s) && Enabled(s, a)
    ensures var t := Apply(c, s, a);
      forall i :: 0 <= i < |t.answers| ==>
        Timed(t.decisions, |t.workers|, t.answers[i].origin, t.answers[i].since, t.answers[i].until)
  {
    var t := Apply(c, s, a);
    DecisionsGrow(c, s, a);
    forall i | 0 <= i < |t.answers|
      ensures Timed(t.decisions, |t.workers|, t.answers[i].origin, t.answers[i].since, t.answers[i].until)
    {
      if i < |s.answers| {
        var answer := s.answers[i];
        assert t.answers[i] == answer;
        TimedStays(s.decisions, t.decisions, |s.workers|, answer.origin, answer.since, answer.until, answer.until);
      } else {
        assert TimedWorker(s, s.workers[a.w]);
      }
    }
  }

  lemma TimelyStep(c: Config, s: State, a: Action)
    requires Timely(s) && Enabled(s, a)
    ensures Timely(Apply(c, s, a))
  {
    var t := Apply(c, s, a);
    DecisionsGrow(c, s, a);
    TimelyDecisions(c, s, a);
    TimelyAnswers(c, s, a);
    forall i | 0 <= i < |t.workers| ensures TimedWorker(t, t.workers[i]) {
      if a.Evict? || a.Reload? || a.w != i {
        TimelyOther(c, s, a, i);
      } else {
        TimelyMover(c, s, a);
      }
    }
  }

  lemma {:induction false} TimelyExec(c: Config, s: State, run: seq<Action>)
    requires Timely(s) && Feasible(c, s, run)
    ensures Timely(Exec(c, s, run)) && |Exec(c, s, run).workers| == |s.workers|
    decreases |run|
  {
    if run != [] {
      TimelyStep(c, s, run[0]);
      DecisionsGrow(c, s, run[0]);
      TimelyExec(c, Apply(c, s, run[0]), run[1..]);
    }
  }

  // ---------------------------------------------------------------- sufficient

  // The trail of a genuine decision, continued.
  lemma GenuineTrail(c: Config, d: Decision, version: nat) returns (full: seq<nat>)
    requires Genuine(c, d, version)
    ensures Ascending(full) && |full| == |c.plugins| && GoOnBefore(c, d.at, full, d.address)
    ensures full[d.at] == DecidedUnder(d) && (Decisive(d.status) ==> Decides(c, d.address, d.at, full))
    ensures TrailDecision(c, 0, full, d.address) == d.status
    ensures forall since, until :: Between(d.trail, since, until) ==> Between(full, since, until)
  {
    full := Continued(c, d.address, d.at, d.trail[..d.at], d.trail[d.at]);
    DecisionAfter(c, 0, d.at, full, d.address);
  }

  // A reply decided by a backend, or by nobody, is current.
  lemma OwnReply(c: Config, store0: map<string, string>, s: State, answer: Answer)
    requires Accounted(c, store0, s, answer.address, answer.result, answer.origin) && !answer.origin.FromCache?
    requires answer.reply == ReplyFor(answer.result, c.denyByDefault)
    requires forall d :: d in s.decisions ==> Genuine(c, d, s.version)
    requires Timed(s.decisions, |s.workers|, answer.origin, answer.since, answer.until)
    ensures Current(c, answer)
  {
    var trail := answer.origin.trail;
    if answer.origin.FromBackend? {
      var d := Decision(answer.address, answer.origin.at, trail, answer.result);
      var full := GenuineTrail(c, d, s.version);
    } else {
      var full := Continued(c, answer.address, |c.plugins|, trail, s.version);
      DecisionAfter(c, 0, |c.plugins|, full, answer.address);
      assert Between(full, answer.since, answer.until);
    }
  }

  lemma Widen(c: Config, address: string, since: nat, until: nat, reply: Reply, before: nat, after: nat)
    requires MayReply(c, address, since, until, reply) && before <= since && until <= after
    ensures MayReply(c, address, before, after, reply)
  {
    var trail: seq<nat> :| Ascending(trail) && |trail| == |c.plugins| && Between(trail, since, until)
      && ReplyFor(TrailDecision(c, 0, trail, address), c.denyByDefault) == reply;
    assert Between(trail, before, after);
  }

  // A cached reply is current under the condition.
  lemma CachedReply(c: Config, store0: map<string, string>, s: State, answer: Answer)
    requires RenewedAt(c, |s.workers|, answer.address) && RenewedFromAt(c, store0, answer.address)
    requires Accounted(c, store0, s, answer.address, answer.result, answer.origin) && answer.origin.FromCache?
    requires answer.reply == ReplyFor(answer.result, c.denyByDefault)
    requires forall d :: d in s.decisions ==> Genuine(c, d, s.version)
    requires Timed(s.decisions, |s.workers|, answer.origin, answer.since, answer.until)
    ensures Current(c, answer)
  {
    var FromCache(known, at, trail) := answer.origin;
    var t2 := Continued(c, answer.address, at, trail[..at], trail[at]);
    assert t2[0] == trail[0] && t2[at] == trail[at];
    assert Reaches(c, answer.address, at, t2);
    if !Inherited(store0, answer.address, answer.result) {
      var k :| 0 <= k < known && k < |s.decisions|
               && s.decisions[k].address == answer.address && s.decisions[k].status == answer.result;
      var d := s.decisions[k];
      var t1 := GenuineTrail(c, d, s.version);
      assert Earlier(|s.workers|, t1[d.at], t2[0], t2[at]);
    }
    Widen(c, answer.address, t2[0], t2[at], answer.reply, answer.since, answer.until);
  }

  // Whatever is reloaded, cached and interleaved, only replies from the cache can be stale.
  lemma OnlyCachedRepliesAreStale(c: Config, workers: nat, store0: map<string, string>, run: seq<Action>)
    requires Feasible(c, Initial(workers, store0), run)
    ensures forall answer :: answer in Exec(c, Initial(workers, store0), run).answers && !answer.origin.FromCache? ==>
      Current(c, answer)
  {
    var s := Exec(c, Initial(workers, store0), run);
    InvInitial(c, workers, store0);
    InvExec(c, store0, Initial(workers, store0), run);
    TimelyExec(c, Initial(workers, store0), run);
    forall answer | answer in s.answers && !answer.origin.FromCache? ensures Current(c, answer) {
      OwnReply(c, store0, s, answer);
    }
  }

  // Replies to an address that meets the condition are current.
  lemma RepliesAreCurrent(c: Config, workers: nat, store0: map<string, string>, run: seq<Action>)
    requires Feasible(c, Initial(workers, store0), run)
    ensures forall answer :: answer in Exec(c, Initial(workers, store0), run).answers ==>
      RenewedAt(c, workers, answer.address) && RenewedFromAt(c, store0, answer.address) ==> Current(c, answer)
  {
    var s := Exec(c, Initial(workers, store0), run);
    OnlyCachedRepliesAreStale(c, workers, store0, run);
    InvInitial(c, workers, store0);
    InvExec(c, store0, Initial(workers, store0), run);
    TimelyExec(c, Initial(workers, store0), run);
    forall answer | answer in s.answers
      && RenewedAt(c, workers, answer.address) && RenewedFromAt(c, store0, answer.address)
      ensures Current(c, answer)
    {
      if answer.origin.FromCache? {
        CachedReply(c, store0, s, answer);
      }
    }
  }

  // ---------------------------------------------------------------- pieces of runs

  // No request is begun for another address.
  predicate Only(run: seq<Action>, address: string) {
    forall i :: 0 <= i < |run| && run[i].Begin? ==> run[i].address == address
  }

  lemma One(c: Config, s: State, a: Action) returns (run: seq<Action>)
    requires Enabled(s, a)
    ensures run == [a]
    ensures Feasible(c, s, run) && Exec(c, s, run) == Apply(c, s, a)
  {
    run := [a];
    assert run[1..] == [] && Exec(c, Apply(c, s, a), []) == Apply(c, s, a);
  }

  lemma Then(c: Config, s: State, a: seq<Action>, b: seq<Action>) returns (run: seq<Action>)
    requires Feasible(c, s, a) && Feasible(c, Exec(c, s, a), b)
    ensures Feasible(c, s, run) && Exec(c, s, run) == Exec(c, Exec(c, s, a), b)
    ensures forall address :: Only(a, address) && Only(b, address) ==> Only(run, address)
  {
    ExecConcat(c, s, a, b);
    run := a + b;
  }

  lemma {:induction false} ReloadTo(c: Config, s: State, version: nat) returns (run: seq<Action>)
    requires s.version <= version
    ensures Feasible(c, s, run) && Exec(c, s, run) == s.(version := version)
    ensures forall i :: 0 <= i < |run| ==> run[i].Reload?
    decreases version - s.version
  {
    if s.version == version {
      run := [];
    } else {
      var rest := ReloadTo(c, Apply(c, s, Reload), version);
      run := [Reload] + rest;
      assert run[1..] == rest;
    }
  }

  // Worker w asks its next plugin under the given version, with its entry evicted or not.
  lemma AskUnder(c: Config, s: State, w: nat, version: nat, evict: bool) returns (run: seq<Action>)
    requires w < |s.workers| && s.workers[w].Asking? && s.version <= version
    ensures Feasible(c, s, run) && forall address :: Only(run, address)
    ensures var store := if evict then s.store - {Key(s.workers[w].address)} else s.store;
      Exec(c, s, run) == AskApply(c, s.(version := version, store := store), w)
  {
    var key := Key(s.workers[w].address);
    run := ReloadTo(c, s, version);
    var t := s.(version := version);
    if evict {
      var out := One(c, t, Evict(key));
      run := Then(c, s, run, out);
      t := t.(store := t.store - {key});
    }
    var ask := One(c, t, Ask(w));
    run := Then(c, s, run, ask);
  }

  // Only worker w moved, and it did not answer.
  predicate Moved(s: State, t: State, w: nat) {
    && |t.workers| == |s.workers| && t.answers == s.answers
    && forall v :: 0 <= v < |s.workers| && v != w ==> t.workers[v] == s.workers[v]
  }

  predicate AsksFor(s: State, w: nat, address: string, at: nat, since: nat) {
    w < |s.workers| && s.workers[w].Asking?
    && s.workers[w].address == address && s.workers[w].at == at && s.workers[w].since == since
  }

  predicate HasDecided(s: State, w: nat, address: string, result: Status, skip: bool, since: nat) {
    w < |s.workers| && s.workers[w].Decided?
    && s.workers[w].address == address && s.workers[w].result == result
    && s.workers[w].skip == skip && s.workers[w].since == since
  }

  lemma StartUnder(c: Config, s: State, w: nat, address: string, version: nat) returns (run: seq<Action>)
    requires w < |s.workers| && s.workers[w].Idle? && s.version <= version
    ensures Feasible(c, s, run) && Only(run, address)
    ensures var t := Exec(c, s, run);
      Moved(s, t, w) && AsksFor(t, w, address, 0, version) && t.version == version && t.store == s.store
  {
    run := ReloadTo(c, s, version);
    var begin := One(c, s.(version := version), Begin(w, address));
    run := Then(c, s, run, begin);
  }

  // One plugin that goes on.
  lemma AskOn(c: Config, s: State, w: nat, trail: seq<nat>, evict: bool) returns (run: seq<Action>)
    requires w < |s.workers| && s.workers[w].Asking? && s.workers[w].at < |c.plugins|
    requires GoOnBefore(c, s.workers[w].at + 1, trail, s.workers[w].address) && s.version <= trail[s.workers[w].at]
    requires evict || !c.plugins[s.workers[w].at].Memcached?
    ensures Feasible(c, s, run) && forall any :: Only(run, any)
    ensures var Asking(address, at, _, since) := s.workers[w]; var t := Exec(c, s, run);
      && Moved(s, t, w) && AsksFor(t, w, address, at + 1, since)
      && t.version == trail[at] && (evict || t.store == s.store)
  {
    run := AskUnder(c, s, w, trail[s.workers[w].at], evict);
  }

  // All plugins up to number `goal`.
  lemma {:induction false} AskTo(c: Config, s: State, w: nat, trail: seq<nat>, goal: nat, evict: bool)
      returns (run: seq<Action>)
    requires w < |s.workers| && s.workers[w].Asking? && s.workers[w].at <= goal
    requires Ascending(trail) && GoOnBefore(c, goal, trail, s.workers[w].address)
    requires s.workers[w].at < |trail| ==> s.version <= trail[s.workers[w].at]
    requires evict || forall j :: 0 <= j < goal ==> !c.plugins[j].Memcached?
    ensures Feasible(c, s, run) && forall any :: Only(run, any)
    ensures var Asking(address, at, _, since) := s.workers[w]; var t := Exec(c, s, run);
      && Moved(s, t, w) && AsksFor(t, w, address, goal, since)
      && (goal < |trail| ==> t.version <= trail[goal]) && (evict || t.store == s.store)
    decreases goal - s.workers[w].at
  {
    if s.workers[w].at == goal {
      run := [];
    } else {
      run := AskOn(c, s, w, trail, evict);
      var rest := AskTo(c, Exec(c, s, run), w, trail, goal, evict);
      run := Then(c, s, run, rest);
    }
  }

  lemma AskDecides(c: Config, s: State, w: nat, version: nat) returns (run: seq<Action>)
    requires w < |s.workers| && s.workers[w].Asking? && s.workers[w].at < |c.plugins| && s.version <= version
    requires c.plugins[s.workers[w].at].Backend?
    requires c.backends(version, c.plugins[s.workers[w].at].id, s.workers[w].address) != GoOn
    ensures Feasible(c, s, run) && forall any :: Only(run, any)
    ensures var Asking(address, at, _, since) := s.workers[w]; var t := Exec(c, s, run);
      && Moved(s, t, w) && t.version == version && t.store == s.store
      && HasDecided(t, w, address, c.backends(version, c.plugins[at].id, address), false, since)
  {
    run := AskUnder(c, s, w, version, false);
  }

  lemma AskHits(c: Config, s: State, w: nat, version: nat) returns (run: seq<Action>)
    requires w < |s.workers| && s.workers[w].Asking? && s.workers[w].at < |c.plugins| && s.version <= version
    requires c.plugins[s.workers[w].at].Memcached? && Key(s.workers[w].address) in s.store
    ensures Feasible(c, s, run) && forall any :: Only(run, any)
    ensures var Asking(address, at, _, since) := s.workers[w]; var t := Exec(c, s, run);
      && Moved(s, t, w) && t.version == version
      && HasDecided(t, w, address, Decode(s.store[Key(address)]), true, since)
  {
    run := AskUnder(c, s, w, version, false);
  }

  // Respond to a verdict of a backend, and store it.
  lemma RespondAndStore(c: Config, s: State, w: nat) returns (run: seq<Action>)
    requires w < |s.workers| && s.workers[w].Decided? && Decisive(s.workers[w].result) && !s.workers[w].skip
    requires Memcached in c.plugins
    ensures Feasible(c, s, run) && forall any :: Only(run, any)
    ensures var t := Exec(c, s, run);
      && |t.workers| == |s.workers| && (forall v :: 0 <= v < |s.workers| && v != w ==> t.workers[v] == s.workers[v])
      && t.workers[w].Idle? && t.version == s.version
      && t.store == s.store[Key(s.workers[w].address) := Encode(s.workers[w].result)]
  {
    run := One(c, s, Respond(w));
    assert c.plugins[0..] == c.plugins;
    var storing := StoreAlone(c, Apply(c, s, Respond(w)), w, true);
    run := Then(c, s, run, storing);
  }

  // The run begins requests for the address only, and one of them is given a stale reply.
  ghost predicate Stale(c: Config, workers: nat, store0: map<string, string>, run: seq<Action>, address: string) {
    && Feasible(c, Initial(workers, store0), run) && Only(run, address)
    && exists answer :: answer in Exec(c, Initial(workers, store0), run).answers
                        && answer.address == address && !Current(c, answer)
  }

  // Respond when no such reply may be given.
  lemma StaleResponse(c: Config, workers: nat, store0: map<string, string>, run: seq<Action>, w: nat, address: string)
      returns (longer: seq<Action>)
    requires Feasible(c, Initial(workers, store0), run) && Only(run, address)
    requires var s := Exec(c, Initial(workers, store0), run);
      && w < |s.workers| && s.workers[w].Decided? && s.workers[w].address == address
      && !MayReply(c, address, s.workers[w].since, s.version, ReplyFor(s.workers[w].result, c.denyByDefault))
    ensures Stale(c, workers, store0, longer, address)
  {
    var s := Exec(c, Initial(workers, store0), run);
    var t := Apply(c, s, Respond(w));
    var respond := One(c, s, Respond(w));
    longer := Then(c, Initial(workers, store0), run, respond);
    assert t.answers[|s.answers|] in t.answers && !Current(c, t.answers[|s.answers|]);
  }

  // ---------------------------------------------------------------- necessary

  // The first cache plugin is reached whenever a later one is.
  lemma FirstCache(c: Config, at: nat) returns (first: nat)
    requires at < |c.plugins| && c.plugins[at].Memcached?
    ensures first <= at && c.plugins[first].Memcached? && forall j :: 0 <= j < first ==> !c.plugins[j].Memcached?
  {
    first := 0;
    while !c.plugins[first].Memcached?
      invariant first <= at && forall j :: 0 <= j < first ==> !c.plugins[j].Memcached?
      decreases at - first
    {
      first := first + 1;
    }
  }

  // A worker finds an entry that was there when its request began.
  lemma FindEntry(c: Config, s: State, address: string, at: nat, t2: seq<nat>) returns (run: seq<Action>, first: nat)
    requires |s.workers| > 0 && s.workers[0].Idle? && Key(address) in s.store
    requires Reaches(c, address, at, t2) && s.version <= t2[0]
    ensures first <= at && Feasible(c, s, run) && Only(run, address)
    ensures var t := Exec(c, s, run);
      HasDecided(t, 0, address, Decode(s.store[Key(address)]), true, t2[0]) && t.version == t2[first]
  {
    first := FirstCache(c, at);
    run := StartUnder(c, s, 0, address, t2[0]);
    var ask := AskTo(c, Exec(c, s, run), 0, t2, first, false);
    run := Then(c, s, run, ask);
    var hit := AskHits(c, Exec(c, s, run), 0, t2[first]);
    run := Then(c, s, run, hit);
  }

  lemma FindEntryStale(c: Config, workers: nat, store0: map<string, string>, before: seq<Action>,
                       address: string, at: nat, t2: seq<nat>) returns (run: seq<Action>)
    requires Feasible(c, Initial(workers, store0), before) && Only(before, address)
    requires var s := Exec(c, Initial(workers, store0), before);
      && |s.workers| > 0 && s.workers[0].Idle? && Key(address) in s.store
      && Reaches(c, address, at, t2) && s.version <= t2[0]
      && !MayReply(c, address, t2[0], t2[at], ReplyFor(Decode(s.store[Key(address)]), c.denyByDefault))
    ensures Stale(c, workers, store0, run, address)
  {
    var s := Exec(c, Initial(workers, store0), before);
    var find, first := FindEntry(c, s, address, at, t2);
    run := Then(c, Initial(workers, store0), before, find);
    var reply := ReplyFor(Decode(s.store[Key(address)]), c.denyByDefault);
    if MayReply(c, address, t2[0], t2[first], reply) {
      Widen(c, address, t2[0], t2[first], reply, t2[0], t2[at]);
    }
    run := StaleResponse(c, workers, store0, run, 0, address);
  }

  // An entry of the initial cache.
  lemma InheritedStale(c: Config, workers: nat, store0: map<string, string>, address: string, at: nat, t2: seq<nat>)
      returns (run: seq<Action>)
    requires workers > 0 && Reaches(c, address, at, t2) && Key(address) in store0
    requires !MayReply(c, address, t2[0], t2[at], ReplyFor(Decode(store0[Key(address)]), c.denyByDefault))
    ensures Stale(c, workers, store0, run, address)
  {
    run := FindEntryStale(c, workers, store0, [], address, at, t2);
  }

  // A verdict decided before the request began: one worker does both.
  lemma EarlierStale(c: Config, workers: nat, store0: map<string, string>, address: string,
                     d: nat, t1: seq<nat>, at: nat, t2: seq<nat>) returns (run: seq<Action>)
    requires workers > 0 && Decides(c, address, d, t1) && Reaches(c, address, at, t2) && t1[d] <= t2[0]
    requires var verdict := c.backends(t1[d], c.plugins[d].id, address);
      !MayReply(c, address, t2[0], t2[at], ReplyFor(verdict, c.denyByDefault))
    ensures Stale(c, workers, store0, run, address)
  {
    var s := Initial(workers, store0);
    var verdict := c.backends(t1[d], c.plugins[d].id, address);
    run := StartUnder(c, s, 0, address, 0);
    var ask := AskTo(c, Exec(c, s, run), 0, t1, d, true);
    run := Then(c, s, run, ask);
    var decide := AskDecides(c, Exec(c, s, run), 0, t1[d]);
    run := Then(c, s, run, decide);
    var store := RespondAndStore(c, Exec(c, s, run), 0);
    run := Then(c, s, run, store);
    CodecRoundTrip(verdict);
    run := FindEntryStale(c, workers, store0, run, address, at, t2);
  }

  // Two workers ask for the same address under their trails, each version in its turn, until
  // worker 0 has decided and worker 1 is about to ask its cache.
  lemma {:induction false} Meet(c: Config, s: State, address: string, i: nat, since: nat, d: nat, t1: seq<nat>,
                                j: nat, at: nat, t2: seq<nat>) returns (run: seq<Action>)
    requires |s.workers| >= 2 && Decides(c, address, d, t1) && Reaches(c, address, at, t2) && t1[d] <= t2[at]
    requires AsksFor(s, 0, address, i, since) && i <= d && s.version <= t1[i]
    requires AsksFor(s, 1, address, j, t2[0]) && j <= at && s.version <= t2[j]
    ensures Feasible(c, s, run) && forall any :: Only(run, any)
    ensures var t := Exec(c, s, run);
      && |t.workers| == |s.workers| && t.version <= t2[at]
      && HasDecided(t, 0, address, c.backends(t1[d], c.plugins[d].id, address), false, since)
      && AsksFor(t, 1, address, at, t2[0])
    decreases d - i + at - j
  {
    if t1[i] <= t2[j] && i == d {
      run := AskDecides(c, s, 0, t1[d]);
      var rest := AskTo(c, Exec(c, s, run), 1, t2, at, true);
      run := Then(c, s, run, rest);
    } else {
      var next, other := i, j;
      if t1[i] <= t2[j] {
        run := AskOn(c, s, 0, t1, true);
        next := i + 1;
      } else {
        run := AskOn(c, s, 1, t2, true);
        other := j + 1;
      }
      var rest := Meet(c, Exec(c, s, run), address, next, since, d, t1, other, at, t2);
      run := Then(c, s, run, rest);
    }
  }

  // How far worker 0 gets before the other request begins.
  lemma Ahead(t1: seq<nat>, d: nat, version: nat) returns (i: nat)
    requires d < |t1| && version < t1[d]
    ensures i <= d && version <= t1[i] && (i > 0 ==> t1[i - 1] <= version)
  {
    i := 0;
    while t1[i] < version
      invariant i <= d && (i > 0 ==> t1[i - 1] <= version)
      decreases d - i
    {
      i := i + 1;
    }
  }

  // Worker 0 asks its plugins as long as their versions are before the given one.
  lemma {:induction false} AskAhead(c: Config, s: State, trail: seq<nat>, goal: nat, version: nat)
      returns (run: seq<Action>)
    requires |s.workers| > 0 && s.workers[0].Asking? && s.workers[0].at <= goal < |c.plugins|
    requires Ascending(trail) && GoOnBefore(c, goal, trail, s.workers[0].address)
    requires s.version <= trail[s.workers[0].at] && s.version <= version && (goal > 0 ==> trail[goal - 1] <= version)
    ensures Feasible(c, s, run) && forall any :: Only(run, any)
    ensures var Asking(address, _, _, since) := s.workers[0]; var t := Exec(c, s, run);
      Moved(s, t, 0) && AsksFor(t, 0, address, goal, since) && t.version <= version
    decreases goal - s.workers[0].at
  {
    if s.workers[0].at == goal {
      run := [];
    } else {
      run := AskOn(c, s, 0, trail, true);
      var rest := AskAhead(c, Exec(c, s, run), trail, goal, version);
      run := Then(c, s, run, rest);
    }
  }

  // Both requests begun, the second under the first version of its trail.
  lemma BothBegin(c: Config, s: State, address: string, d: nat, t1: seq<nat>, at: nat, t2: seq<nat>)
      returns (run: seq<Action>, i: nat)
    requires |s.workers| >= 2 && s.workers[0].Idle? && s.workers[1].Idle? && s.version == 0
    requires Decides(c, address, d, t1) && Reaches(c, address, at, t2) && t2[0] < t1[d]
    ensures Feasible(c, s, run) && Only(run, address)
    ensures var t := Exec(c, s, run);
      && |t.workers| == |s.workers| && t.version == t2[0]
      && AsksFor(t, 0, address, i, 0) && i <= d && t2[0] <= t1[i]
      && AsksFor(t, 1, address, 0, t2[0])
  {
    i := Ahead(t1, d, t2[0]);
    run := StartUnder(c, s, 0, address, 0);
    var ahead := AskAhead(c, Exec(c, s, run), t1, i, t2[0]);
    run := Then(c, s, run, ahead);
    var start := StartUnder(c, Exec(c, s, run), 1, address, t2[0]);
    run := Then(c, s, run, start);
  }

  // A verdict another worker decides while the request is in progress.
  lemma MeanwhileStale(c: Config, workers: nat, store0: map<string, string>, address: string,
                       d: nat, t1: seq<nat>, at: nat, t2: seq<nat>) returns (run: seq<Action>)
    requires workers >= 2 && Decides(c, address, d, t1) && Reaches(c, address, at, t2) && t2[0] < t1[d] <= t2[at]
    requires var verdict := c.backends(t1[d], c.plugins[d].id, address);
      !MayReply(c, address, t2[0], t2[at], ReplyFor(verdict, c.denyByDefault))
    ensures Stale(c, workers, store0, run, address)
  {
    var s := Initial(workers, store0);
    var verdict := c.backends(t1[d], c.plugins[d].id, address);
    var i;
    run, i := BothBegin(c, s, address, d, t1, at, t2);
    var meet := Meet(c, Exec(c, s, run), address, i, 0, d, t1, 0, at, t2);
    run := Then(c, s, run, meet);
    assert c.plugins[at] in c.plugins;
    var store := RespondAndStore(c, Exec(c, s, run), 0);
    run := Then(c, s, run, store);
    CodecRoundTrip(verdict);
    var hit := AskHits(c, Exec(c, s, run), 1, t2[at]);
    run := Then(c, s, run, hit);
    run := StaleResponse(c, workers, store0, run, 1, address);
  }

  // An address that does not meet the condition has a run with a stale reply to it.
  lemma StaleAt(c: Config, workers: nat, store0: map<string, string>, address: string) returns (run: seq<Action>)
    requires workers > 0 && !(RenewedAt(c, workers, address) && RenewedFromAt(c, store0, address))
    ensures Stale(c, workers, store0, run, address)
  {
    if !RenewedFromAt(c, store0, address) {
      var at: nat, t2 :| Reaches(c, address, at, t2) && Key(address) in store0
        && !MayReply(c, address, t2[0], t2[at], ReplyFor(Decode(store0[Key(address)]), c.denyByDefault));
      run := InheritedStale(c, workers, store0, address, at, t2);
    } else {
      var d: nat, t1, at: nat, t2 :|
        Decides(c, address, d, t1) && Reaches(c, address, at, t2) && Earlier(workers, t1[d], t2[0], t2[at])
        && !MayReply(c, address, t2[0], t2[at],
                     ReplyFor(c.backends(t1[d], c.plugins[d].id, address), c.denyByDefault));
      if t1[d] <= t2[0] {
        run := EarlierStale(c, workers, store0, address, d, t1, at, t2);
      } else {
        run := MeanwhileStale(c, workers, store0, address, d, t1, at, t2);
      }
    }
  }

  // Every reply of every run is current exactly when whatever verdict a request can find in the
  // cache is one the backends may give while that request is in progress.
  lemma CurrentExactlyWhen(c: Config, workers: nat, store0: map<string, string>)
    requires workers > 0
    ensures AlwaysCurrent(c, workers, store0) <==> Renewed(c, workers) && RenewedFrom(c, store0)
  {
    if Renewed(c, workers) && RenewedFrom(c, store0) {
      forall run | Feasible(c, Initial(workers, store0), run)
        ensures forall answer :: answer in Exec(c, Initial(workers, store0), run).answers ==> Current(c, answer)
      {
        RepliesAreCurrent(c, workers, store0, run);
      }
    } else {
      var address :| !(RenewedAt(c, workers, address) && RenewedFromAt(c, store0, address));
      var run := StaleAt(c, workers, store0, address);
    }
  }

  // ---------------------------------------------------------------- special cases

  // Without cache plugins every reply is current, whatever is reloaded.
  lemma WithoutCacheCurrent(c: Config, workers: nat, store0: map<string, string>)
    requires workers > 0 && Memcached !in c.plugins
    ensures AlwaysCurrent(c, workers, store0)
  {
    forall address, at: nat, t2 ensures !Reaches(c, address, at, t2) {
      if at < |c.plugins| {
        assert c.plugins[at] in c.plugins;
      }
    }
    CurrentExactlyWhen(c, workers, store0);
  }

  // A cache in front of a table that denies at first and allows after a reload.
  function DenyThenAllow(): Config {
    Config([Memcached, Backend(0)],
           (version: nat, id: nat, address: string) => if version == 0 then Deny else Allow, true)
  }

  lemma Extend(c: Config, s: State, run: seq<Action>, a: Action) returns (longer: seq<Action>, t: State)
    requires Feasible(c, s, run) && Enabled(Exec(c, s, run), a)
    ensures Feasible(c, s, longer) && Exec(c, s, longer) == t == Apply(c, Exec(c, s, run), a)
  {
    t := Apply(c, Exec(c, s, run), a);
    var step := One(c, Exec(c, s, run), a);
    longer := Then(c, s, run, step);
  }

  // A worker asks for the address, is denied and stores the denial.
  lemma DeniedAndStored(address: string) returns (run: seq<Action>)
    ensures var c := DenyThenAllow();
      && Feasible(c, Initial(1, map[]), run)
      && Exec(c, Initial(1, map[]), run).workers == [Idle] && Exec(c, Initial(1, map[]), run).version == 0
      && Exec(c, Initial(1, map[]), run).store == map[Key(address) := Encode(Deny)]
      && |Exec(c, Initial(1, map[]), run).answers| == 1
  {
    var c := DenyThenAllow();
    var s, t := Initial(1, map[]), Initial(1, map[]);
    run := [];
    run, t := Extend(c, s, run, Begin(0, address));
    run, t := Extend(c, s, run, Ask(0));
    run, t := Extend(c, s, run, Ask(0));
    run, t := Extend(c, s, run, Respond(0));
    run, t := Extend(c, s, run, Store(0, true));
    run, t := Extend(c, s, run, Store(0, true));
    run, t := Extend(c, s, run, Store(0, true));
  }

  lemma AllowedAfterReload(address: string)
    ensures !MayReply(DenyThenAllow(), address, 1, 1, ReplyFor(Deny, true))
  {
    var c := DenyThenAllow();
    forall trail: seq<nat> | |trail| == 2 && Between(trail, 1, 1)
      ensures TrailDecision(c, 0, trail, address) == Allow
    {
      assert trail[1] == 1 && TrailDecision(c, 1, trail, address) == Allow;
    }
  }

  // After a reload the next request begins, is denied out of the cache and ends under the new
  // table, which allows the address: the reply is stale.
  lemma StaleHit(address: string) returns (run: seq<Action>)
    ensures Feasible(DenyThenAllow(), Initial(1, map[]), run)
    ensures var answers := Exec(DenyThenAllow(), Initial(1, map[]), run).answers;
      && |answers| == 2 && answers[1].address == address && answers[1].origin.FromCache?
      && !answers[1].reply.ok && answers[1].reply.log == Log("DENIED")
      && answers[1].since == answers[1].until == 1 && DenyThenAllow().backends(1, 0, address) == Allow
      && !Current(DenyThenAllow(), answers[1])
  {
    var c := DenyThenAllow();
    var s := Initial(1, map[]);
    run := DeniedAndStored(address);
    CodecRoundTrip(Deny);
    var t := Exec(c, s, run);
    run, t := Extend(c, s, run, Reload);
    run, t := Extend(c, s, run, Begin(0, address));
    assert AsksFor(t, 0, address, 0, 1) && t.version == 1 && Key(address) in t.store;
    run, t := Extend(c, s, run, Ask(0));
    assert HasDecided(t, 0, address, Deny, true, 1) && t.version == 1;
    run, t := Extend(c, s, run, Respond(0));
    AllowedAfterReload(address);
  }
}
