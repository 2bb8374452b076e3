/** When reloads and the cache change no reply at all: every reply of every run is the one the
    plugin list without its cache gave at first (src/core/main.c, src/plugins/mod_memcached). */
module Steadiness {
  import opened Handlers
  import opened Chain
  import opened Transparency

  // Reloads, even between two plugins of one request, do not change what the backends reply.
  ghost predicate Steady(c: Config) {
    forall address, trail :: Ascending(trail) && |trail| == |c.plugins| ==>
      ReplyFor(TrailDecision(c, 0, trail, address), c.denyByDefault) == PureReply(c, address)
  }

  // The entries of the initial cache that some request can reach give that reply.
  ghost predicate Agreeing(c: Config, store0: map<string, string>) {
    forall address, at: nat, trail :: Reaches(c, address, at, trail) && Key(address) in store0 ==>
      ReplyFor(Decode(store0[Key(address)]), c.denyByDefault) == PureReply(c, address)
  }

  ghost predicate Pure(c: Config, answers: seq<Answer>) {
    forall answer :: answer in answers ==> answer.reply == PureReply(c, answer.address)
  }

  // In every run every reply is that of the plugin list without its cache under the first tables.
  ghost predicate AlwaysPure(c: Config, workers: nat, store0: map<string, string>) {
    forall run :: Feasible(c, Initial(workers, store0), run) ==> Pure(c, Exec(c, Initial(workers, store0), run).answers)
  }

  // ---------------------------------------------------------------- sufficient

  lemma AccountedReply(c: Config, store0: map<string, string>, s: State, address: string, result: Status,
                       origin: Origin)
    requires Steady(c) && Agreeing(c, store0) && Accounted(c, store0, s, address, result, origin)
    requires forall d :: d in s.decisions ==> Genuine(c, d, s.version)
    ensures ReplyFor(result, c.denyByDefault) == PureReply(c, address)
  {
    match origin
    case FromBackend(at, trail) =>
      var full := GenuineTrail(c, Decision(address, at, trail, result), s.version);
    case FromCache(known, at, trail) =>
      if Inherited(store0, address, result) {
        var full := Continued(c, address, at, trail[..at], trail[at]);
        assert Reaches(c, address, at, full);
      } else {
        var k :| 0 <= k < known && k < |s.decisions|
                 && s.decisions[k].address == address && s.decisions[k].status == result;
        var full := GenuineTrail(c, s.decisions[k], s.version);
      }
    case Undecided(trail) =>
      var full := Continued(c, address, |c.plugins|, trail, s.version);
      DecisionAfter(c, 0, |c.plugins|, full, address);
  }

  lemma RepliesArePure(c: Config, workers: nat, store0: map<string, string>, run: seq<Action>)
    requires Steady(c) && Agreeing(c, store0) && Feasible(c, Initial(workers, store0), run)
    ensures Pure(c, Exec(c, Initial(workers, store0), run).answers)
  {
    var s := Exec(c, Initial(workers, store0), run);
    InvInitial(c, workers, store0);
    InvExec(c, store0, Initial(workers, store0), run);
    forall answer | answer in s.answers ensures answer.reply == PureReply(c, answer.address) {
      AccountedReply(c, store0, s, answer.address, answer.result, answer.origin);
    }
  }

  // ---------------------------------------------------------------- necessary

  // Respond with another reply than that of the first tables: the run shows it.
  lemma OtherResponse(c: Config, workers: nat, store0: map<string, string>, run: seq<Action>, w: nat)
    requires Feasible(c, Initial(workers, store0), run)
    requires var s := Exec(c, Initial(workers, store0), run);
      && w < |s.workers| && s.workers[w].Decided?
      && ReplyFor(s.workers[w].result, c.denyByDefault) != PureReply(c, s.workers[w].address)
    ensures !AlwaysPure(c, workers, store0)
  {
    var s := Exec(c, Initial(workers, store0), run);
    var longer, t := Extend(c, Initial(workers, store0), run, Respond(w));
    assert t.answers[|s.answers|] in t.answers;
    assert !Pure(c, t.answers);
  }

  // The plugin that decides under a trail, if any.
  lemma {:induction false} Decider(c: Config, from: nat, trail: seq<nat>, address: string) returns (d: nat)
    requires GoOnBefore(c, from, trail, address)
    ensures GoOnBefore(c, d, trail, address)
    ensures TrailDecision(c, from, trail, address)
         == if d < |c.plugins| && c.plugins[d].Backend? then c.backends(trail[d], c.plugins[d].id, address) else GoOn
    ensures d < |c.plugins| ==> c.plugins[d].Backend? && TrailDecision(c, from, trail, address) != GoOn
    decreases |trail| - from
  {
    if from == |c.plugins| {
      d := from;
    } else if c.plugins[from].Backend? && c.backends(trail[from], c.plugins[from].id, address) != GoOn {
      d := from;
    } else {
      d := Decider(c, from + 1, trail, address);
    }
  }

  lemma UnsteadySeen(c: Config, workers: nat, store0: map<string, string>, address: string, trail: seq<nat>)
    requires workers > 0 && Ascending(trail) && |trail| == |c.plugins|
    requires ReplyFor(TrailDecision(c, 0, trail, address), c.denyByDefault) != PureReply(c, address)
    ensures !AlwaysPure(c, workers, store0)
  {
    var s := Initial(workers, store0);
    var d := Decider(c, 0, trail, address);
    var run := StartUnder(c, s, 0, address, 0);
    var ask := AskTo(c, Exec(c, s, run), 0, trail, d, true);
    run := Then(c, s, run, ask);
    var decide;
    if d < |c.plugins| {
      decide := AskDecides(c, Exec(c, s, run), 0, trail[d]);
    } else {
      decide := One(c, Exec(c, s, run), Ask(0));
    }
    run := Then(c, s, run, decide);
    OtherResponse(c, workers, store0, run, 0);
  }

  lemma DisagreeingSeen(c: Config, workers: nat, store0: map<string, string>, address: string, at: nat, trail: seq<nat>)
    requires workers > 0 && Reaches(c, address, at, trail) && Key(address) in store0
    requires ReplyFor(Decode(store0[Key(address)]), c.denyByDefault) != PureReply(c, address)
    ensures !AlwaysPure(c, workers, store0)
  {
    var run, first := FindEntry(c, Initial(workers, store0), address, at, trail);
    OtherResponse(c, workers, store0, run, 0);
  }

  // Replies never change exactly when reloads do not change what the backends reply and the
  // reachable entries of the initial cache agree with it.
  lemma PureExactlyWhen(c: Config, workers: nat, store0: map<string, string>)
    requires workers > 0
    ensures AlwaysPure(c, workers, store0) <==> Steady(c) && Agreeing(c, store0)
  {
    if Steady(c) && Agreeing(c, store0) {
      forall run | Feasible(c, Initial(workers, store0), run)
        ensures Pure(c, Exec(c, Initial(workers, store0), run).answers)
      {
        RepliesArePure(c, workers, store0, run);
      }
    } else if !Steady(c) {
      var address, trail :| Ascending(trail) && |trail| == |c.plugins|
        && ReplyFor(TrailDecision(c, 0, trail, address), c.denyByDefault) != PureReply(c, address);
      UnsteadySeen(c, workers, store0, address, trail);
    } else {
      var address, at: nat, trail :| Reaches(c, address, at, trail) && Key(address) in store0
        && ReplyFor(Decode(store0[Key(address)]), c.denyByDefault) != PureReply(c, address);
      DisagreeingSeen(c, workers, store0, address, at, trail);
    }
  }

  // Fixed backends and a coherent initial cache are one such case.
  lemma FixedIsSteady(c: Config, store0: map<string, string>)
    requires Fixed(c) && Coherent(c, store0)
    ensures Steady(c) && Agreeing(c, store0)
  {
    forall run | Feasible(c, Initial(1, store0), run)
      ensures Pure(c, Exec(c, Initial(1, store0), run).answers)
    {
      CacheTransparency(c, 1, store0, run);
    }
    PureExactlyWhen(c, 1, store0);
  }
}
