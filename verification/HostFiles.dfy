/** The txtfile plugin as a backend of the plugin chain: what the host files loaded one after
    another mean for the verdicts kept in the cache (src/plugins/mod_txtfile, mod_memcached). */
module HostFiles {
  import opened Handlers
  import opened TxtFile
  import C = Chain
  import Reload

  // The plugin's answer for an address with one file loaded.
  function HostStatus(r: Resolver, lines: seq<string>, address: string): Status {
    var ip := Resolve(r, address);
    if ip.None? then GoOn else Lookup(Build(r, lines), ip.value)
  }

  // Backend number `txt` is the txtfile plugin; files[v] is the file loaded last in version v.
  function Tables(r: Resolver, files: seq<seq<string>>, txt: nat, others: C.Backends): C.Backends {
    (version: nat, id: nat, address: string) =>
      if id == txt && version < |files| then HostStatus(r, files[version], address) else others(version, id, address)
  }

  // The last line of the file that names the address carries the verdict.
  ghost predicate LastLineSays(r: Resolver, lines: seq<string>, address: string, verdict: Status) {
    && Resolve(r, address).Some?
    && exists k: nat ::
         LastNaming(r, lines, k, Resolve(r, address).value) && ParseLine(r, lines[k]).entry.flag == verdict
  }

  // Among the lines some of which names the address there is a last one.
  lemma {:induction false} FindLast(r: Resolver, lines: seq<string>, j: nat, address: Ip) returns (k: nat)
    requires NamesAt(r, lines, j, address)
    ensures LastNaming(r, lines, k, address)
    decreases |lines| - j
  {
    if i: nat :| j < i < |lines| && NamesAt(r, lines, i, address) {
      k := FindLast(r, lines, i, address);
    } else {
      k := j;
    }
  }

  lemma FindLastIfNamed(r: Resolver, lines: seq<string>, address: Ip) returns (k: nat)
    requires Lookup(Build(r, lines), address) != GoOn
    ensures LastNaming(r, lines, k, address)
  {
    if j: nat :| NamesAt(r, lines, j, address) {
      k := FindLast(r, lines, j, address);
    } else {
      UnnamedGoesOn(r, lines, address);
    }
  }

  // The plugin gives a verdict exactly when the last line naming the address does.
  lemma HostVerdict(r: Resolver, lines: seq<string>, address: string, verdict: Status)
    requires verdict != GoOn
    ensures HostStatus(r, lines, address) == verdict <==> LastLineSays(r, lines, address, verdict)
  {
    if HostStatus(r, lines, address) == verdict {
      var ip := Resolve(r, address).value;
      var k := FindLastIfNamed(r, lines, ip);
      LastLineWins(r, lines, k, ip);
    } else if LastLineSays(r, lines, address, verdict) {
      var ip := Resolve(r, address).value;
      var k: nat :| LastNaming(r, lines, k, ip) && ParseLine(r, lines[k]).entry.flag == verdict;
      LastLineWins(r, lines, k, ip);
    }
  }

  // The same address: with IPv6 compiled in, a text the IPv6 parser takes is that address, else the
  // IPv4 parser decides.
  predicate SameHost(r: Resolver, a: string, b: string) {
    if r.haveIpv6 && (r.v6(a).Some? || r.v6(b).Some?) then r.v6(a) == r.v6(b)
    else r.v4(a).Some? && r.v4(a) == r.v4(b)
  }

  // A file of one line decides about exactly the texts of the same address.
  lemma OneLineDecides(r: Resolver, named: string, flag: string, end: string, address: string)
    requires named != "" && forall i :: 0 <= i < |named| ==> named[i] != ' '
    requires flag != "" && forall i :: 0 <= i < |flag| ==> flag[i] != '\r' && flag[i] != '\n'
    requires end == "" || end[0] == '\r' || end[0] == '\n'
    ensures HostStatus(r, [named + (" " + (flag + end))], address)
         == if !SameHost(r, named, address) then GoOn else if ReadsAllow(flag) then Allow else Deny
  {
    var line := named + (" " + (flag + end));
    HostLine(r, "", named, "", flag, end);
    NothingAround(named, flag + end);
    if Resolve(r, address).Some? {
      var ip := Resolve(r, address).value;
      LookupLast(r, [line], ip);
      assert [line][..0] == [] && Lookup(Build(r, []), ip) == GoOn;
    }
  }

  // Lookups of any interleaving with reloads are such answers: for the address their reader asked
  // about, in the file whose load was the last completed before.
  lemma LookupsAreBackendAnswers(r: Resolver, readers: nat, run: seq<Reload.Action>, k: nat, address: string)
    requires Reload.Feasible(r, Reload.Initial(readers), run)
    requires k < |Reload.Lookups(run)| && Resolve(r, address) == Reload.Lookups(run)[k].address
    ensures var s, version := Reload.Exec(r, Reload.Initial(readers), run), Reload.Lookups(run)[k].version;
      && |s.outcomes| == |Reload.Lookups(run)| && s.outcomes[k].reader == Reload.Lookups(run)[k].reader
      && version < |Reload.Versions(run)|
      && s.outcomes[k].status == HostStatus(r, Reload.Versions(run)[version], address)
  {
    Reload.ReloadIsAtomic(r, readers, run);
    var s := Reload.Exec(r, Reload.Initial(readers), run);
    assert Reload.Answers(r, run, Reload.Lookups(run)[k], s.outcomes[k]);
  }

  // The verdict was decided for the address, among the first `known` decisions; if the txtfile
  // plugin decided it, it is what the last line naming the address says in a file loaded by then.
  ghost predicate DecidedByFile(r: Resolver, files: seq<seq<string>>, txt: nat, c: C.Config, s: C.State,
                                known: nat, address: string, verdict: Status) {
    exists k :: 0 <= k < known && k < |s.decisions|
             && SaidByFile(r, files, txt, c, s.version, s.decisions[k], address, verdict)
  }

  ghost predicate SaidByFile(r: Resolver, files: seq<seq<string>>, txt: nat, c: C.Config, latest: nat,
                             d: C.Decision, address: string, verdict: Status) {
    && d.address == address && d.status == verdict
    && d.at < |c.plugins| && d.at < |d.trail| && d.trail[d.at] <= latest < |files|
    && (c.plugins[d.at] == C.Backend(txt) ==> LastLineSays(r, files[d.trail[d.at]], address, verdict))
  }

  lemma DecisionSaidByFile(r: Resolver, files: seq<seq<string>>, txt: nat, others: C.Backends, c: C.Config,
                           latest: nat, d: C.Decision)
    requires c.backends == Tables(r, files, txt, others) && C.Genuine(c, d, latest) && latest < |files|
    ensures SaidByFile(r, files, txt, c, latest, d, d.address, d.status)
  {
    var version := d.trail[d.at];
    if c.plugins[d.at] == C.Backend(txt) {
      assert c.backends(version, txt, d.address) == HostStatus(r, files[version], d.address);
      HostVerdict(r, files[version], d.address, d.status);
    }
  }

  // The answer stood in the initial cache, or was decided before it was looked up.
  ghost predicate KnownFromFiles(r: Resolver, files: seq<seq<string>>, txt: nat, c: C.Config,
                                 store0: map<string, string>, s: C.State, answer: C.Answer)
    requires answer.origin.FromCache?
  {
    || C.Inherited(store0, answer.address, answer.result)
    || DecidedByFile(r, files, txt, c, s, answer.origin.known, answer.address, answer.result)
  }

  // Whatever is reloaded, evicted or interleaved: a verdict answered from the cache stood in the
  // initial cache or was decided earlier for that address, and a verdict of the txtfile plugin is
  // the flag of the last line naming the address in a file loaded before (not always the latest).
  lemma CachedVerdictsComeFromFiles(r: Resolver, files: seq<seq<string>>, txt: nat, others: C.Backends,
                                    plugins: seq<C.Plugin>, denyByDefault: bool,
                                    workers: nat, store0: map<string, string>, run: seq<C.Action>)
    requires var c := C.Config(plugins, Tables(r, files, txt, others), denyByDefault);
      C.Feasible(c, C.Initial(workers, store0), run)
      && C.Exec(c, C.Initial(workers, store0), run).version < |files|
    ensures var c := C.Config(plugins, Tables(r, files, txt, others), denyByDefault);
      var s := C.Exec(c, C.Initial(workers, store0), run);
      forall i :: 0 <= i < |s.answers| && s.answers[i].origin.FromCache? ==>
        KnownFromFiles(r, files, txt, c, store0, s, s.answers[i])
  {
    var c := C.Config(plugins, Tables(r, files, txt, others), denyByDefault);
    var s := C.Exec(c, C.Initial(workers, store0), run);
    C.CacheProvenance(c, workers, store0, run);
    forall i | 0 <= i < |s.answers| && s.answers[i].origin.FromCache?
      ensures KnownFromFiles(r, files, txt, c, store0, s, s.answers[i])
    {
      var answer := s.answers[i];
      if !C.Inherited(store0, answer.address, answer.result) {
        var k :| 0 <= k < answer.origin.known && k < |s.decisions|
                 && s.decisions[k].address == answer.address && s.decisions[k].status == answer.result;
        DecisionSaidByFile(r, files, txt, others, c, s.version, s.decisions[k]);
      }
    }
  }
}
