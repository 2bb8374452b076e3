/** Reloading the txtfile table while workers look up: every lock, list step and unlock of
    parse_file and webcontrol_txtfile_handle_request is a separate step
    (src/plugins/mod_txtfile/webcontrol_txtfile.c). */
module Reload {
  import opened Handlers
  import opened TxtFile
  import Sums

  datatype Reader =
    | Resting
    | Waiting(address: Ip)                    // before the lock
    | Walking(address: Ip, at: nat)           // holds the lock, at list node `at`
    | Leaving(address: Ip, status: Status)    // holds the lock, before the unlock

  datatype Loader =
    | Watching
    | Opened(lines: seq<string>)              // file open, before the lock
    | Clearing(lines: seq<string>)            // holds the lock, freeing old entries
    | Filling(lines: seq<string>, done: nat)  // holds the lock, `done` lines read

  datatype Mutex = Free | ByReader(i: nat) | ByLoader

  // A finished lookup, its reader and the table version current when it left the lock.
  datatype Outcome = Outcome(reader: nat, address: Ip, status: Status, version: nat)

  datatype State = State(
    chain: seq<Entry>,
    mutex: Mutex,
    readers: seq<Reader>,
    loader: Loader,
    files: seq<seq<string>>,   // the files completely loaded so far; the first is the empty table
    outcomes: seq<Outcome>
  )

  datatype Action =
    | Request(i: nat, address: Ip) | Lock(i: nat) | Walk(i: nat) | Unlock(i: nat)
    | OpenFails | Open(lines: seq<string>) | LockTable | ClearOne | Cleared | ReadOne | UnlockTable

  predicate Enabled(r: Resolver, s: State, a: Action) {
    match a
    case Request(i, _) => i < |s.readers| && s.readers[i].Resting?
    case Lock(i) => i < |s.readers| && s.readers[i].Waiting? && s.mutex.Free?
    case Walk(i) => i < |s.readers| && s.readers[i].Walking?
    case Unlock(i) => i < |s.readers| && s.readers[i].Leaving?
    case OpenFails => s.loader.Watching?
    case Open(lines) => s.loader.Watching? && WellFormed(r, lines)
    case LockTable => s.loader.Opened? && s.mutex.Free?
    case ClearOne => s.loader.Clearing? && s.chain != []
    case Cleared => s.loader.Clearing? && s.chain == []
    case ReadOne => s.loader.Filling? && s.loader.done < |s.loader.lines|
    case UnlockTable => s.loader.Filling? && s.loader.done >= |s.loader.lines|
  }

  function WalkTo(chain: seq<Entry>, address: Ip, at: nat): Reader {
    if at >= |chain| then Leaving(address, GoOn)
    else if CompareAddresses(address, chain[at].address) == 1 then Leaving(address, chain[at].flag)
    else Walking(address, at + 1)
  }

  function Apply(r: Resolver, s: State, a: Action): State
    requires Enabled(r, s, a) && |s.files| > 0
  {
    match a
    case Request(i, address) => s.(readers := s.readers[i := Waiting(address)])
    case Lock(i) => s.(mutex := ByReader(i), readers := s.readers[i := Walking(s.readers[i].address, 0)])
    case Walk(i) => s.(readers := s.readers[i := WalkTo(s.chain, s.readers[i].address, s.readers[i].at)])
    case Unlock(i) =>
      s.(mutex := Free, readers := s.readers[i := Resting],
         outcomes := s.outcomes + [Outcome(i, s.readers[i].address, s.readers[i].status, |s.files| - 1)])
    case OpenFails => s
    case Open(lines) => s.(loader := Opened(lines))
    case LockTable => s.(mutex := ByLoader, loader := Clearing(s.loader.lines))
    case ClearOne => s.(chain := s.chain[1..])
    case Cleared => s.(loader := Filling(s.loader.lines, 0))
    case ReadOne =>
      var parsed := ParseLine(r, s.loader.lines[s.loader.done]);
      s.(chain := if parsed.Found? then [parsed.entry] + s.chain else s.chain,
         loader := Filling(s.loader.lines, s.loader.done + 1))
    case UnlockTable => s.(mutex := Free, loader := Watching, files := s.files + [s.loader.lines])
  }

  function Initial(readers: nat): State {
    State([], Free, seq(readers, _ => Resting), Watching, [[]], [])
  }

  // ---------------------------------------------------------------- invariant

  predicate ReaderOk(s: State, i: nat)
    requires i < |s.readers|
  {
    match s.readers[i]
    case Walking(address, at) =>
      s.mutex == ByReader(i) && at <= |s.chain| && Lookup(s.chain, address) == Lookup(s.chain[at..], address)
    case Leaving(address, status) => s.mutex == ByReader(i) && status == Lookup(s.chain, address)
    case _ => s.mutex != ByReader(i)
  }

  predicate LoaderOk(r: Resolver, s: State) {
    match s.loader
    case Clearing(_) => s.mutex.ByLoader?
    case Filling(lines, done) => s.mutex.ByLoader? && done <= |lines| && s.chain == Build(r, lines[..done])
    case _ => !s.mutex.ByLoader?
  }

  // The lookup agrees with one completely loaded version.
  predicate AgreesWithVersion(r: Resolver, files: seq<seq<string>>, o: Outcome) {
    o.version < |files| && o.status == Lookup(Build(r, files[o.version]), o.address)
  }

  predicate Ordered(s: State) {
    forall k, l :: 0 <= k < l < |s.outcomes| ==> s.outcomes[k].version <= s.outcomes[l].version
  }

  predicate Inv(r: Resolver, s: State) {
    && |s.files| > 0
    && (!s.mutex.ByLoader? ==> s.chain == Build(r, s.files[|s.files| - 1]))
    && (forall i :: 0 <= i < |s.readers| ==> ReaderOk(s, i))
    && LoaderOk(r, s)
    && (s.mutex.ByReader? ==> s.mutex.i < |s.readers|)
    && (forall k :: 0 <= k < |s.outcomes| ==> AgreesWithVersion(r, s.files, s.outcomes[k]))
    && Ordered(s)
  }

  lemma WalkKeepsLookup(s: State, i: nat)
    requires i < |s.readers| && s.readers[i].Walking? && ReaderOk(s, i)
    ensures var address := s.readers[i].address;
      match WalkTo(s.chain, address, s.readers[i].at)
      case Walking(_, at) => at <= |s.chain| && Lookup(s.chain, address) == Lookup(s.chain[at..], address)
      case Leaving(_, status) => status == Lookup(s.chain, address)
      case _ => false
  {
    var at := s.readers[i].at;
    if at < |s.chain| {
      assert s.chain[at..][1..] == s.chain[at + 1..];
    }
  }

  lemma ReadersStep(r: Resolver, s: State, a: Action)
    requires Inv(r, s) && Enabled(r, s, a)
    ensures forall i :: 0 <= i < |Apply(r, s, a).readers| ==> ReaderOk(Apply(r, s, a), i)
  {
    var t := Apply(r, s, a);
    forall i | 0 <= i < |t.readers| ensures ReaderOk(t, i) {
      assert ReaderOk(s, i);
      if a.Walk? && a.i == i {
        WalkKeepsLookup(s, i);
      } else if a.Lock? && a.i == i {
        assert s.chain[0..] == s.chain;
      } else if (a.Unlock? || a.Walk?) {
        assert ReaderOk(s, a.i);
      }
    }
  }

  lemma LoaderStep(r: Resolver, s: State, a: Action)
    requires Inv(r, s) && Enabled(r, s, a)
    ensures LoaderOk(r, Apply(r, s, a))
    ensures var t := Apply(r, s, a); !t.mutex.ByLoader? ==> t.chain == Build(r, t.files[|t.files| - 1])
  {
    if a.ReadOne? {
      var lines, done := s.loader.lines, s.loader.done;
      assert lines[..done + 1][..done] == lines[..done];
    } else if a.UnlockTable? {
      assert s.loader.lines[..s.loader.done] == s.loader.lines;
    } else if a.Unlock? || a.Walk? {
      assert ReaderOk(s, a.i);
    }
  }

  lemma OutcomesStep(r: Resolver, s: State, a: Action)
    requires Inv(r, s) && Enabled(r, s, a)
    ensures var t := Apply(r, s, a);
      Ordered(t) && forall k :: 0 <= k < |t.outcomes| ==> AgreesWithVersion(r, t.files, t.outcomes[k])
  {
    var t := Apply(r, s, a);
    if a.Unlock? {
      assert ReaderOk(s, a.i);
    }
    forall k | 0 <= k < |t.outcomes| ensures AgreesWithVersion(r, t.files, t.outcomes[k]) {
      if k < |s.outcomes| {
        assert AgreesWithVersion(r, s.files, s.outcomes[k]);
      }
    }
    forall k, l | 0 <= k < l < |t.outcomes| ensures t.outcomes[k].version <= t.outcomes[l].version {
      assert AgreesWithVersion(r, s.files, s.outcomes[k]);
    }
  }

  lemma InvStep(r: Resolver, s: State, a: Action)
    requires Inv(r, s) && Enabled(r, s, a)
    ensures Inv(r, Apply(r, s, a))
  {
    ReadersStep(r, s, a);
    LoaderStep(r, s, a);
    OutcomesStep(r, s, a);
  }

  predicate Feasible(r: Resolver, s: State, run: seq<Action>)
    requires |s.files| > 0
    decreases |run|
  {
    run == [] || (Enabled(r, s, run[0]) && Feasible(r, Apply(r, s, run[0]), run[1..]))
  }

  function Exec(r: Resolver, s: State, run: seq<Action>): State
    requires |s.files| > 0 && Feasible(r, s, run)
    decreases |run|
  {
    if run == [] then s else Exec(r, Apply(r, s, run[0]), run[1..])
  }

  lemma {:induction false} InvExec(r: Resolver, s: State, run: seq<Action>)
    requires Inv(r, s) && Feasible(r, s, run)
    ensures Inv(r, Exec(r, s, run))
    decreases |run|
  {
    if run != [] {
      InvStep(r, s, run[0]);
      InvExec(r, Apply(r, s, run[0]), run[1..]);
    }
  }

  // ---------------------------------------------------------------- what a run asks for

  // The following read only the actions of a run, not the states it passes.

  // The files opened, in order.
  function Opens(run: seq<Action>): seq<seq<string>> {
    if run == [] then []
    else
      var last := run[|run| - 1];
      Opens(run[..|run| - 1]) + if last.Open? then [last.lines] else []
  }

  function LastOpened(run: seq<Action>): seq<string> {
    if run == [] then []
    else
      var last := run[|run| - 1];
      if last.Open? then last.lines else LastOpened(run[..|run| - 1])
  }

  // The files whose load was completed, in order.
  function Loaded(run: seq<Action>): seq<seq<string>> {
    if run == [] then []
    else
      var before := run[..|run| - 1];
      Loaded(before) + if run[|run| - 1].UnlockTable? then [LastOpened(before)] else []
  }

  // The empty table and the files loaded.
  function Versions(run: seq<Action>): seq<seq<string>> { [[]] + Loaded(run) }

  function LastRequest(run: seq<Action>, i: nat): Option<Ip> {
    if run == [] then None
    else
      var last := run[|run| - 1];
      if last.Request? && last.i == i then Some(last.address) else LastRequest(run[..|run| - 1], i)
  }

  // A finished lookup: its reader, the address that reader requested last, the loads completed before.
  datatype Asked = Asked(reader: nat, address: Option<Ip>, version: nat)

  function Lookups(run: seq<Action>): seq<Asked> {
    if run == [] then []
    else
      var before, last := run[..|run| - 1], run[|run| - 1];
      Lookups(before)
      + if last.Unlock? then [Asked(last.i, LastRequest(before, last.i), |Loaded(before)|)] else []
  }

  // The file being loaded.
  function Loading(loader: Loader): seq<seq<string>> {
    if loader.Watching? then [] else [loader.lines]
  }

  predicate OutcomeOf(o: Outcome, asked: Asked) {
    o.reader == asked.reader && asked.address == Some(o.address) && o.version == asked.version
  }

  predicate TracksLoads(run: seq<Action>, s: State) {
    && s.files == Versions(run)
    && s.files + Loading(s.loader) == [[]] + Opens(run)
    && (!s.loader.Watching? ==> s.loader.lines == LastOpened(run))
  }

  predicate TracksReaders(run: seq<Action>, s: State) {
    forall i :: 0 <= i < |s.readers| && !s.readers[i].Resting? ==> LastRequest(run, i) == Some(s.readers[i].address)
  }

  predicate TracksLookups(run: seq<Action>, s: State) {
    |s.outcomes| == |Lookups(run)| && forall k :: 0 <= k < |s.outcomes| ==> OutcomeOf(s.outcomes[k], Lookups(run)[k])
  }

  predicate Tracks(run: seq<Action>, s: State) {
    TracksLoads(run, s) && TracksReaders(run, s) && TracksLookups(run, s)
  }

  lemma OneMore(run: seq<Action>, a: Action)
    ensures Opens(run + [a]) == if a.Open? then Opens(run) + [a.lines] else Opens(run)
    ensures LastOpened(run + [a]) == if a.Open? then a.lines else LastOpened(run)
    ensures Loaded(run + [a]) == if a.UnlockTable? then Loaded(run) + [LastOpened(run)] else Loaded(run)
  {
    assert (run + [a])[..|run|] == run;
    assert Opens(run) + [] == Opens(run) && Loaded(run) + [] == Loaded(run);
  }

  lemma LoadsStep(r: Resolver, run: seq<Action>, s: State, a: Action)
    requires Inv(r, s) && TracksLoads(run, s) && Enabled(r, s, a)
    ensures TracksLoads(run + [a], Apply(r, s, a))
  {
    OneMore(run, a);
    var t := Apply(r, s, a);
    if a.UnlockTable? {
      assert Versions(run + [a]) == Versions(run) + [LastOpened(run)];
      assert t.files + Loading(t.loader) == s.files + Loading(s.loader);
    } else if a.Open? {
      assert s.files + [] == s.files;
      assert [[]] + (Opens(run) + [a.lines]) == [[]] + Opens(run) + [a.lines];
    }
  }

  lemma LookupsStep(r: Resolver, run: seq<Action>, s: State, a: Action)
    requires Inv(r, s) && Tracks(run, s) && Enabled(r, s, a)
    ensures TracksReaders(run + [a], Apply(r, s, a)) && TracksLookups(run + [a], Apply(r, s, a))
  {
    assert (run + [a])[..|run|] == run;
  }

  // The state reached by the actions done, as far as they tell.
  ghost predicate Reached(r: Resolver, done: seq<Action>, s: State) {
    Inv(r, s) && Tracks(done, s)
  }

  lemma ReachedStep(r: Resolver, done: seq<Action>, s: State, a: Action)
    requires Reached(r, done, s) && Enabled(r, s, a)
    ensures Reached(r, done + [a], Apply(r, s, a))
  {
    InvStep(r, s, a);
    LoadsStep(r, done, s, a);
    LookupsStep(r, done, s, a);
  }

  lemma {:induction false} ReachedExec(r: Resolver, done: seq<Action>, s: State, run: seq<Action>, whole: seq<Action>)
    requires Reached(r, done, s) && |s.files| > 0 && Feasible(r, s, run) && whole == done + run
    ensures Reached(r, whole, Exec(r, s, run))
    decreases |run|
  {
    if run == [] {
      assert whole == done;
    } else {
      ReachedStep(r, done, s, run[0]);
      assert whole == done + [run[0]] + run[1..];
      ReachedExec(r, done + [run[0]], Apply(r, s, run[0]), run[1..], whole);
    }
  }

  lemma ReachedRun(r: Resolver, readers: nat, run: seq<Action>)
    requires Feasible(r, Initial(readers), run)
    ensures Reached(r, run, Exec(r, Initial(readers), run))
  {
    assert run == [] + run;
    ReachedExec(r, [], Initial(readers), run, run);
  }

  // The outcome is what the reader requested last gives in the file loaded last before.
  predicate Answers(r: Resolver, run: seq<Action>, asked: Asked, o: Outcome) {
    && OutcomeOf(o, asked) && asked.version < |Versions(run)|
    && o.status == Lookup(Build(r, Versions(run)[asked.version]), o.address)
  }

  // Under any interleaving of lookups and reloads each lookup finished is a lookup of the address
  // its reader requested in the file loaded last, whole; later lookups never see an older file, and
  // whenever the loader does not hold the lock the table is that of the file loaded last.
  lemma ReloadIsAtomic(r: Resolver, readers: nat, run: seq<Action>)
    requires Feasible(r, Initial(readers), run)
    ensures var s := Exec(r, Initial(readers), run);
      && |s.outcomes| == |Lookups(run)|
      && (forall k :: 0 <= k < |s.outcomes| ==> Answers(r, run, Lookups(run)[k], s.outcomes[k]))
      && Ordered(s)
      && (!s.mutex.ByLoader? ==> s.chain == Build(r, Versions(run)[|Versions(run)| - 1]))
  {
    ReachedRun(r, readers, run);
    var s := Exec(r, Initial(readers), run);
    forall k | 0 <= k < |s.outcomes| ensures Answers(r, run, Lookups(run)[k], s.outcomes[k]) {
      assert AgreesWithVersion(r, s.files, s.outcomes[k]);
    }
  }

  // The files loaded and the one being loaded are those opened, in order and unchanged; a failed
  // open is none of them.
  lemma FilesAreThoseOpened(r: Resolver, readers: nat, run: seq<Action>)
    requires Feasible(r, Initial(readers), run)
    ensures var s := Exec(r, Initial(readers), run);
      Loaded(run) + Loading(s.loader) == Opens(run) && s.files == Versions(run)
  {
    ReachedRun(r, readers, run);
    var s := Exec(r, Initial(readers), run);
    assert (s.files + Loading(s.loader))[1..] == Loaded(run) + Loading(s.loader);
    assert ([[]] + Opens(run))[1..] == Opens(run);
  }

  // ---------------------------------------------------------------- lookups and loads end

  // Steps that neither ask for a lookup nor open the file.
  predicate Quiet(a: Action) { !a.Request? && !a.Open? && !a.OpenFails? }

  // Lines the loader still has to read.
  function Unread(loader: Loader): nat {
    match loader
    case Watching => 0
    case Opened(lines) => |lines|
    case Clearing(lines) => |lines|
    case Filling(lines, done) => if done <= |lines| then |lines| - done else 0
  }

  function LoaderWork(s: State): nat {
    match s.loader
    case Watching => 0
    case Opened(_) => 3 + |s.chain| + Unread(s.loader)
    case Clearing(_) => 2 + |s.chain| + Unread(s.loader)
    case Filling(_, _) => 1 + Unread(s.loader)
  }

  // The steps left in a lookup when the list never has more than `size` entries.
  function ReaderWork(size: nat): Reader -> nat {
    (reader: Reader) =>
      match reader
      case Resting => 0
      case Waiting(_) => size + 3
      case Walking(_, at) => 2 + if at <= size then size - at else 0
      case Leaving(_, _) => 1
  }

  function Size(s: State): nat { |s.chain| + Unread(s.loader) }

  function Measure(s: State): nat { LoaderWork(s) + Sums.Sum(s.readers, ReaderWork(Size(s))) }

  lemma ReaderMoves(r: Resolver, s: State, a: Action)
    requires Enabled(r, s, a) && |s.files| > 0 && (a.Lock? || a.Walk? || a.Unlock?)
    ensures Measure(Apply(r, s, a)) < Measure(s)
  {
    var t := Apply(r, s, a);
    Sums.SumUpdate(s.readers, a.i, t.readers[a.i], ReaderWork(Size(s)));
  }

  lemma LoaderMoves(r: Resolver, s: State, a: Action)
    requires Enabled(r, s, a) && |s.files| > 0 && Quiet(a) && !a.Lock? && !a.Walk? && !a.Unlock?
    ensures Measure(Apply(r, s, a)) < Measure(s)
  {
    var t := Apply(r, s, a);
    assert Size(t) <= Size(s) && LoaderWork(t) < LoaderWork(s);
    Sums.SumBelow(s.readers, ReaderWork(Size(t)), ReaderWork(Size(s)));
  }

  // Without new requests and opens every interleaving is finite.
  lemma {:induction false} ReloadSettles(r: Resolver, s: State, run: seq<Action>)
    requires |s.files| > 0 && Feasible(r, s, run) && forall i :: 0 <= i < |run| ==> Quiet(run[i])
    ensures |run| + Measure(Exec(r, s, run)) <= Measure(s)
    decreases |run|
  {
    if run != [] {
      var a := run[0];
      assert Quiet(a);
      if a.Lock? || a.Walk? || a.Unlock? {
        ReaderMoves(r, s, a);
      } else {
        LoaderMoves(r, s, a);
      }
      assert forall i :: 0 <= i < |run[1..]| ==> run[1..][i] == run[i + 1];
      ReloadSettles(r, Apply(r, s, a), run[1..]);
    }
  }

  // Where such a run cannot go on, every lookup requested is finished and every file opened is loaded.
  lemma NothingWaitsAtRest(r: Resolver, readers: nat, run: seq<Action>)
    requires Feasible(r, Initial(readers), run)
    requires forall a :: Quiet(a) ==> !Enabled(r, Exec(r, Initial(readers), run), a)
    ensures var s := Exec(r, Initial(readers), run);
      (forall i :: 0 <= i < |s.readers| ==> s.readers[i].Resting?) && s.mutex.Free? && Loaded(run) == Opens(run)
  {
    ReachedRun(r, readers, run);
    FilesAreThoseOpened(r, readers, run);
    LockIsFree(r, Exec(r, Initial(readers), run));
    assert Loaded(run) + [] == Loaded(run);
  }

  lemma HolderCanMove(r: Resolver, s: State) returns (a: Action)
    requires Inv(r, s) && !s.mutex.Free?
    ensures Quiet(a) && Enabled(r, s, a)
  {
    match s.mutex
    case ByReader(i) =>
      assert ReaderOk(s, i);
      a := if s.readers[i].Walking? then Walk(i) else Unlock(i);
    case ByLoader =>
      a := if s.loader.Filling? then if s.loader.done < |s.loader.lines| then ReadOne else UnlockTable
           else if s.chain == [] then Cleared else ClearOne;
  }

  lemma LockIsFree(r: Resolver, s: State)
    requires Inv(r, s) && forall a :: Quiet(a) ==> !Enabled(r, s, a)
    ensures s.mutex.Free? && s.loader.Watching? && forall i :: 0 <= i < |s.readers| ==> s.readers[i].Resting?
  {
    if !s.mutex.Free? {
      var a := HolderCanMove(r, s);
    }
    assert !Enabled(r, s, LockTable);
    forall i | 0 <= i < |s.readers| ensures s.readers[i].Resting? {
      assert ReaderOk(s, i) && !Enabled(r, s, Lock(i));
    }
  }
}
