/** What Squid reads: the request lines it may send, and what stands in the responses written to
    them, in terms of the address parsers, the plugins' statuses and the host file alone
    (src/core/main.c, worker and send_response). */
module Squid {
  import opened Handlers
  import B = Buffer
  import C = Chain
  import H = HostFiles
  import R = RequestLine
  import T = TxtFile
  import Threads
  import V = Service
  import W = Process
  import Y = Steadiness

  // ---------------------------------------------------------------- what a worker gets of a line

  function FieldsOf(r: T.Resolver, line: string): R.Fields {
    R.Parse(B.BeforeNul(line), if r.haveIpv6 then 45 else 15)
  }

  // No parser compiled in takes the line's address word.
  predicate WithoutAddress(r: T.Resolver, line: string) { T.NoAddress(r, FieldsOf(r, line).address) }

  lemma FieldsAre(r: T.Resolver, line: string)
    ensures V.WireOf(r).parse(line) == FieldsOf(r, line)
    ensures V.Valid(V.WireOf(r), line) <==> !WithoutAddress(r, line)
  {
  }

  // Text behind a NUL is not read.
  lemma TextBehindNulIgnored(r: T.Resolver, line: string, behind: string)
    ensures V.WireOf(r).parse(line + "\0" + behind) == V.WireOf(r).parse(line)
  {
    var whole, t := line + "\0" + behind, B.BeforeNul(line);
    assert whole[..|t|] == t;
    B.BeforeNulIs(whole, |t|);
  }

  lemma NulOnlyBehind(front: string, tail: string)
    requires '\0' !in front
    ensures B.BeforeNul(front + tail) == front + B.BeforeNul(tail)
  {
    var n := |front| + |B.BeforeNul(tail)|;
    assert (front + tail)[..n] == front + B.BeforeNul(tail);
    B.BeforeNulIs(front + tail, n);
  }

  lemma DigitsHoldNoNul(lead: string, channel: nat, address: string)
    requires R.Blank(lead) && '\0' !in address
    ensures '\0' !in lead + (R.Decimal(channel) + (" " + address))
  {
    assert !R.IsSpace('\0') && !R.IsDigit('\0');
  }

  lemma Regroup(lead: string, digits: string, address: string, tail: string)
    ensures lead + (digits + (" " + address)) + tail == lead + (digits + (" " + (address + tail)))
  {
  }

  // A request comes through whole exactly when size_t holds the channel and the address has at
  // most 45 characters, or 15 without IPv6; what follows a blank or a NUL does not matter.
  lemma RequestWholeExactlyWhen(r: T.Resolver, lead: string, channel: nat, address: string, tail: string)
    requires R.Blank(lead) && |address| > 0 && '\0' !in address
    requires forall i :: 0 <= i < |address| ==> !R.IsSpace(address[i])
    requires tail == "" || R.IsSpace(tail[0]) || tail[0] == '\0'
    ensures V.WireOf(r).parse(lead + (R.Decimal(channel) + (" " + (address + tail)))) == R.Fields(channel, address)
       <==> channel < 0x1_0000_0000_0000_0000 && |address| <= (if r.haveIpv6 then 45 else 15)
  {
    var digits, text := R.Decimal(channel), B.BeforeNul(tail);
    DigitsHoldNoNul(lead, channel, address);
    NulOnlyBehind(lead + (digits + (" " + address)), tail);
    Regroup(lead, digits, address, tail);
    Regroup(lead, digits, address, text);
    R.RequestRoundTripExactlyWhen(lead, channel, address, text, if r.haveIpv6 then 45 else 15);
  }

  // ---------------------------------------------------------------- what stands in a response

  // The word is OK exactly for a permission or, unless denied by default, where no plugin decided.
  predicate Permitted(status: Status, denyByDefault: bool) {
    status == Allow || (status != Deny && !denyByDefault)
  }

  function LogFor(status: Status): R.Log {
    if status == Allow then R.NoLog else R.Log(if status == Deny then "DENIED" else "UNKNOWN ERR")
  }

  // What Squid reads in a text: the line's channel, and ERR with the reason for a line without an
  // address, else the word and the log for the answer to that address.
  predicate Tells(r: T.Resolver, denyByDefault: bool, line: string, answer: T.Option<C.Answer>, text: string) {
    var channel := FieldsOf(r, line).channel;
    if WithoutAddress(r, line) then
      R.ReadResponse(text) == R.Got(R.Reading(channel, "ERR", R.Log("Valid IP address expected")))
    else
      && answer.Some? && answer.value.address == FieldsOf(r, line).address
      && var status := answer.value.result;
        R.ReadResponse(text)
        == R.Got(R.Reading(channel, if Permitted(status, denyByDefault) then "OK" else "ERR", LogFor(status)))
  }

  lemma MessagesAreLines()
    ensures '\n' !in "Valid IP address expected" && '\n' !in "DENIED" && '\n' !in "UNKNOWN ERR"
  {
  }

  lemma RespondTells(r: T.Resolver, line: string, ok: bool, log: string)
    requires '\n' !in log
    ensures R.ReadResponse(V.WireOf(r).respond(V.WireOf(r).parse(line).channel, ok, log))
         == R.Got(R.Reading(FieldsOf(r, line).channel, if ok then "OK" else "ERR", R.LogOf(log)))
  {
    R.ResponseReadsBackExactlyWhen(FieldsOf(r, line).channel, ok, log);
  }

  lemma RejectionTells(r: T.Resolver, line: string)
    ensures var channel := FieldsOf(r, line).channel;
      R.ReadResponse(V.Rejection(V.WireOf(r), line))
      == R.Got(R.Reading(channel, "ERR", R.Log("Valid IP address expected")))
  {
    MessagesAreLines();
    RespondTells(r, line, false, "Valid IP address expected");
  }

  // The message given to send_response; none is empty.
  function TextOf(log: C.Log): string { if log.NoLog? then "" else log.text }

  lemma FormatTells(r: T.Resolver, line: string, reply: C.Reply)
    requires '\n' !in TextOf(reply.log)
    ensures R.ReadResponse(V.Format(V.WireOf(r), line, reply))
         == R.Got(R.Reading(FieldsOf(r, line).channel, if reply.ok then "OK" else "ERR", R.LogOf(TextOf(reply.log))))
  {
    RespondTells(r, line, reply.ok, TextOf(reply.log));
  }

  lemma SaysWordAndLog(reply: C.Reply, status: Status, denyByDefault: bool)
    requires C.Says(reply, status, denyByDefault)
    ensures reply.ok == Permitted(status, denyByDefault) && R.LogOf(TextOf(reply.log)) == LogFor(status)
    ensures '\n' !in TextOf(reply.log)
  {
    MessagesAreLines();
  }

  lemma ReplyTells(r: T.Resolver, line: string, reply: C.Reply, status: Status, denyByDefault: bool)
    requires C.Says(reply, status, denyByDefault)
    ensures R.ReadResponse(V.Format(V.WireOf(r), line, reply))
         == R.Got(R.Reading(FieldsOf(r, line).channel, if Permitted(status, denyByDefault) then "OK" else "ERR",
                            LogFor(status)))
  {
    SaysWordAndLog(reply, status, denyByDefault);
    FormatTells(r, line, reply);
  }

  // The chain's answer to line number i, if it has one.
  function AnswerTo(r: T.Resolver, s: V.State, i: nat): T.Option<C.Answer>
    requires i <= |s.pool.answered|
  {
    var k := V.PlaceOf(V.WireOf(r), s.pool.answered, i);
    if k < |s.chain.answers| then T.Some(s.chain.answers[k]) else T.None
  }

  predicate AllTold(r: T.Resolver, denyByDefault: bool, s: V.State) {
    && |s.written| == |s.pool.answered|
    && forall i :: 0 <= i < |s.written| ==>
         Tells(r, denyByDefault, s.pool.answered[i], AnswerTo(r, s, i), s.written[i])
  }

  lemma AccountedTells(c: C.Config, r: T.Resolver, store0: map<string, string>, s: V.State, i: nat)
    requires i < |s.pool.answered| == |s.written| && V.AccountedFor(c, V.WireOf(r), store0, s, i)
    ensures Tells(r, c.denyByDefault, s.pool.answered[i], AnswerTo(r, s, i), s.written[i])
  {
    var line, k := s.pool.answered[i], V.PlaceOf(V.WireOf(r), s.pool.answered, i);
    FieldsAre(r, line);
    if WithoutAddress(r, line) {
      RejectionTells(r, line);
    } else {
      var answer := s.chain.answers[k];
      assert V.Formats(V.WireOf(r), answer, line, s.written[i]);
      ReplyTells(r, line, answer.reply, answer.result, c.denyByDefault);
    }
  }

  // In every run of the service Squid reads in each response the channel of the line answered; ERR
  // if no parser takes the line's address, else OK exactly if the chain's answer permits it.
  lemma EveryResponseTells(c: C.Config, r: T.Resolver, store0: map<string, string>, n: nat, run: seq<V.Action>)
    requires V.Feasible(c, V.WireOf(r), V.Initial(n, store0), run)
    ensures AllTold(r, c.denyByDefault, V.Exec(c, V.WireOf(r), V.Initial(n, store0), run))
  {
    var s := V.Exec(c, V.WireOf(r), V.Initial(n, store0), run);
    V.EveryResponseAccounted(c, V.WireOf(r), store0, n, run);
    forall i | 0 <= i < |s.written|
      ensures Tells(r, c.denyByDefault, s.pool.answered[i], AnswerTo(r, s, i), s.written[i])
    {
      AccountedTells(c, r, store0, s, i);
    }
  }

  // The same for the whole process over queue.c.
  lemma ProcessTells(c: C.Config, r: T.Resolver, store0: map<string, string>, n: nat, run: seq<W.Action>)
    requires W.Feasible(c, V.WireOf(r), W.Initial(n, store0), run)
    ensures var s := W.Exec(c, V.WireOf(r), W.Initial(n, store0), run);
      Threads.Shaped(s.threads) && AllTold(r, c.denyByDefault, W.Seen(s))
  {
    var s := W.Exec(c, V.WireOf(r), W.Initial(n, store0), run);
    W.ProcessResponses(c, V.WireOf(r), store0, n, run);
    forall i | 0 <= i < |s.written|
      ensures Tells(r, c.denyByDefault, W.Seen(s).pool.answered[i], AnswerTo(r, W.Seen(s), i), s.written[i])
    {
      AccountedTells(c, r, store0, W.Seen(s), i);
    }
  }

  // A line without a number, such as a blank one, is answered on channel 0.
  lemma BlankLineTells(r: T.Resolver, line: string)
    requires R.Blank(line) && T.NoAddress(r, "")
    ensures !V.Valid(V.WireOf(r), line)
    ensures R.ReadResponse(V.Rejection(V.WireOf(r), line))
         == R.Got(R.Reading(0, "ERR", R.Log("Valid IP address expected")))
  {
    assert !R.IsSpace('\0') && B.BeforeNul(line) == line && line + "" == line;
    R.NoNumberNoFields(line, "", if r.haveIpv6 then 45 else 15);
    RejectionTells(r, line);
  }

  // ---------------------------------------------------------------- a host file decides

  // The txtfile plugin alone, behind its cache, with one file.
  function FileOnly(r: T.Resolver, lines: seq<string>, denyByDefault: bool): C.Config {
    C.Config([C.Memcached, C.Backend(0)],
             (version: nat, id: nat, address: string) => H.HostStatus(r, lines, address), denyByDefault)
  }

  // The last line naming the address allows it, or no line denies it and nothing is denied by default.
  ghost predicate FilePermits(r: T.Resolver, lines: seq<string>, denyByDefault: bool, address: string) {
    || H.LastLineSays(r, lines, address, Allow)
    || (!H.LastLineSays(r, lines, address, Deny) && !denyByDefault)
  }

  lemma FileDecides(r: T.Resolver, lines: seq<string>, denyByDefault: bool, address: string)
    ensures C.PureDecision(FileOnly(r, lines, denyByDefault), address) == H.HostStatus(r, lines, address)
    ensures Permitted(H.HostStatus(r, lines, address), denyByDefault)
       <==> FilePermits(r, lines, denyByDefault, address)
  {
    var c := FileOnly(r, lines, denyByDefault);
    assert c.plugins[1..] == [C.Backend(0)] && c.plugins[1..][1..] == [];
    assert C.Uncached(c.plugins) == [C.Backend(0)] && [C.Backend(0)][1..] == [];
    H.HostVerdict(r, lines, address, Allow);
    H.HostVerdict(r, lines, address, Deny);
  }

  // Squid reads the line's channel, and OK exactly if its address is one and the file permits it.
  ghost predicate ToldByFile(r: T.Resolver, lines: seq<string>, denyByDefault: bool, line: string, text: string) {
    var Fields(channel, address) := FieldsOf(r, line);
    var read := R.ReadResponse(text);
    && read.Got? && read.reading.channel == channel
    && (read.reading.word == "OK" <==> !WithoutAddress(r, line) && FilePermits(r, lines, denyByDefault, address))
    && (read.reading.word == "ERR" <==> WithoutAddress(r, line) || !FilePermits(r, lines, denyByDefault, address))
  }

  lemma ResponseByFile(r: T.Resolver, lines: seq<string>, denyByDefault: bool, line: string)
    ensures ToldByFile(r, lines, denyByDefault, line,
                       V.Response(FileOnly(r, lines, denyByDefault), V.WireOf(r), line))
  {
    var c, address := FileOnly(r, lines, denyByDefault), FieldsOf(r, line).address;
    FieldsAre(r, line);
    if WithoutAddress(r, line) {
      RejectionTells(r, line);
    } else {
      FileDecides(r, lines, denyByDefault, address);
      C.ReplySays(H.HostStatus(r, lines, address), denyByDefault);
      ReplyTells(r, line, C.PureReply(c, address), H.HostStatus(r, lines, address), denyByDefault);
    }
  }

  ghost predicate AllByFile(r: T.Resolver, lines: seq<string>, denyByDefault: bool, s: V.State) {
    && |s.written| == |s.pool.answered|
    && forall i :: 0 <= i < |s.written| ==> ToldByFile(r, lines, denyByDefault, s.pool.answered[i], s.written[i])
  }

  lemma ServiceByFile(r: T.Resolver, lines: seq<string>, denyByDefault: bool, n: nat, run: seq<V.Action>)
    requires V.Feasible(FileOnly(r, lines, denyByDefault), V.WireOf(r), V.Initial(n, map[]), run)
    ensures AllByFile(r, lines, denyByDefault,
                      V.Exec(FileOnly(r, lines, denyByDefault), V.WireOf(r), V.Initial(n, map[]), run))
  {
    var c := FileOnly(r, lines, denyByDefault);
    var s := V.Exec(c, V.WireOf(r), V.Initial(n, map[]), run);
    Y.FixedIsSteady(c, map[]);
    V.ResponsesArePure(c, V.WireOf(r), map[], n, run);
    forall i | 0 <= i < |s.written| ensures ToldByFile(r, lines, denyByDefault, s.pool.answered[i], s.written[i]) {
      ResponseByFile(r, lines, denyByDefault, s.pool.answered[i]);
    }
  }

  // The process with the txtfile plugin behind a cache empty at first, however threads, evictions
  // and reloads of the same file interleave: each line is told OK exactly if the last line of the
  // host file naming its address allows it, or none denies it and nothing is denied by default.
  lemma HostFileDecides(r: T.Resolver, lines: seq<string>, denyByDefault: bool, n: nat, run: seq<W.Action>)
    requires W.Feasible(FileOnly(r, lines, denyByDefault), V.WireOf(r), W.Initial(n, map[]), run)
    ensures var s := W.Exec(FileOnly(r, lines, denyByDefault), V.WireOf(r), W.Initial(n, map[]), run);
      Threads.Shaped(s.threads) && AllByFile(r, lines, denyByDefault, W.Seen(s))
  {
    var c := FileOnly(r, lines, denyByDefault);
    var steps := W.ServiceRun(c, V.WireOf(r), W.Initial(n, map[]), run);
    W.Reachable(c, V.WireOf(r), map[], n, run);
    ServiceByFile(r, lines, denyByDefault, n, steps);
  }
}
