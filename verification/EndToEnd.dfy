/** From the bytes on standard input to the responses on standard output: splitter, worker pool,
    request parsing and plugin chain together (src/core/main.c). */
module EndToEnd {
  import Sums
  import B = Buffer
  import S = Splitter
  import P = Pool
  import C = Chain
  import T = TxtFile
  import R = RequestLine
  import V = Service
  import X = Transparency
  import Y = Steadiness

  function Responder(c: C.Config, r: V.Wire): string -> string {
    line => V.Response(c, r, line)
  }

  // A way of responding that does not see a newline in front of the line.
  ghost predicate Indifferent(respond: string -> string) {
    forall line :: respond(S.Stripped(line)) == respond(line)
  }

  // A wire whose parser does not see it.
  ghost predicate Blind(r: V.Wire) {
    forall line :: r.parse(S.Stripped(line)) == r.parse(line)
  }

  // The wire of the code is one, whatever addresses resolve, and so its workers respond.
  lemma WorkersAreIndifferent(c: C.Config, resolver: T.Resolver)
    ensures Blind(V.WireOf(resolver)) && Indifferent(Responder(c, V.WireOf(resolver)))
  {
    forall line ensures V.WireOf(resolver).parse(S.Stripped(line)) == V.WireOf(resolver).parse(line) {
      if S.Stripped(line) != line {
        NewlineBeforeNul(line);
        R.LeadingBlanksIgnored("\n", B.BeforeNul(S.Stripped(line)), V.Width(resolver));
      }
    }
    BlindIsIndifferent(c, V.WireOf(resolver));
  }

  lemma BlindIsIndifferent(c: C.Config, r: V.Wire)
    requires Blind(r)
    ensures Indifferent(Responder(c, r))
  {
    forall line ensures V.Response(c, r, S.Stripped(line)) == V.Response(c, r, line) {
      assert r.parse(S.Stripped(line)) == r.parse(line);
    }
  }

  lemma NewlineBeforeNul(line: string)
    requires line != "" && line[0] == '\n'
    ensures B.BeforeNul(line) == "\n" + B.BeforeNul(S.Stripped(line))
  {
    var u := B.BeforeNul(line[1..]);
    assert line[..1 + |u|] == "\n" + u;
    B.BeforeNulIs(line, 1 + |u|);
  }

  // The responses to all lines that are not blank.
  function Responses(respond: string -> string, lines: seq<string>): seq<string> {
    if lines == [] then []
    else (if S.Stripped(lines[0]) == "" then [] else [respond(lines[0])]) + Responses(respond, lines[1..])
  }

  lemma {:induction false} ResponsesConcat(respond: string -> string, a: seq<string>, b: seq<string>)
    ensures Responses(respond, a + b) == Responses(respond, a) + Responses(respond, b)
  {
    if a == [] {
      assert a + b == b;
    } else {
      assert (a + b)[1..] == a[1..] + b;
      ResponsesConcat(respond, a[1..], b);
    }
  }

  // Responses depend on the requests only: neither on the newlines left in front of lines ...
  lemma {:induction false} ResponsesToRequests(respond: string -> string, a: seq<string>, b: seq<string>)
    requires Indifferent(respond) && S.Requests(a) == S.Requests(b)
    ensures Responses(respond, a) == Responses(respond, b)
    decreases |a| + |b|
  {
    if a != [] && S.Stripped(a[0]) == "" {
      ResponsesToRequests(respond, a[1..], b);
    } else if b != [] && S.Stripped(b[0]) == "" {
      ResponsesToRequests(respond, a, b[1..]);
    } else if a != [] && b != [] {
      assert S.Requests(a)[0] == S.Stripped(a[0]) && S.Requests(a)[1..] == S.Requests(a[1..]);
      assert S.Requests(b)[0] == S.Stripped(b[0]) && S.Requests(b)[1..] == S.Requests(b[1..]);
      assert respond(a[0]) == respond(S.Stripped(a[0])) == respond(S.Stripped(b[0])) == respond(b[0]);
      ResponsesToRequests(respond, a[1..], b[1..]);
    }
  }

  lemma TakeOut(b: seq<string>, k: nat)
    requires k < |b|
    ensures multiset(b) - multiset{b[k]} == multiset(b[..k] + b[k + 1..])
  {
    assert b == b[..k] + [b[k]] + b[k + 1..];
  }

  lemma CutAround(b: seq<string>, k: nat)
    requires k < |b|
    ensures b == b[..k] + ([b[k]] + b[k + 1..])
  {
  }

  lemma MoveFront(a: seq<string>, x: seq<string>, b: seq<string>)
    ensures multiset(a + (x + b)) == multiset(x) + multiset(a + b)
  {
  }

  lemma ResponsesTakeOut(respond: string -> string, b: seq<string>, k: nat)
    requires k < |b|
    ensures multiset(Responses(respond, b))
         == multiset(Responses(respond, [b[k]])) + multiset(Responses(respond, b[..k] + b[k + 1..]))
  {
    var front, x, back := b[..k], [b[k]], b[k + 1..];
    CutAround(b, k);
    ResponsesConcat(respond, front, x + back);
    ResponsesConcat(respond, x, back);
    ResponsesConcat(respond, front, back);
    MoveFront(Responses(respond, front), Responses(respond, x), Responses(respond, back));
  }

  lemma Find(b: seq<string>, line: string) returns (k: nat)
    requires line in multiset(b)
    ensures k < |b| && b[k] == line
  {
    k :| k < |b| && b[k] == line;
  }

  // Permutations without a common line are permutations.
  lemma RestsPermute(a: seq<string>, b: seq<string>, k: nat)
    requires multiset(a) == multiset(b) && a != [] && k < |b| && b[k] == a[0]
    ensures multiset(a[1..]) == multiset(b[..k] + b[k + 1..])
  {
    TakeOut(a, 0);
    TakeOut(b, k);
    assert a[..0] + a[1..] == a[1..];
  }

  lemma ResponsesTakeFirst(respond: string -> string, a: seq<string>)
    requires a != []
    ensures multiset(Responses(respond, a))
         == multiset(Responses(respond, [a[0]])) + multiset(Responses(respond, a[1..]))
  {
    ResponsesTakeOut(respond, a, 0);
    assert a[..0] + a[1..] == a[1..];
  }

  lemma Empty(b: seq<string>)
    requires multiset(b) == multiset([])
    ensures b == []
  {
    assert |multiset(b)| == |b|;
  }

  // ... nor, as a multiset, on the order in which lines are answered.
  lemma {:induction false} ResponsesPermute(respond: string -> string, a: seq<string>, b: seq<string>)
    requires multiset(a) == multiset(b)
    ensures multiset(Responses(respond, a)) == multiset(Responses(respond, b))
  {
    if a == [] {
      Empty(b);
    } else {
      var k := Find(b, a[0]);
      RestsPermute(a, b, k);
      ResponsesPermute(respond, a[1..], b[..k] + b[k + 1..]);
      ResponsesTakeFirst(respond, a);
      ResponsesTakeOut(respond, b, k);
    }
  }

  // The lines each chunk completes.
  function Portions(rest: string, chunks: seq<string>): seq<seq<string>>
    decreases |chunks|
  {
    if chunks == [] then []
    else
      var cut := S.Scan(chunks[0], 0, 0, rest);
      [cut.lines] + Portions(cut.rest, chunks[1..])
  }

  lemma {:induction false} PortionsAreSplit(rest: string, chunks: seq<string>)
    ensures P.Flat(Portions(rest, chunks)) == S.SplitFrom(rest, chunks).lines
    decreases |chunks|
  {
    if chunks != [] {
      var cut := S.Scan(chunks[0], 0, 0, rest);
      assert Portions(rest, chunks)[1..] == Portions(cut.rest, chunks[1..]);
      PortionsAreSplit(cut.rest, chunks[1..]);
    }
  }

  // The run reads the chunks, each reading step bringing the lines its scan yields, and joins all
  // workers, one of which served.
  predicate Served(chunks: seq<string>, n: nat, run: seq<P.Action>) {
    && P.Feasible(P.Initial(n), run) && P.Inputs(run) == Portions("", chunks)
    && var s := P.Exec(P.Initial(n), run);
      s.main.Finished? && Sums.Sum(s.workers, P.Served) > 0
  }

  // Then what the workers receive and answer are the lines of the chunks.
  lemma AllReceivedAndAnswered(chunks: seq<string>, n: nat, run: seq<P.Action>)
    requires Served(chunks, n, run)
    ensures var s := P.Exec(P.Initial(n), run);
      s.received == S.Split(chunks).lines && multiset(s.answered) == multiset(s.received)
  {
    var s := P.Exec(P.Initial(n), run);
    P.ReceivedIsInput(P.Initial(n), run);
    PortionsAreSplit("", chunks);
    assert s.received + [] == s.received && [] + S.Split(chunks).lines == S.Split(chunks).lines;
    P.EveryLineAnsweredOnce(n, run);
  }

  // Whatever the chunks in which the input arrives, whatever the number of workers and the
  // interleaving: once all workers are joined and some worker served, the responses to
  // non-blank lines are those to the lines of the stream, each exactly once.
  lemma ResponsesAreThoseOfTheStream(respond: string -> string, chunks: seq<string>, n: nat, run: seq<P.Action>)
    requires Indifferent(respond) && S.WellCut(chunks) && S.NulsLast(S.Flatten(chunks)) && Served(chunks, n, run)
    ensures multiset(Responses(respond, P.Exec(P.Initial(n), run).answered))
         == multiset(Responses(respond, S.Lines(S.Flatten(chunks))))
  {
    var s := P.Exec(P.Initial(n), run);
    AllReceivedAndAnswered(chunks, n, run);
    ResponsesPermute(respond, s.answered, s.received);
    S.RequestsIgnoreChunking(chunks);
    ResponsesToRequests(respond, s.received, S.Lines(S.Flatten(chunks)));
  }

  // ---------------------------------------------------------------- requests and their responses

  // A non-blank line, the text written for it, and the chain's answer to it if its address is valid.
  datatype Exchange = Exchange(request: string, response: string, answer: T.Option<C.Answer>)

  function ExchangeAt(r: V.Wire, s: V.State, i: nat): Exchange
    requires i < |s.pool.answered| == |s.written|
  {
    var line, k := s.pool.answered[i], V.PlaceOf(r, s.pool.answered, i);
    Exchange(S.Stripped(line), s.written[i],
             if V.Valid(r, line) && k < |s.chain.answers| then T.Some(s.chain.answers[k]) else T.None)
  }

  // The places of the non-blank lines among the first m.
  function NonBlanks(lines: seq<string>, m: nat): (places: seq<nat>)
    requires m <= |lines|
    ensures forall j :: 0 <= j < |places| ==> places[j] < m && S.Stripped(lines[places[j]]) != ""
    ensures forall i, j :: 0 <= i < j < |places| ==> places[i] < places[j]
  {
    if m == 0 then []
    else if S.Stripped(lines[m - 1]) == "" then NonBlanks(lines, m - 1)
    else NonBlanks(lines, m - 1) + [m - 1]
  }

  // What a function gives for the non-blank lines.
  function OfNonBlanks(f: string -> string, lines: seq<string>, m: nat): seq<string>
    requires m <= |lines|
  {
    var places := NonBlanks(lines, m);
    seq(|places|, j requires 0 <= j < |places| => f(lines[places[j]]))
  }

  lemma RequestsOfMore(respond: string -> string, lines: seq<string>, m: nat)
    requires 0 < m <= |lines|
    ensures Responses(respond, lines[..m])
         == Responses(respond, lines[..m - 1]) + if S.Stripped(lines[m - 1]) == "" then [] else [respond(lines[m - 1])]
  {
    var line := [lines[m - 1]];
    assert lines[..m] == lines[..m - 1] + line && line[1..] == [];
    ResponsesConcat(respond, lines[..m - 1], line);
  }

  lemma {:induction false} NonBlankResponses(respond: string -> string, lines: seq<string>, m: nat)
    requires m <= |lines|
    ensures OfNonBlanks(respond, lines, m) == Responses(respond, lines[..m])
  {
    if m > 0 {
      NonBlankResponses(respond, lines, m - 1);
      RequestsOfMore(respond, lines, m);
      if S.Stripped(lines[m - 1]) != "" {
        assert OfNonBlanks(respond, lines, m) == OfNonBlanks(respond, lines, m - 1) + [respond(lines[m - 1])];
      }
    }
  }

  // The exchanges for the non-blank lines, in the order in which they were answered.
  function Exchanges(r: V.Wire, s: V.State): seq<Exchange>
    requires |s.pool.answered| == |s.written|
  {
    var places := NonBlanks(s.pool.answered, |s.written|);
    seq(|places|, j requires 0 <= j < |places| => ExchangeAt(r, s, places[j]))
  }

  function RequestsOf(exchanges: seq<Exchange>): seq<string> {
    seq(|exchanges|, i requires 0 <= i < |exchanges| => exchanges[i].request)
  }

  function ResponsesOf(exchanges: seq<Exchange>): seq<string> {
    seq(|exchanges|, i requires 0 <= i < |exchanges| => exchanges[i].response)
  }

  lemma ExchangeRequests(r: V.Wire, s: V.State)
    requires |s.pool.answered| == |s.written|
    ensures RequestsOf(Exchanges(r, s)) == S.Requests(s.pool.answered)
  {
    var lines := s.pool.answered;
    NonBlankResponses(S.Stripped, lines, |lines|);
    assert lines[..|lines|] == lines;
    RequestsAsResponses(lines);
    assert RequestsOf(Exchanges(r, s)) == OfNonBlanks(S.Stripped, lines, |lines|);
  }

  lemma ExchangeResponses(respond: string -> string, r: V.Wire, s: V.State)
    requires |s.pool.answered| == |s.written|
    requires forall i :: 0 <= i < |s.written| ==> s.written[i] == respond(s.pool.answered[i])
    ensures ResponsesOf(Exchanges(r, s)) == Responses(respond, s.pool.answered)
  {
    var lines := s.pool.answered;
    NonBlankResponses(respond, lines, |lines|);
    assert lines[..|lines|] == lines;
    assert ResponsesOf(Exchanges(r, s)) == OfNonBlanks(respond, lines, |lines|);
  }

  // The place among the chain's answers of the one in exchange number j.
  function AnswerPlace(r: V.Wire, s: V.State, j: nat): nat
    requires |s.pool.answered| == |s.written| && j < |Exchanges(r, s)|
  {
    V.PlaceOf(r, s.pool.answered, NonBlanks(s.pool.answered, |s.written|)[j])
  }

  // Each answer is given in one exchange only.
  predicate OwnAnswers(r: V.Wire, s: V.State)
    requires |s.pool.answered| == |s.written|
  {
    && (forall j :: 0 <= j < |Exchanges(r, s)| && Exchanges(r, s)[j].answer.Some? ==>
          AnswerPlace(r, s, j) < |s.chain.answers|
          && Exchanges(r, s)[j].answer.value == s.chain.answers[AnswerPlace(r, s, j)])
    && (forall i, j :: 0 <= i < j < |Exchanges(r, s)| && Exchanges(r, s)[i].answer.Some? ==>
          AnswerPlace(r, s, i) < AnswerPlace(r, s, j))
  }

  lemma ExchangesOwn(r: V.Wire, s: V.State)
    requires |s.pool.answered| == |s.written|
    ensures OwnAnswers(r, s)
  {
    var places, exchanges := NonBlanks(s.pool.answered, |s.written|), Exchanges(r, s);
    forall i, j | 0 <= i < j < |exchanges| && exchanges[i].answer.Some?
      ensures AnswerPlace(r, s, i) < AnswerPlace(r, s, j)
    {
      V.OwnAnswer(r, s.pool.answered, places[i], places[j]);
    }
  }

  lemma {:induction false} RequestsAsResponses(lines: seq<string>)
    ensures Responses(S.Stripped, lines) == S.Requests(lines)
  {
    if lines != [] {
      RequestsAsResponses(lines[1..]);
    }
  }

  // The requests answered are those of the stream, each as often.
  lemma RequestsAnswered(chunks: seq<string>, n: nat, run: seq<P.Action>)
    requires S.WellCut(chunks) && S.NulsLast(S.Flatten(chunks)) && Served(chunks, n, run)
    ensures multiset(S.Requests(P.Exec(P.Initial(n), run).answered)) == multiset(S.Requests(S.Lines(S.Flatten(chunks))))
  {
    var s := P.Exec(P.Initial(n), run);
    AllReceivedAndAnswered(chunks, n, run);
    ResponsesPermute(S.Stripped, s.answered, s.received);
    RequestsAsResponses(s.answered);
    RequestsAsResponses(s.received);
    S.RequestsIgnoreChunking(chunks);
  }

  // An end state of the service, and what it answered.
  function Final(c: C.Config, r: V.Wire, store0: map<string, string>, n: nat, run: seq<V.Action>): V.State
    requires V.Feasible(c, r, V.Initial(n, store0), run)
  {
    V.Exec(c, r, V.Initial(n, store0), run)
  }

  // A rejection of the request, or the formatted answer to it, which is accounted for.
  ghost predicate Answered(c: C.Config, r: V.Wire, store0: map<string, string>, chain: C.State, e: Exchange) {
    if V.Valid(r, e.request) then
      e.answer.Some? && V.Formats(r, e.answer.value, e.request, e.response)
      && V.Settled(c, store0, chain, e.answer.value)
    else e.answer.None? && e.response == V.Rejection(r, e.request)
  }

  // Whatever is cached, evicted and reloaded while the stream is read and served, however it is
  // cut: the requests answered are those of the stream, each as often, every response is a
  // rejection or the formatted answer to its own request, and no answer serves two requests.
  lemma WorkersAnswerTheStream(c: C.Config, r: V.Wire, store0: map<string, string>, chunks: seq<string>,
                               n: nat, run: seq<V.Action>)
    requires Blind(r) && S.WellCut(chunks) && S.NulsLast(S.Flatten(chunks))
    requires V.Feasible(c, r, V.Initial(n, store0), run) && Served(chunks, n, V.PoolRun(run))
    ensures var s := Final(c, r, store0, n, run);
      && |s.pool.answered| == |s.written|
      && multiset(RequestsOf(Exchanges(r, s))) == multiset(S.Requests(S.Lines(S.Flatten(chunks))))
      && OwnAnswers(r, s)
      && forall e :: e in Exchanges(r, s) ==> Answered(c, r, store0, s.chain, e)
  {
    var s := Final(c, r, store0, n, run);
    V.RunsOfBothParts(c, r, V.Initial(n, store0), run);
    V.EveryResponseAccounted(c, r, store0, n, run);
    RequestsAnswered(chunks, n, V.PoolRun(run));
    ExchangeRequests(r, s);
    ExchangesOwn(r, s);
    forall i | 0 <= i < |s.written| ensures Answered(c, r, store0, s.chain, ExchangeAt(r, s, i)) {
      AccountedExchange(c, r, store0, s, i);
    }
  }

  lemma AccountedExchange(c: C.Config, r: V.Wire, store0: map<string, string>, s: V.State, i: nat)
    requires Blind(r) && i < |s.pool.answered| == |s.written| && V.AccountedFor(c, r, store0, s, i)
    ensures Answered(c, r, store0, s.chain, ExchangeAt(r, s, i))
  {
    assert r.parse(S.Stripped(s.pool.answered[i])) == r.parse(s.pool.answered[i]);
  }

  ghost predicate AnsweredCurrently(c: C.Config, r: V.Wire, e: Exchange) {
    if V.Valid(r, e.request) then
      e.answer.Some? && V.Formats(r, e.answer.value, e.request, e.response) && X.Current(c, e.answer.value)
    else e.answer.None? && e.response == V.Rejection(r, e.request)
  }

  // Where the cache holds only what the backends may say while it is asked, the answer in each of
  // these exchanges is current.
  lemma ResponsesToTheStreamAreCurrent(c: C.Config, r: V.Wire, store0: map<string, string>, chunks: seq<string>,
                                       n: nat, run: seq<V.Action>)
    requires Blind(r) && V.RenewedForLines(c, r, n, store0)
    requires V.Feasible(c, r, V.Initial(n, store0), run) && Served(chunks, n, V.PoolRun(run))
    ensures var s := Final(c, r, store0, n, run);
      && |s.pool.answered| == |s.written|
      && forall e :: e in Exchanges(r, s) ==> AnsweredCurrently(c, r, e)
  {
    var s := Final(c, r, store0, n, run);
    V.ResponsesAreCurrent(c, r, store0, n, run);
    forall i | 0 <= i < |s.written| ensures AnsweredCurrently(c, r, ExchangeAt(r, s, i)) {
      CurrentExchange(c, r, s, i);
    }
  }

  lemma CurrentExchange(c: C.Config, r: V.Wire, s: V.State, i: nat)
    requires Blind(r) && i < |s.pool.answered| == |s.written| && V.IsCurrent(c, r, s, i)
    ensures AnsweredCurrently(c, r, ExchangeAt(r, s, i))
  {
    assert r.parse(S.Stripped(s.pool.answered[i])) == r.parse(s.pool.answered[i]);
  }

  // Where reloads change no reply and the initial cache agrees, the responses are, as a multiset,
  // what the plugin list without its cache answers to the lines of the stream.
  lemma ResponsesToTheStreamArePure(c: C.Config, r: V.Wire, store0: map<string, string>, chunks: seq<string>,
                                    n: nat, run: seq<V.Action>)
    requires Y.Steady(c) && Y.Agreeing(c, store0)
    requires Blind(r) && S.WellCut(chunks) && S.NulsLast(S.Flatten(chunks))
    requires V.Feasible(c, r, V.Initial(n, store0), run) && Served(chunks, n, V.PoolRun(run))
    ensures var s := Final(c, r, store0, n, run);
      && |s.pool.answered| == |s.written|
      && multiset(ResponsesOf(Exchanges(r, s)))
         == multiset(Responses(Responder(c, r), S.Lines(S.Flatten(chunks))))
  {
    var s := Final(c, r, store0, n, run);
    V.RunsOfBothParts(c, r, V.Initial(n, store0), run);
    V.ResponsesArePure(c, r, store0, n, run);
    ExchangeResponses(Responder(c, r), r, s);
    BlindIsIndifferent(c, r);
    ResponsesAreThoseOfTheStream(Responder(c, r), chunks, n, V.PoolRun(run));
  }

  // With no blank line behind another line in the input, every line of the stream is answered
  // exactly once and nothing else is.
  lemma LinesAnsweredAreThoseOfTheStream(chunks: seq<string>, n: nat, run: seq<P.Action>)
    requires S.WellCut(chunks) && S.NoBlankLine(S.Flatten(chunks)) && S.NulsLast(S.Flatten(chunks))
    requires Served(chunks, n, run)
    ensures multiset(P.Exec(P.Initial(n), run).answered) == multiset(S.Lines(S.Flatten(chunks)))
  {
    AllReceivedAndAnswered(chunks, n, run);
    S.ChunkingInvisibleExactlyWhen(S.Flatten(chunks));
  }
}
