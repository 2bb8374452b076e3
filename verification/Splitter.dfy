/** The streaming line splitter on standard input (src/core/main.c, stdin_read_cb).

    After a newline the loop advances its index twice, so the byte behind a newline is never
    scanned. Lines and remainder can therefore start with a newline; nothing is lost. A line is
    copied as a C string and the remainder is kept only if it does not begin with NUL: bytes can
    be lost exactly where the input holds NUL. */
module Splitter {
  import opened Buffer

  const CHUNK_SIZE := 4096

  // Lines put on the queue and the remainder kept for the next chunk.
  datatype Cut = Cut(lines: seq<string>, rest: string)

  // The scan of one chunk from index i, the current line having begun at `start` behind the
  // remainder `rest`. After a newline the index moves two places on.
  function Scan(chunk: string, start: nat, i: nat, rest: string): Cut
    requires start <= i && start <= |chunk|
    decreases |chunk| - i
  {
    if i >= |chunk| then Cut([], if start < |chunk| && chunk[start] != '\0' then rest + chunk[start..] else "")
    else if chunk[i] == '\n' then
      var next := Scan(chunk, i + 1, i + 2, "");
      Cut([rest + BeforeNul(chunk[start..i])] + next.lines, next.rest)
    else Scan(chunk, start, i + 1, rest)
  }

  // All chunks in turn, starting with a remainder.
  function SplitFrom(rest: string, chunks: seq<string>): Cut
    decreases |chunks|
  {
    if chunks == [] then Cut([], rest)
    else
      var first := Scan(chunks[0], 0, 0, rest);
      var more := SplitFrom(first.rest, chunks[1..]);
      Cut(first.lines + more.lines, more.rest)
  }

  function Split(chunks: seq<string>): Cut { SplitFrom("", chunks) }

  function Flatten(chunks: seq<string>): string {
    if chunks == [] then "" else chunks[0] + Flatten(chunks[1..])
  }

  // Every line with its newline put back.
  function Unlines(lines: seq<string>): string {
    if lines == [] then "" else lines[0] + "\n" + Unlines(lines[1..])
  }

  // The newline-terminated lines of a stream.
  function Lines(stream: string): seq<string> { LinesAfter("", stream) }

  function LinesAfter(begun: string, stream: string): seq<string>
    decreases |stream|
  {
    if stream == "" then []
    else if stream[0] == '\n' then [begun] + LinesAfter("", stream[1..])
    else LinesAfter(begun + [stream[0]], stream[1..])
  }

  // The line a worker parses: one leading newline is skipped as white space.
  function Stripped(line: string): string {
    if line != "" && line[0] == '\n' then line[1..] else line
  }

  // The non-empty requests among the lines.
  function Requests(lines: seq<string>): seq<string> {
    if lines == [] then []
    else (if Stripped(lines[0]) == "" then [] else [Stripped(lines[0])]) + Requests(lines[1..])
  }

  // A newline stands only at the front.
  predicate NewlineInFront(line: string) { '\n' !in Stripped(line) }

  // ---------------------------------------------------------------- lists of lines

  lemma {:induction false} UnlinesConcat(a: seq<string>, b: seq<string>)
    ensures Unlines(a + b) == Unlines(a) + Unlines(b)
  {
    if a == [] {
      assert a + b == b;
    } else {
      assert (a + b)[1..] == a[1..] + b;
      UnlinesConcat(a[1..], b);
    }
  }

  lemma {:induction false} RequestsConcat(a: seq<string>, b: seq<string>)
    ensures Requests(a + b) == Requests(a) + Requests(b)
  {
    if a == [] {
      assert a + b == b;
    } else {
      assert (a + b)[1..] == a[1..] + b;
      RequestsConcat(a[1..], b);
    }
  }

  // Text without newline followed by a stream.
  lemma {:induction false} LinesAfterText(begun: string, text: string, stream: string)
    requires '\n' !in text
    ensures LinesAfter(begun, text + stream) == LinesAfter(begun + text, stream)
    decreases |text|
  {
    if text == "" {
      assert text + stream == stream && begun + text == begun;
    } else {
      assert (text + stream)[1..] == text[1..] + stream;
      assert begun + [text[0]] + text[1..] == begun + text;
      assert text[0] in text;
      LinesAfterText(begun + [text[0]], text[1..], stream);
    }
  }

  lemma LinesOfClean(line: string, stream: string)
    requires '\n' !in line
    ensures Lines(line + "\n" + stream) == [line] + Lines(stream)
    ensures Requests(Lines(line + "\n" + stream)) == Requests([line]) + Requests(Lines(stream))
  {
    assert line + ("\n" + stream) == line + "\n" + stream && "" + line == line;
    LinesAfterText("", line, "\n" + stream);
    assert ("\n" + stream)[1..] == stream;
    RequestsConcat([line], Lines(stream));
  }

  lemma RequestsOfOne(line: string)
    ensures Requests([line]) == if Stripped(line) == "" then [] else [Stripped(line)]
  {
    assert [line][1..] == [];
  }

  // One enqueued line, newline put back, contributes its request and nothing else.
  lemma LinesOfFirst(line: string, stream: string)
    requires NewlineInFront(line)
    ensures Requests(Lines(line + "\n" + stream)) == Requests([line]) + Requests(Lines(stream))
  {
    var body := Stripped(line);
    LinesOfClean(body, stream);
    if line != body {
      assert line == "\n" + body;
      RequestsOfMarked(body, stream);
    }
  }

  lemma LinesOfNewline(more: string)
    ensures Lines("\n" + more) == [""] + Lines(more)
    ensures Requests(Lines("\n" + more)) == Requests(Lines(more))
  {
    assert ("\n" + more)[1..] == more;
    RequestsOfOne("");
    RequestsConcat([""], Lines(more));
  }

  lemma RequestsOfMarked(body: string, stream: string)
    requires '\n' !in body
    ensures Requests(Lines("\n" + body + "\n" + stream)) == Requests(["\n" + body]) + Requests(Lines(stream))
  {
    assert "\n" + body + "\n" + stream == "\n" + (body + "\n" + stream);
    LinesOfNewline(body + "\n" + stream);
    LinesOfClean(body, stream);
    RequestsOfOne(body);
    RequestsOfOne("\n" + body);
    assert ("\n" + body)[1..] == body;
    assert body != "" ==> body[0] in body;
  }

  // An unterminated remainder contributes no request.
  lemma LinesOfRest(rest: string)
    requires NewlineInFront(rest)
    ensures Requests(Lines(rest)) == []
    ensures '\n' !in rest ==> Lines(rest) == []
  {
    var body := Stripped(rest);
    LinesAfterText("", body, "");
    assert body + "" == body;
    if rest != body {
      assert rest == "\n" + body;
      LinesOfNewline(body);
    }
  }

  lemma {:induction false} RequestsOfStream(lines: seq<string>, rest: string)
    requires NewlineInFront(rest) && forall i :: 0 <= i < |lines| ==> NewlineInFront(lines[i])
    ensures Requests(Lines(Unlines(lines) + rest)) == Requests(lines)
  {
    if lines == [] {
      assert Unlines(lines) + rest == rest;
      LinesOfRest(rest);
    } else {
      var more := Unlines(lines[1..]) + rest;
      assert Unlines(lines) + rest == lines[0] + "\n" + more;
      LinesOfFirst(lines[0], more);
      RequestsOfStream(lines[1..], rest);
      assert lines == [lines[0]] + lines[1..];
      RequestsConcat([lines[0]], lines[1..]);
    }
  }

  // ---------------------------------------------------------------- conservation

  lemma NulFreeSlice(chunk: string, start: nat, i: nat)
    requires '\0' !in chunk && start <= i <= |chunk|
    ensures BeforeNul(chunk[start..i]) == chunk[start..i]
  {
    assert forall k :: start <= k < i ==> chunk[k] in chunk;
  }

  // No byte is lost or added by the scan of one chunk without NUL.
  lemma {:induction false} ScanConserves(chunk: string, start: nat, i: nat, rest: string)
    requires start <= i && start <= |chunk| && '\0' !in chunk && (start == |chunk| ==> rest == "")
    ensures var cut := Scan(chunk, start, i, rest); Unlines(cut.lines) + cut.rest == rest + chunk[start..]
    decreases |chunk| - i
  {
    if i < |chunk| {
      if chunk[i] == '\n' {
        ScanConserves(chunk, i + 1, i + 2, "");
        NulFreeSlice(chunk, start, i);
        var next := Scan(chunk, i + 1, i + 2, "");
        var line := rest + chunk[start..i];
        assert ([line] + next.lines)[1..] == next.lines;
        assert chunk[start..] == chunk[start..i] + "\n" + chunk[i + 1..];
        assert Unlines([line] + next.lines) + next.rest == line + "\n" + (Unlines(next.lines) + next.rest);
      } else {
        ScanConserves(chunk, start, i + 1, rest);
      }
    }
  }

  lemma GrowLine(text: string, ch: char)
    requires NewlineInFront(text) && ch != '\n'
    ensures NewlineInFront(text + [ch])
  {
    if text != "" && text[0] == '\n' {
      assert (text + [ch])[1..] == text[1..] + [ch];
    }
  }

  // Only the first byte of a line, skipped by the scan, can be a newline.
  lemma {:induction false} ScanNewlines(chunk: string, start: nat, i: nat, rest: string)
    requires start <= i && start <= |chunk| && '\0' !in chunk
    requires i <= |chunk| ==> NewlineInFront(rest + chunk[start..i])
    requires i > |chunk| ==> i == |chunk| + 1 && rest == "" && start == |chunk|
    ensures var cut := Scan(chunk, start, i, rest);
      NewlineInFront(cut.rest) && forall k :: 0 <= k < |cut.lines| ==> NewlineInFront(cut.lines[k])
    decreases |chunk| - i
  {
    if i < |chunk| {
      if chunk[i] == '\n' {
        NulFreeSlice(chunk, start, i);
        if i + 2 <= |chunk| {
          assert "" + chunk[i + 1..i + 2] == [chunk[i + 1]];
        }
        ScanNewlines(chunk, i + 1, i + 2, "");
      } else {
        assert rest + chunk[start..i + 1] == rest + chunk[start..i] + [chunk[i]];
        GrowLine(rest + chunk[start..i], chunk[i]);
        ScanNewlines(chunk, start, i + 1, rest);
      }
    } else if i == |chunk| {
      assert chunk[start..i] == chunk[start..];
    }
  }

  // What read() delivers.
  predicate WellCut(chunks: seq<string>) {
    forall k :: 0 <= k < |chunks| ==> 1 <= |chunks[k]| < CHUNK_SIZE
  }

  predicate Plain(chunks: seq<string>) { WellCut(chunks) && '\0' !in Flatten(chunks) }

  lemma PlainTail(chunks: seq<string>)
    requires Plain(chunks) && chunks != []
    ensures '\0' !in chunks[0] && Plain(chunks[1..])
  {
    assert forall k :: 0 <= k < |chunks[1..]| ==> chunks[1..][k] == chunks[k + 1];
    assert forall ch :: ch in chunks[0] || ch in Flatten(chunks[1..]) ==> ch in Flatten(chunks);
  }

  // Between chunks the lines enqueued, each with a newline, and the remainder are exactly the
  // bytes read, and newlines inside them stand in front.
  lemma {:induction false} SplitConserves(rest: string, chunks: seq<string>)
    requires NewlineInFront(rest) && Plain(chunks)
    ensures var cut := SplitFrom(rest, chunks);
      && Unlines(cut.lines) + cut.rest == rest + Flatten(chunks)
      && NewlineInFront(cut.rest)
      && forall k :: 0 <= k < |cut.lines| ==> NewlineInFront(cut.lines[k])
    decreases |chunks|
  {
    if chunks != [] {
      var first := Scan(chunks[0], 0, 0, rest);
      var more := SplitFrom(first.rest, chunks[1..]);
      PlainTail(chunks);
      ScanConserves(chunks[0], 0, 0, rest);
      assert rest + chunks[0][0..0] == rest;
      ScanNewlines(chunks[0], 0, 0, rest);
      SplitConserves(first.rest, chunks[1..]);
      UnlinesConcat(first.lines, more.lines);
      Glue(Unlines(first.lines), first.rest, Unlines(more.lines), more.rest, rest, chunks[0], Flatten(chunks[1..]));
    }
  }

  lemma Glue(u: string, r: string, v: string, q: string, rest: string, chunk: string, tail: string)
    requires u + r == rest + chunk && v + q == r + tail
    ensures u + v + q == rest + (chunk + tail)
  {
    assert u + v + q == u + (v + q) && u + (r + tail) == (u + r) + tail;
  }

  lemma PlainRequests(chunks: seq<string>)
    requires Plain(chunks)
    ensures Requests(Split(chunks).lines) == Requests(Lines(Flatten(chunks)))
  {
    SplitConserves("", chunks);
    var cut := Split(chunks);
    RequestsOfStream(cut.lines, cut.rest);
    assert "" + Flatten(chunks) == Flatten(chunks);
  }

  // ---------------------------------------------------------------- blank lines

  // The lines enqueued are the lines of the stream for every way of cutting it.
  ghost predicate ChunkingInvisible(stream: string) {
    forall chunks :: WellCut(chunks) && Flatten(chunks) == stream ==> Split(chunks).lines == Lines(stream)
  }

  predicate BlankLineAt(stream: string, p: nat) {
    p + 1 < |stream| && stream[p] == '\n' && stream[p + 1] == '\n'
  }

  predicate NoBlankLine(stream: string) {
    forall p :: 0 <= p < |stream| ==> !BlankLineAt(stream, p)
  }

  // As long as no newline was passed over, the first line enqueued holds none.
  lemma {:induction false} ScanFirstLine(chunk: string, start: nat, i: nat, rest: string)
    requires start <= i <= |chunk| && '\n' !in rest + chunk[start..i]
    ensures var cut := Scan(chunk, start, i, rest);
      if cut.lines == [] then '\n' !in cut.rest else '\n' !in cut.lines[0]
    decreases |chunk| - i
  {
    if i < |chunk| && chunk[i] != '\n' {
      assert rest + chunk[start..i + 1] == rest + chunk[start..i] + [chunk[i]];
      ScanFirstLine(chunk, start, i + 1, rest);
    } else if i == |chunk| {
      assert chunk[start..i] == chunk[start..];
    }
  }

  lemma {:induction false} SplitFirstLine(rest: string, chunks: seq<string>)
    requires '\n' !in rest
    ensures var cut := SplitFrom(rest, chunks);
      if cut.lines == [] then '\n' !in cut.rest else '\n' !in cut.lines[0]
    decreases |chunks|
  {
    if chunks != [] {
      assert rest + chunks[0][0..0] == rest;
      ScanFirstLine(chunks[0], 0, 0, rest);
      var first := Scan(chunks[0], 0, 0, rest);
      if first.lines == [] {
        SplitFirstLine(first.rest, chunks[1..]);
      }
    }
  }

  // Without a blank line in the stream the decomposition into lines is the obvious one.
  lemma {:induction false} ExactWithoutBlankLine(lines: seq<string>, rest: string)
    requires NewlineInFront(rest) && forall i :: 0 <= i < |lines| ==> NewlineInFront(lines[i])
    requires if lines == [] then '\n' !in rest else '\n' !in lines[0]
    requires NoBlankLine(Unlines(lines) + rest)
    ensures Lines(Unlines(lines) + rest) == lines
  {
    var stream := Unlines(lines) + rest;
    if lines == [] {
      assert stream == rest;
      LinesOfRest(rest);
    } else {
      var more := Unlines(lines[1..]) + rest;
      assert stream == lines[0] + "\n" + more;
      var n := |lines[0]|;
      assert !BlankLineAt(stream, n);
      forall p | 0 <= p < |more| ensures !BlankLineAt(more, p) {
        assert !BlankLineAt(stream, n + 1 + p);
      }
      assert more != "" ==> more[0] == stream[n + 1];
      assert |lines| > 1 ==> |lines[1]| > 0 ==> more[0] == lines[1][0];
      assert |lines| == 1 ==> more == rest;
      LinesOfClean(lines[0], more);
      ExactWithoutBlankLine(lines[1..], rest);
    }
  }

  // The lines of a stream hold no newline, and neither does what follows them.
  lemma {:induction false} LinesAreClean(begun: string, stream: string) returns (tail: string)
    requires '\n' !in begun
    ensures forall i :: 0 <= i < |LinesAfter(begun, stream)| ==> '\n' !in LinesAfter(begun, stream)[i]
    ensures begun + stream == Unlines(LinesAfter(begun, stream)) + tail && '\n' !in tail
    decreases |stream|
  {
    if stream == "" {
      tail := begun;
    } else if stream[0] == '\n' {
      tail := LinesAreClean("", stream[1..]);
      assert begun + stream == begun + "\n" + ("" + stream[1..]);
      assert LinesAfter(begun, stream)[1..] == LinesAfter("", stream[1..]);
    } else {
      tail := LinesAreClean(begun + [stream[0]], stream[1..]);
      assert begun + stream == begun + [stream[0]] + stream[1..];
    }
  }

  // A newline passed over stays inside some line or the remainder.
  ghost predicate Inside(cut: Cut) {
    '\n' in cut.rest || exists k :: 0 <= k < |cut.lines| && '\n' in cut.lines[k]
  }

  lemma {:induction false} ScanKeepsInside(chunk: string, start: nat, i: nat, rest: string)
    requires start <= i && start < |chunk| && '\0' !in chunk && '\n' in rest
    ensures Inside(Scan(chunk, start, i, rest))
    decreases |chunk| - i
  {
    if i < |chunk| {
      if chunk[i] == '\n' {
        var cut := Scan(chunk, start, i, rest);
        assert cut.lines[0] == rest + BeforeNul(chunk[start..i]);
      } else {
        ScanKeepsInside(chunk, start, i + 1, rest);
      }
    }
  }

  lemma {:induction false} SplitKeepsInside(rest: string, chunks: seq<string>)
    requires '\n' in rest && Plain(chunks)
    ensures Inside(SplitFrom(rest, chunks))
    decreases |chunks|
  {
    if chunks != [] {
      PlainTail(chunks);
      ScanKeepsInside(chunks[0], 0, 0, rest);
      var first := Scan(chunks[0], 0, 0, rest);
      var more := SplitFrom(first.rest, chunks[1..]);
      if '\n' in first.rest {
        SplitKeepsInside(first.rest, chunks[1..]);
        if '\n' !in more.rest {
          var k :| 0 <= k < |more.lines| && '\n' in more.lines[k];
          assert (first.lines + more.lines)[|first.lines| + k] == more.lines[k];
        }
      } else {
        var k :| 0 <= k < |first.lines| && '\n' in first.lines[k];
        assert (first.lines + more.lines)[k] == first.lines[k];
      }
    }
  }

  lemma {:induction false} SplitConcat(rest: string, a: seq<string>, b: seq<string>)
    ensures var cut := SplitFrom(rest, a);
      SplitFrom(rest, a + b) == Cut(cut.lines + SplitFrom(cut.rest, b).lines, SplitFrom(cut.rest, b).rest)
    decreases |a|
  {
    if a == [] {
      assert a + b == b;
    } else {
      assert (a + b)[1..] == a[1..] + b;
      SplitConcat(Scan(a[0], 0, 0, rest).rest, a[1..], b);
    }
  }

  lemma {:induction false} FlattenConcat(a: seq<string>, b: seq<string>)
    ensures Flatten(a + b) == Flatten(a) + Flatten(b)
  {
    if a == [] {
      assert a + b == b;
    } else {
      assert (a + b)[1..] == a[1..] + b;
      FlattenConcat(a[1..], b);
    }
  }

  // One byte per chunk.
  function Singles(stream: string): (chunks: seq<string>)
    ensures WellCut(chunks) && Flatten(chunks) == stream
  {
    if stream == "" then [] else
      assert ([[stream[0]]] + Singles(stream[1..]))[1..] == Singles(stream[1..]);
      [[stream[0]]] + Singles(stream[1..])
  }

  // A decomposition with a newline inside is not the list of lines.
  lemma InsideIsNotExact(stream: string, cut: Cut)
    requires Unlines(cut.lines) + cut.rest == stream && Inside(cut)
    ensures cut.lines != Lines(stream)
  {
    var tail := LinesAreClean("", stream);
    assert "" + stream == stream;
    assert cut.rest == stream[|Unlines(cut.lines)|..];
    assert tail == stream[|Unlines(Lines(stream))|..];
  }

  // Reading both newlines of a blank line in one chunk hides the blank line.
  lemma HideBlankLine(stream: string, p: nat) returns (chunks: seq<string>)
    requires BlankLineAt(stream, p) && '\0' !in stream
    ensures WellCut(chunks) && Flatten(chunks) == stream && Split(chunks).lines != Lines(stream)
  {
    assert forall k :: 0 <= k < |stream| ==> stream[k] in stream;
    var before, after := Singles(stream[..p]), Singles(stream[p + 2..]);
    chunks := before + (["\n\n"] + after);
    PairFlattens(stream, p);
    PairHidden(before, after);
    SplitConserves("", chunks);
    assert "" + stream == stream;
    InsideIsNotExact(stream, Split(chunks));
  }

  lemma PairFlattens(stream: string, p: nat)
    requires BlankLineAt(stream, p)
    ensures var chunks := Singles(stream[..p]) + (["\n\n"] + Singles(stream[p + 2..]));
      WellCut(chunks) && Flatten(chunks) == stream
  {
    var before, after := Singles(stream[..p]), Singles(stream[p + 2..]);
    assert (["\n\n"] + after)[1..] == after;
    FlattenConcat(before, ["\n\n"] + after);
    assert stream[p..p + 2] == "\n\n";
    assert stream == stream[..p] + (stream[p..p + 2] + stream[p + 2..]);
  }

  lemma PairHidden(before: seq<string>, after: seq<string>)
    requires Plain(after)
    ensures Inside(Split(before + (["\n\n"] + after)))
  {
    var pair := "\n\n";
    SplitConcat("", before, [pair] + after);
    var early := SplitFrom("", before);
    assert Scan(pair, 1, 2, "").rest == "\n";
    assert Scan(pair, 0, 0, early.rest).rest == "\n";
    SplitKeepsInside("\n", after);
    PairInside(early.rest, pair, after);
    var late := SplitFrom(early.rest, [pair] + after);
    if '\n' !in late.rest {
      var k :| 0 <= k < |late.lines| && '\n' in late.lines[k];
      assert (early.lines + late.lines)[|early.lines| + k] == late.lines[k];
    }
  }

  lemma PairInside(rest: string, pair: string, after: seq<string>)
    requires Scan(pair, 0, 0, rest).rest == "\n" && Inside(SplitFrom("\n", after))
    ensures Inside(SplitFrom(rest, [pair] + after))
  {
    assert ([pair] + after)[1..] == after;
    var first, more := Scan(pair, 0, 0, rest), SplitFrom("\n", after);
    if '\n' !in more.rest {
      var k :| 0 <= k < |more.lines| && '\n' in more.lines[k];
      assert (first.lines + more.lines)[|first.lines| + k] == more.lines[k];
    }
  }

  // ---------------------------------------------------------------- NUL bytes

  // No NUL stands in front of a newline.
  predicate NulsLast(stream: string) {
    forall p, q :: 0 <= p < q < |stream| && stream[q] == '\n' ==> stream[p] != '\0'
  }

  // The same text with blanks for NULs.
  function Clean(s: string): (t: string)
    ensures |t| == |s| && '\0' !in t
    ensures forall i :: 0 <= i < |s| ==> t[i] == if s[i] == '\0' then ' ' else s[i]
    ensures '\0' !in s ==> t == s
  {
    seq(|s|, i requires 0 <= i < |s| => if s[i] == '\0' then ' ' else s[i])
  }

  function CleanAll(chunks: seq<string>): (cleaned: seq<string>)
    ensures |cleaned| == |chunks| && forall i :: 0 <= i < |chunks| ==> cleaned[i] == Clean(chunks[i])
  {
    seq(|chunks|, i requires 0 <= i < |chunks| => Clean(chunks[i]))
  }

  lemma {:induction false} FlattenClean(chunks: seq<string>)
    ensures Flatten(CleanAll(chunks)) == Clean(Flatten(chunks))
  {
    if chunks != [] {
      assert CleanAll(chunks)[1..] == CleanAll(chunks[1..]);
      FlattenClean(chunks[1..]);
      CleanConcat(chunks[0], Flatten(chunks[1..]));
    }
  }

  lemma CleanConcat(a: string, b: string)
    ensures Clean(a + b) == Clean(a) + Clean(b)
  {
  }

  lemma {:induction false} ScanWithoutNewline(chunk: string, start: nat, i: nat, rest: string)
    requires start <= i && start <= |chunk| && '\n' !in chunk
    ensures Scan(chunk, start, i, rest).lines == []
    decreases |chunk| - i
  {
    if i < |chunk| {
      assert chunk[i] in chunk;
      ScanWithoutNewline(chunk, start, i + 1, rest);
    }
  }

  lemma {:induction false} SplitWithoutNewline(rest: string, chunks: seq<string>)
    requires '\n' !in Flatten(chunks)
    ensures SplitFrom(rest, chunks).lines == []
    decreases |chunks|
  {
    if chunks != [] {
      ScanWithoutNewline(chunks[0], 0, 0, rest);
      SplitWithoutNewline(Scan(chunks[0], 0, 0, rest).rest, chunks[1..]);
    }
  }

  lemma {:induction false} ScanClean(chunk: string, start: nat, i: nat, rest: string)
    requires start <= i && start <= |chunk| && NulsLast(chunk)
    ensures Scan(chunk, start, i, rest).lines == Scan(Clean(chunk), start, i, rest).lines
    decreases |chunk| - i
  {
    if i < |chunk| {
      if chunk[i] == '\n' {
        assert chunk[start..i] == Clean(chunk)[start..i];
        NulFreeSlice(Clean(chunk), start, i);
        ScanClean(chunk, i + 1, i + 2, "");
      } else {
        ScanClean(chunk, start, i + 1, rest);
      }
    }
  }

  lemma NulsLastSplit(a: string, b: string)
    requires NulsLast(a + b)
    ensures NulsLast(a) && NulsLast(b) && ('\n' in b ==> '\0' !in a)
  {
    forall p, q | 0 <= p < q < |a| && a[q] == '\n' ensures a[p] != '\0' {
      assert (a + b)[q] == '\n' && (a + b)[p] == a[p];
    }
    forall p, q | 0 <= p < q < |b| && b[q] == '\n' ensures b[p] != '\0' {
      assert (a + b)[|a| + q] == '\n' && (a + b)[|a| + p] == b[p];
    }
    if '\n' in b {
      var q :| 0 <= q < |b| && b[q] == '\n';
      assert (a + b)[|a| + q] == '\n';
      forall p | 0 <= p < |a| ensures a[p] != '\0' {
        assert (a + b)[p] == a[p];
      }
    }
  }

  // NULs behind the last newline do not reach any line.
  lemma {:induction false} SplitClean(rest: string, chunks: seq<string>)
    requires NulsLast(Flatten(chunks))
    ensures SplitFrom(rest, chunks).lines == SplitFrom(rest, CleanAll(chunks)).lines
    decreases |chunks|
  {
    if chunks != [] {
      var tail := Flatten(chunks[1..]);
      assert CleanAll(chunks)[1..] == CleanAll(chunks[1..]);
      NulsLastSplit(chunks[0], tail);
      ScanClean(chunks[0], 0, 0, rest);
      if '\n' in tail {
        SplitClean(Scan(chunks[0], 0, 0, rest).rest, chunks[1..]);
      } else {
        FlattenClean(chunks[1..]);
        SplitWithoutNewline(Scan(chunks[0], 0, 0, rest).rest, chunks[1..]);
        SplitWithoutNewline(Scan(Clean(chunks[0]), 0, 0, rest).rest, CleanAll(chunks[1..]));
      }
    }
  }

  lemma LinesWithoutNewline(begun: string, stream: string)
    requires '\n' !in stream
    ensures LinesAfter(begun, stream) == []
  {
    LinesAfterText(begun, stream, "");
    assert stream + "" == stream;
  }

  lemma {:induction false} LinesClean(begun: string, stream: string)
    requires NulsLast(stream)
    ensures LinesAfter(begun, Clean(stream)) == LinesAfter(begun, stream)
    decreases |stream|
  {
    if stream != "" {
      assert Clean(stream)[1..] == Clean(stream[1..]);
      assert stream == stream[..1] + stream[1..];
      NulsLastSplit(stream[..1], stream[1..]);
      if stream[0] == '\0' {
        assert stream[..1][0] == '\0';
        LinesWithoutNewline(begun + "\0", stream[1..]);
        LinesWithoutNewline(begun + " ", Clean(stream[1..]));
      } else {
        LinesClean(if stream[0] == '\n' then "" else begun + [stream[0]], stream[1..]);
      }
    }
  }

  lemma CleanedLines(chunks: seq<string>)
    requires WellCut(chunks) && NulsLast(Flatten(chunks))
    ensures Plain(CleanAll(chunks)) && Flatten(CleanAll(chunks)) == Clean(Flatten(chunks))
    ensures Split(chunks).lines == Split(CleanAll(chunks)).lines
    ensures Lines(Flatten(chunks)) == Lines(Clean(Flatten(chunks)))
  {
    FlattenClean(chunks);
    SplitClean("", chunks);
    LinesClean("", Flatten(chunks));
  }

  // The non-empty requests enqueued are those of the stream, however it is cut into chunks.
  lemma RequestsIgnoreChunking(chunks: seq<string>)
    requires WellCut(chunks) && NulsLast(Flatten(chunks))
    ensures Requests(Split(chunks).lines) == Requests(Lines(Flatten(chunks)))
  {
    CleanedLines(chunks);
    PlainRequests(CleanAll(chunks));
  }

  // Some line holds a NUL.
  ghost predicate Nulled(lines: seq<string>) { exists k :: 0 <= k < |lines| && '\0' in lines[k] }

  // Read one byte at a time, a NUL never gets into a line or the remainder.
  lemma {:induction false} SinglesDropNuls(rest: string, stream: string)
    requires '\0' !in rest
    ensures var cut := SplitFrom(rest, Singles(stream)); !Nulled(cut.lines) && '\0' !in cut.rest
    decreases |stream|
  {
    if stream != "" {
      var first := Scan([stream[0]], 0, 0, rest);
      assert Singles(stream)[0] == [stream[0]] && Singles(stream)[1..] == Singles(stream[1..]);
      ScanSingle(stream[0], rest);
      SinglesDropNuls(first.rest, stream[1..]);
    }
  }

  lemma ScanSingle(byte: char, rest: string)
    ensures Scan([byte], 0, 0, rest)
         == if byte == '\n' then Cut([rest], "") else Cut([], if byte == '\0' then "" else rest + [byte])
  {
    var chunk := [byte];
    assert chunk[0..0] == "" && chunk[0..] == chunk && rest + "" == rest;
    if byte == '\n' {
      assert Scan(chunk, 1, 2, "") == Cut([], "");
      assert [rest] + [] == [rest];
    } else {
      assert Scan(chunk, 0, 0, rest) == Scan(chunk, 0, 1, rest);
    }
  }

  // In the lines of the stream it does, if a newline follows.
  lemma {:induction false} LinesKeepNuls(begun: string, stream: string)
    requires !NulsLast(stream) || ('\0' in begun && '\n' in stream)
    ensures Nulled(LinesAfter(begun, stream))
    decreases |stream|
  {
    var more := LinesAfter(if stream[0] == '\n' then "" else begun + [stream[0]], stream[1..]);
    if stream[0] == '\n' && '\0' in begun {
      assert LinesAfter(begun, stream)[0] == begun;
    } else {
      if !NulsLast(stream) {
        var p, q :| 0 <= p < q < |stream| && stream[q] == '\n' && stream[p] == '\0';
        assert stream[1..][q - 1] == '\n';
        assert p > 0 ==> stream[1..][p - 1] == '\0' && !NulsLast(stream[1..]);
        assert p == 0 ==> '\0' in begun + [stream[0]];
      }
      LinesKeepNuls(if stream[0] == '\n' then "" else begun + [stream[0]], stream[1..]);
      var k :| 0 <= k < |more| && '\0' in more[k];
      var all := LinesAfter(begun, stream);
      assert stream[0] == '\n' ==> all[k + 1] == more[k];
    }
  }

  lemma {:induction false} RequestsKeepNuls(lines: seq<string>)
    ensures Nulled(lines) <==> Nulled(Requests(lines))
  {
    if lines != [] {
      var request, more := Stripped(lines[0]), Requests(lines[1..]);
      var all := Requests(lines);
      RequestsKeepNuls(lines[1..]);
      assert '\0' in lines[0] <==> '\0' in request;
      NulledFirst(lines);
      if request == "" {
        assert all == more;
      } else {
        assert all[0] == request && all[1..] == more;
        NulledFirst(all);
      }
    }
  }

  lemma NulledFirst(lines: seq<string>)
    requires lines != []
    ensures Nulled(lines) <==> '\0' in lines[0] || Nulled(lines[1..])
  {
    if Nulled(lines[1..]) {
      var k :| 0 <= k < |lines[1..]| && '\0' in lines[1..][k];
      assert lines[k + 1] == lines[1..][k];
    }
    if Nulled(lines) {
      var k :| 0 <= k < |lines| && '\0' in lines[k];
      assert k > 0 ==> lines[1..][k - 1] == lines[k];
    }
  }

  // A cutting that keeps a NUL in front of a newline out of every request.
  lemma SinglesLoseNul(stream: string)
    requires !NulsLast(stream)
    ensures Requests(Split(Singles(stream)).lines) != Requests(Lines(stream))
  {
    SinglesDropNuls("", stream);
    LinesKeepNuls("", stream);
    RequestsKeepNuls(Split(Singles(stream)).lines);
    RequestsKeepNuls(Lines(stream));
  }

  ghost predicate RequestsInvisible(stream: string) {
    forall chunks :: WellCut(chunks) && Flatten(chunks) == stream ==>
      Requests(Split(chunks).lines) == Requests(Lines(stream))
  }

  // All cuttings of a stream enqueue its non-empty requests exactly when no NUL stands in front
  // of a newline.
  lemma RequestsInvisibleExactlyWhen(stream: string)
    ensures RequestsInvisible(stream) <==> NulsLast(stream)
  {
    if NulsLast(stream) {
      forall chunks | WellCut(chunks) && Flatten(chunks) == stream
        ensures Requests(Split(chunks).lines) == Requests(Lines(stream))
      {
        RequestsIgnoreChunking(chunks);
      }
    } else {
      SinglesLoseNul(stream);
      var chunks := Singles(stream);
      assert WellCut(chunks) && Flatten(chunks) == stream;
    }
  }

  lemma {:induction false} UnlinesWithoutNul(lines: seq<string>)
    requires !Nulled(lines)
    ensures '\0' !in Unlines(lines)
  {
    if lines != [] {
      NulledFirst(lines);
      UnlinesWithoutNul(lines[1..]);
    }
  }

  ghost predicate BytesConserved(stream: string) {
    forall chunks :: WellCut(chunks) && Flatten(chunks) == stream ==>
      Unlines(Split(chunks).lines) + Split(chunks).rest == stream
  }

  // Every cutting conserves every byte exactly when the stream holds no NUL.
  lemma BytesConservedExactlyWhen(stream: string)
    ensures BytesConserved(stream) <==> '\0' !in stream
  {
    if '\0' !in stream {
      forall chunks | WellCut(chunks) && Flatten(chunks) == stream
        ensures Unlines(Split(chunks).lines) + Split(chunks).rest == stream
      {
        SplitConserves("", chunks);
        assert "" + stream == stream;
      }
    } else {
      var chunks := Singles(stream);
      SinglesDropNuls("", stream);
      UnlinesWithoutNul(Split(chunks).lines);
      assert WellCut(chunks) && Flatten(chunks) == stream;
      assert '\0' !in Unlines(Split(chunks).lines) + Split(chunks).rest;
    }
  }

  // ---------------------------------------------------------------- cuttings and lines

  // The stream cut at the places where another one of the same length is.
  function Recut(stream: string, chunks: seq<string>): (cut: seq<string>)
    requires |Flatten(chunks)| == |stream|
    ensures |cut| == |chunks| && Flatten(cut) == stream
    ensures forall i :: 0 <= i < |chunks| ==> |cut[i]| == |chunks[i]|
  {
    if chunks == [] then []
    else
      var n := |chunks[0]|;
      assert ([stream[..n]] + Recut(stream[n..], chunks[1..]))[1..] == Recut(stream[n..], chunks[1..]);
      [stream[..n]] + Recut(stream[n..], chunks[1..])
  }

  lemma {:induction false} RecutCleans(stream: string, chunks: seq<string>)
    requires Flatten(chunks) == Clean(stream)
    ensures CleanAll(Recut(stream, chunks)) == chunks
  {
    if chunks != [] {
      var n := |chunks[0]|;
      var cut := Recut(stream, chunks);
      assert stream == stream[..n] + stream[n..];
      CleanConcat(stream[..n], stream[n..]);
      assert Flatten(chunks)[..n] == chunks[0] && Flatten(chunks)[n..] == Flatten(chunks[1..]);
      assert Clean(stream)[..n] == Clean(stream[..n]) && Clean(stream)[n..] == Clean(stream[n..]);
      RecutCleans(stream[n..], chunks[1..]);
      assert cut == [stream[..n]] + Recut(stream[n..], chunks[1..]);
      assert CleanAll(cut) == [Clean(stream[..n])] + CleanAll(Recut(stream[n..], chunks[1..]));
    }
  }

  // A cutting whose lines are not those of the stream.
  lemma ChunkingSeen(stream: string) returns (chunks: seq<string>)
    requires !NoBlankLine(stream) || !NulsLast(stream)
    ensures WellCut(chunks) && Flatten(chunks) == stream && Split(chunks).lines != Lines(stream)
  {
    if !NulsLast(stream) {
      SinglesLoseNul(stream);
      chunks := Singles(stream);
    } else {
      var p :| 0 <= p < |stream| && BlankLineAt(stream, p);
      var cleaned := HideBlankLine(Clean(stream), p);
      chunks := Recut(stream, cleaned);
      RecutCleans(stream, cleaned);
      CleanedLines(chunks);
    }
  }

  lemma PlainLines(chunks: seq<string>)
    requires Plain(chunks) && NoBlankLine(Flatten(chunks))
    ensures Split(chunks).lines == Lines(Flatten(chunks))
  {
    SplitConserves("", chunks);
    SplitFirstLine("", chunks);
    var cut := Split(chunks);
    assert "" + Flatten(chunks) == Flatten(chunks);
    ExactWithoutBlankLine(cut.lines, cut.rest);
  }

  // All cuttings enqueue the lines of the stream exactly when it contains neither a blank line
  // behind another line nor a NUL in a line.
  lemma ChunkingInvisibleExactlyWhen(stream: string)
    ensures ChunkingInvisible(stream) <==> NoBlankLine(stream) && NulsLast(stream)
  {
    if NoBlankLine(stream) && NulsLast(stream) {
      forall chunks | WellCut(chunks) && Flatten(chunks) == stream
        ensures Split(chunks).lines == Lines(stream)
      {
        CleanedLines(chunks);
        forall p | 0 <= p < |stream| ensures !BlankLineAt(Clean(stream), p) {
          assert !BlankLineAt(stream, p);
        }
        PlainLines(CleanAll(chunks));
      }
    } else {
      var chunks := ChunkingSeen(stream);
    }
  }

  // ---------------------------------------------------------------- the number of lines

  function Newlines(s: string): nat {
    if s == "" then 0 else (if s[0] == '\n' then 1 else 0) + Newlines(s[1..])
  }

  lemma {:induction false} NewlinesConcat(a: string, b: string)
    ensures Newlines(a + b) == Newlines(a) + Newlines(b)
  {
    if a == "" {
      assert a + b == b;
    } else {
      assert (a + b)[1..] == a[1..] + b;
      NewlinesConcat(a[1..], b);
    }
  }

  // Where no newline follows another, none is passed over: each ends a line.
  lemma {:induction false} ScanCounts(chunk: string, start: nat, i: nat, rest: string)
    requires start <= i && start <= |chunk| && NoBlankLine(chunk)
    ensures |Scan(chunk, start, i, rest).lines| == if i < |chunk| then Newlines(chunk[i..]) else 0
    decreases |chunk| - i
  {
    if i < |chunk| {
      assert chunk[i..][1..] == chunk[i + 1..];
      if chunk[i] == '\n' {
        ScanCounts(chunk, i + 1, i + 2, "");
        assert !BlankLineAt(chunk, i);
        if i + 1 < |chunk| {
          assert chunk[i + 1..][1..] == chunk[i + 2..];
        }
      } else {
        ScanCounts(chunk, start, i + 1, rest);
      }
    }
  }

  lemma NoBlankLineSplit(a: string, b: string)
    requires NoBlankLine(a + b)
    ensures NoBlankLine(a) && NoBlankLine(b)
  {
    forall p | 0 <= p < |a| ensures !BlankLineAt(a, p) {
      assert !BlankLineAt(a + b, p);
    }
    forall p | 0 <= p < |b| ensures !BlankLineAt(b, p) {
      assert !BlankLineAt(a + b, |a| + p);
    }
  }

  lemma {:induction false} SplitCounts(rest: string, chunks: seq<string>)
    requires NoBlankLine(Flatten(chunks))
    ensures |SplitFrom(rest, chunks).lines| == Newlines(Flatten(chunks))
    decreases |chunks|
  {
    if chunks != [] {
      var tail := Flatten(chunks[1..]);
      NoBlankLineSplit(chunks[0], tail);
      ScanCounts(chunks[0], 0, 0, rest);
      assert chunks[0][0..] == chunks[0];
      SplitCounts(Scan(chunks[0], 0, 0, rest).rest, chunks[1..]);
      NewlinesConcat(chunks[0], tail);
    }
  }

  // Read one byte at a time every newline ends a line ...
  lemma {:induction false} SinglesCount(rest: string, stream: string)
    ensures |SplitFrom(rest, Singles(stream)).lines| == Newlines(stream)
    decreases |stream|
  {
    if stream != "" {
      assert Singles(stream)[0] == [stream[0]] && Singles(stream)[1..] == Singles(stream[1..]);
      ScanSingle(stream[0], rest);
      SinglesCount(Scan([stream[0]], 0, 0, rest).rest, stream[1..]);
    }
  }

  // ... but read together, the second newline of a blank line does not.
  lemma PairCount(stream: string, p: nat) returns (chunks: seq<string>)
    requires BlankLineAt(stream, p)
    ensures WellCut(chunks) && Flatten(chunks) == stream && |Split(chunks).lines| == Newlines(stream) - 1
  {
    var before, after, pair := Singles(stream[..p]), Singles(stream[p + 2..]), "\n\n";
    chunks := before + ([pair] + after);
    PairFlattens(stream, p);
    SplitConcat("", before, [pair] + after);
    var early := SplitFrom("", before);
    assert ([pair] + after)[1..] == after;
    assert |Scan(pair, 0, 0, early.rest).lines| == 1;
    SinglesCount("", stream[..p]);
    SinglesCount(Scan(pair, 0, 0, early.rest).rest, stream[p + 2..]);
    PairNewlines(stream, p);
  }

  lemma PairNewlines(stream: string, p: nat)
    requires BlankLineAt(stream, p)
    ensures Newlines(stream) == Newlines(stream[..p]) + 2 + Newlines(stream[p + 2..])
  {
    assert stream[p..p + 2] == "\n\n" && "\n\n"[1..] == "\n" && "\n"[1..] == "";
    assert stream == stream[..p] + ("\n\n" + stream[p + 2..]);
    NewlinesConcat(stream[..p], "\n\n" + stream[p + 2..]);
    NewlinesConcat("\n\n", stream[p + 2..]);
    assert Newlines("\n\n") == 2;
  }

  ghost predicate CountInvisible(stream: string) {
    forall a, b :: WellCut(a) && Flatten(a) == stream && WellCut(b) && Flatten(b) == stream ==>
      |Split(a).lines| == |Split(b).lines|
  }

  // Every cutting of a stream enqueues the same number of lines, hence has as many answers,
  // exactly when no newline follows another, whether or not there are NULs.
  lemma CountInvisibleExactlyWhen(stream: string)
    ensures CountInvisible(stream) <==> NoBlankLine(stream)
    ensures NoBlankLine(stream) ==>
      forall chunks :: Flatten(chunks) == stream ==> |Split(chunks).lines| == Newlines(stream)
  {
    if NoBlankLine(stream) {
      forall chunks | Flatten(chunks) == stream ensures |Split(chunks).lines| == Newlines(stream) {
        SplitCounts("", chunks);
      }
    } else {
      var p :| 0 <= p < |stream| && BlankLineAt(stream, p);
      var chunks := PairCount(stream, p);
      SinglesCount("", stream);
      assert WellCut(Singles(stream)) && Flatten(Singles(stream)) == stream;
    }
  }

  // ---------------------------------------------------------------- the callback

  // Lines already emitted in front of a cut.
  function Behind(emitted: seq<string>, cut: Cut): Cut { Cut(emitted + cut.lines, cut.rest) }

  lemma ScanAtNewline(emitted: seq<string>, chunk: string, start: nat, i: nat, rest: string)
    requires start <= i < |chunk| && chunk[i] == '\n'
    ensures Behind(emitted, Scan(chunk, start, i, rest))
         == Behind(emitted + [rest + BeforeNul(chunk[start..i])], Scan(chunk, i + 1, i + 2, ""))
  {
  }

  lemma ScanAtOther(emitted: seq<string>, chunk: string, start: nat, i: nat, rest: string)
    requires start <= i < |chunk| && chunk[i] != '\n'
    ensures Behind(emitted, Scan(chunk, start, i, rest)) == Behind(emitted, Scan(chunk, start, i + 1, rest))
  {
  }

  lemma TerminatedLine(bytes: string, chunk: string, start: nat, i: nat)
    requires start <= i < |bytes| && i <= |chunk| && bytes[i] == '\0'
    requires forall k :: start <= k < i ==> bytes[k] == chunk[k]
    ensures '\0' in bytes[start..] && CString(bytes, start) == BeforeNul(chunk[start..i])
  {
    assert bytes[start..i] == chunk[start..i];
    CStringIs(bytes, start, i - start);
  }

  class StdinReader {
    const remainder: Buffer      // tmp_line_buf
    var lines: seq<string>       // texts of the lines enqueued so far, in order

    ghost var chunks: seq<string>  // the chunks read so far

    // The remainder buffer is sound and its capacity bounded by its text.
    ghost predicate Ready()
      reads this, remainder, remainder.ptr
    {
      remainder.Valid() && remainder.Bounded()
    }

    // Between chunks, lines and remainder are those of the chunks read.
    ghost predicate Valid()
      reads this, remainder, remainder.ptr
    {
      Ready() && Cut(lines, remainder.Text()) == Split(chunks)
    }

    constructor ()
      ensures Valid() && chunks == [] && fresh(remainder) && remainder.ptr == null
    {
      remainder := new Buffer();
      lines, chunks := [], [];
    }

    // The remainder followed by the C string at lineStart, in a new buffer.
    method JoinLine(readbuf: array<char>, lineStart: nat) returns (line: Buffer)
      requires remainder.Valid() && readbuf != remainder.ptr
      requires lineStart < readbuf.Length && '\0' in readbuf[..][lineStart..]
      ensures fresh(line) && line.Valid() && line.len > 0 && fresh(line.ptr)
      ensures line.Text() == remainder.Text() + CString(readbuf[..], lineStart)
    {
      assert readbuf[..][lineStart..] == readbuf[lineStart..];
      line := new Buffer();
      if remainder.len > 0 {
        line.CopyBuffer(remainder);
        line.AppendString(readbuf, lineStart);
      } else {
        line.CopyString(readbuf, lineStart);
        assert "" + CString(readbuf[..], lineStart) == CString(readbuf[..], lineStart);
      }
    }

    // The newline at i ends a line: remainder and text behind lineStart go on the queue.
    method EnqueueLine(readbuf: array<char>, lineStart: nat, i: nat, ghost chunk: string)
      requires Ready() && readbuf != remainder.ptr
      requires lineStart <= i < readbuf.Length && i <= |chunk|
      requires forall k :: lineStart <= k < i ==> readbuf[k] == chunk[k]
      modifies this, remainder, remainder.ptr, readbuf
      ensures Ready() && remainder.Reallocated() && remainder.Text() == ""
      ensures chunks == old(chunks)
      ensures lines == old(lines) + [old(remainder.Text()) + BeforeNul(chunk[lineStart..i])]
      ensures forall k :: i < k < readbuf.Length ==> readbuf[k] == old(readbuf[k])
    {
      ghost var text := BeforeNul(chunk[lineStart..i]);
      readbuf[i] := '\0';
      TerminatedLine(readbuf[..], chunk, lineStart, i);
      var line := JoinLine(readbuf, lineStart);
      var content := line.ptr[..line.len - 1];
      assert content == old(remainder.Text()) + text;
      if remainder.len > 0 {
        remainder.Reset();
      }
      lines := lines + [content];
    }

    // What follows the last newline is kept for the next chunk, unless it begins with NUL; then
    // the whole remainder is dropped.
    method KeepRest(readbuf: array<char>, lineStart: nat, bytes: nat, ghost chunk: string)
      requires Ready() && readbuf != remainder.ptr && lineStart <= bytes == |chunk| < readbuf.Length
      requires forall k :: lineStart <= k < bytes ==> readbuf[k] == chunk[k]
      requires readbuf[bytes] == '\0'
      modifies remainder, remainder.ptr
      ensures Ready() && remainder.Reallocated()
      ensures remainder.Text()
           == if lineStart < bytes && chunk[lineStart] != '\0' then old(remainder.Text()) + chunk[lineStart..] else ""
    {
      assert readbuf[lineStart..bytes] == chunk[lineStart..];
      if readbuf[lineStart] != '\0' {
        remainder.AppendStringLen(readbuf, lineStart, bytes - lineStart);
      } else {
        remainder.Reset();
      }
    }

    // The scan of the `bytes` bytes that read() delivered into readbuf.
    method ScanChunk(readbuf: array<char>, bytes: nat)
      requires Ready() && readbuf.Length == CHUNK_SIZE && readbuf != remainder.ptr
      requires 1 <= bytes < CHUNK_SIZE
      modifies this, remainder, remainder.ptr, readbuf
      ensures Ready() && remainder.Reallocated() && chunks == old(chunks)
      ensures var cut := Scan(old(readbuf[..bytes]), 0, 0, old(remainder.Text()));
        lines == old(lines) + cut.lines && remainder.Text() == cut.rest
    {
      ghost var chunk := readbuf[..bytes];
      ghost var rest := remainder.Text();
      ghost var whole := Behind(lines, Scan(chunk, 0, 0, rest));
      readbuf[bytes] := '\0';
      var lineStart, i := 0, 0;
      while i < bytes
        invariant lineStart <= i <= bytes + 1 && lineStart <= bytes
        invariant forall k :: lineStart <= k < bytes ==> readbuf[k] == chunk[k]
        invariant readbuf[bytes] == '\0'
        invariant Ready() && remainder.Reallocated() && readbuf != remainder.ptr && chunks == old(chunks)
        invariant remainder.Text() == rest && (lineStart > 0 ==> rest == "")
        invariant Behind(lines, Scan(chunk, lineStart, i, rest)) == whole
      {
        if readbuf[i] == '\n' {
          ScanAtNewline(lines, chunk, lineStart, i, rest);
          EnqueueLine(readbuf, lineStart, i, chunk);
          rest := "";
          i := i + 1;
          lineStart := i;
        } else {
          ScanAtOther(lines, chunk, lineStart, i, rest);
        }
        i := i + 1;
      }
      KeepRest(readbuf, lineStart, bytes, chunk);
    }

    // One turn of the callback's loop that read some bytes.
    method ReadChunk(readbuf: array<char>, bytes: nat)
      requires Valid() && readbuf.Length == CHUNK_SIZE && readbuf != remainder.ptr
      requires 1 <= bytes < CHUNK_SIZE
      modifies this, remainder, remainder.ptr, readbuf
      ensures Valid() && remainder.Reallocated()
      ensures chunks == old(chunks) + [old(readbuf[..bytes])]
    {
      ghost var chunk := readbuf[..bytes];
      SplitConcat("", chunks, [chunk]);
      assert [chunk][1..] == [];
      ScanChunk(readbuf, bytes);
      chunks := chunks + [chunk];
    }
  }
}
