/** The text protocol of a worker: the request fields read by sscanf and the response line
    written by send_response (src/core/main.c). */
module RequestLine {

  const CHANNEL_LIMIT := 0x1_0000_0000_0000_0000   // size_t has 64 bits

  datatype Fields = Fields(channel: nat, address: string)

  // isspace in the C locale: the blank and the five controls from tab to carriage return.
  predicate IsSpace(c: char)
    ensures IsSpace(c) <==> c == ' ' || 9 <= c as int <= 13
  {
    c in " \t\n\r\U{B}\U{C}"
  }

  predicate IsDigit(c: char) { '0' <= c <= '9' }
  predicate Blank(s: string) { forall i :: 0 <= i < |s| ==> IsSpace(s[i]) }

  function SkipSpace(s: string): string {
    if s != "" && IsSpace(s[0]) then SkipSpace(s[1..]) else s
  }

  // The length of the longest prefix, at most `width`, without white space.
  function WordEnd(s: string, width: nat): (n: nat)
    ensures n <= |s| && n <= width && forall i :: 0 <= i < n ==> !IsSpace(s[i])
  {
    if s == "" || width == 0 || IsSpace(s[0]) then 0 else 1 + WordEnd(s[1..], width - 1)
  }

  function DigitsEnd(s: string): (n: nat)
    ensures n <= |s| && forall i :: 0 <= i < n ==> IsDigit(s[i])
  {
    if s == "" || !IsDigit(s[0]) then 0 else 1 + DigitsEnd(s[1..])
  }

  function Value(digits: string): nat
    requires forall i :: 0 <= i < |digits| ==> IsDigit(digits[i])
  {
    if digits == "" then 0
    else
      assert IsDigit(digits[|digits| - 1]);
      Value(digits[..|digits| - 1]) * 10 + (digits[|digits| - 1] as int - '0' as int)
  }

  // The number %zu stores: saturated on overflow, negated modulo the limit behind a minus sign.
  function Stored(negative: bool, value: nat): (n: nat)
    ensures n < CHANNEL_LIMIT
  {
    if value >= CHANNEL_LIMIT then CHANNEL_LIMIT - 1
    else if negative && value > 0 then CHANNEL_LIMIT - value
    else value
  }

  // sscanf(line, "%zu %<width>s"): a field whose conversion fails keeps its initial value.
  function Parse(line: string, width: nat): Fields {
    var t := SkipSpace(line);
    var signed := t != "" && (t[0] == '+' || t[0] == '-');
    var u := if signed then t[1..] else t;
    var n := DigitsEnd(u);
    if n == 0 then Fields(0, "")
    else
      var word := SkipSpace(u[n..]);
      Fields(Stored(signed && t[0] == '-', Value(u[..n])), word[..WordEnd(word, width)])
  }

  function Decimal(n: nat): (digits: string)
    ensures digits != "" && forall i :: 0 <= i < |digits| ==> IsDigit(digits[i])
  {
    (if n < 10 then "" else Decimal(n / 10)) + [(n % 10 + '0' as int) as char]
  }

  // ---------------------------------------------------------------- scanning lemmas

  lemma {:induction false} SkipBlank(lead: string, s: string)
    requires Blank(lead)
    ensures SkipSpace(lead + s) == SkipSpace(s)
  {
    if lead == "" {
      assert lead + s == s;
    } else {
      assert (lead + s)[1..] == lead[1..] + s;
      assert forall i :: 0 <= i < |lead[1..]| ==> lead[1..][i] == lead[i + 1];
      SkipBlank(lead[1..], s);
    }
  }

  lemma {:induction false} DigitsStop(digits: string, s: string)
    requires forall i :: 0 <= i < |digits| ==> IsDigit(digits[i])
    requires s == "" || !IsDigit(s[0])
    ensures DigitsEnd(digits + s) == |digits|
  {
    if digits == "" {
      assert digits + s == s;
    } else {
      assert (digits + s)[1..] == digits[1..] + s;
      assert forall i :: 0 <= i < |digits[1..]| ==> digits[1..][i] == digits[i + 1];
      DigitsStop(digits[1..], s);
    }
  }

  lemma {:induction false} WordStops(word: string, s: string, width: nat)
    requires forall i :: 0 <= i < |word| ==> !IsSpace(word[i])
    requires s == "" || IsSpace(s[0])
    ensures WordEnd(word + s, width) == if |word| <= width then |word| else width
  {
    if word == "" || width == 0 {
      assert "" + s == s;
    } else {
      assert (word + s)[1..] == word[1..] + s;
      assert forall i :: 0 <= i < |word[1..]| ==> word[1..][i] == word[i + 1];
      WordStops(word[1..], s, width - 1);
    }
  }

  lemma {:induction false} DecimalValue(n: nat)
    ensures Value(Decimal(n)) == n
  {
    var digits := Decimal(n);
    if n >= 10 {
      DecimalValue(n / 10);
      assert digits[..|digits| - 1] == Decimal(n / 10);
    } else {
      assert digits[..|digits| - 1] == "";
    }
  }

  function Power10(n: nat): (p: nat)
    ensures p >= 1
  {
    if n == 0 then 1 else 10 * Power10(n - 1)
  }

  // Every digit counts ten times as much as the one behind it.
  function PlaceValue(digits: string): nat
    requires forall i :: 0 <= i < |digits| ==> IsDigit(digits[i])
  {
    if digits == "" then 0
    else
      assert IsDigit(digits[0]);
      (digits[0] as int - '0' as int) * Power10(|digits| - 1) + PlaceValue(digits[1..])
  }

  lemma TenTimes(x: int, y: int)
    ensures x * (10 * y) == 10 * (x * y)
  {
  }

  lemma {:induction false} PlaceValueSnoc(digits: string, d: char)
    requires IsDigit(d) && forall i :: 0 <= i < |digits| ==> IsDigit(digits[i])
    ensures PlaceValue(digits + [d]) == PlaceValue(digits) * 10 + (d as int - '0' as int)
  {
    var more := digits + [d];
    if digits == "" {
      assert more == [d] && more[1..] == "" && Power10(0) == 1;
    } else {
      assert more[1..] == digits[1..] + [d] && more[0] == digits[0];
      assert forall i :: 0 <= i < |digits[1..]| ==> digits[1..][i] == digits[i + 1];
      PlaceValueSnoc(digits[1..], d);
      var first := digits[0] as int - '0' as int;
      assert Power10(|digits|) == 10 * Power10(|digits| - 1);
      TenTimes(first, Power10(|digits| - 1));
    }
  }

  // The numeral's value is its value in base ten.
  lemma {:induction false} ValueIsPlaceValue(digits: string)
    requires forall i :: 0 <= i < |digits| ==> IsDigit(digits[i])
    ensures Value(digits) == PlaceValue(digits)
  {
    if digits != "" {
      var n := |digits| - 1;
      ValueIsPlaceValue(digits[..n]);
      PlaceValueSnoc(digits[..n], digits[n]);
      assert digits == digits[..n] + [digits[n]];
    }
  }

  lemma {:induction false} PositiveValue(digits: string)
    requires digits != "" && digits[0] != '0' && forall i :: 0 <= i < |digits| ==> IsDigit(digits[i])
    ensures Value(digits) > 0
  {
    var n := |digits| - 1;
    assert IsDigit(digits[0]) && IsDigit(digits[n]);
    if n > 0 {
      PositiveValue(digits[..n]);
    } else {
      assert digits[..0] == "";
    }
  }

  lemma {:induction false} Canonical(digits: string)
    requires digits != "" && forall i :: 0 <= i < |digits| ==> IsDigit(digits[i])
    requires digits[0] == '0' ==> |digits| == 1
    ensures Decimal(Value(digits)) == digits
  {
    var n := |digits| - 1;
    assert IsDigit(digits[n]);
    if n == 0 {
      assert digits[..0] == "" && digits == [digits[0]];
    } else {
      PositiveValue(digits[..n]);
      Canonical(digits[..n]);
      assert digits == digits[..n] + [digits[n]];
    }
  }

  lemma {:induction false} NoLeadingZero(n: nat)
    ensures Decimal(n)[0] == '0' <==> n == 0
    ensures n == 0 ==> Decimal(n) == "0"
  {
    if n >= 10 {
      NoLeadingZero(n / 10);
    }
  }

  // Reading and writing a numeral gives it back exactly if it has no superfluous zero in front.
  lemma NumeralRoundTripExactlyWhen(digits: string)
    requires digits != "" && forall i :: 0 <= i < |digits| ==> IsDigit(digits[i])
    ensures Decimal(Value(digits)) == digits <==> (digits[0] == '0' ==> digits == "0")
  {
    NoLeadingZero(Value(digits));
    if digits[0] == '0' ==> digits == "0" {
      Canonical(digits);
    }
  }

  lemma DigitStarts(c: char)
    requires IsDigit(c)
    ensures !IsSpace(c) && c != '+' && c != '-'
  {
  }

  // ---------------------------------------------------------------- the protocol

  // A line opening with digits, whatever blanks precede them.
  lemma ParseDigits(lead: string, digits: string, s: string, width: nat)
    requires Blank(lead) && digits != "" && forall i :: 0 <= i < |digits| ==> IsDigit(digits[i])
    requires s == "" || !IsDigit(s[0])
    ensures var word := SkipSpace(s);
      Parse(lead + (digits + s), width) == Fields(Stored(false, Value(digits)), word[..WordEnd(word, width)])
  {
    var t := digits + s;
    SkipBlank(lead, t);
    DigitStarts(t[0]);
    DigitsStop(digits, s);
    assert t[..|digits|] == digits && t[|digits|..] == s;
  }

  lemma ParseNegative(lead: string, digits: string, s: string, width: nat)
    requires Blank(lead) && digits != "" && forall i :: 0 <= i < |digits| ==> IsDigit(digits[i])
    requires s == "" || !IsDigit(s[0])
    ensures var word := SkipSpace(s);
      Parse(lead + ("-" + (digits + s)), width) == Fields(Stored(true, Value(digits)), word[..WordEnd(word, width)])
  {
    var t := digits + s;
    SkipBlank(lead, "-" + t);
    assert ("-" + t)[1..] == t;
    DigitsStop(digits, s);
    assert t[..|digits|] == digits && t[|digits|..] == s;
  }

  // What stands behind the numeral: an address word, blank or not the blanks in front of it, or
  // nothing but blanks.
  predicate Behind(gap: string, address: string, tail: string) {
    && Blank(gap) && (forall i :: 0 <= i < |address| ==> !IsSpace(address[i]))
    && (tail == "" || IsSpace(tail[0])) && (address == "" ==> tail == "")
    && (gap == "" && address != "" ==> !IsDigit(address[0]))
  }

  // The address field, cut to its width.
  lemma AddressField(gap: string, address: string, tail: string, width: nat)
    requires Behind(gap, address, tail)
    ensures var s := gap + (address + tail);
      && (s == "" || !IsDigit(s[0]))
      && var word := SkipSpace(s);
        word[..WordEnd(word, width)] == if |address| <= width then address else address[..width]
  {
    SkipBlank(gap, address + tail);
    WordStops(address, tail, width);
    assert address + tail != "" ==> (address + tail)[0] == address[0];
  }

  // What a request line of a numeral and an address word is parsed into: the numeral saturates,
  // the word is cut to the field width.
  lemma RequestFields(lead: string, channel: nat, gap: string, address: string, tail: string, width: nat)
    requires Blank(lead) && Behind(gap, address, tail)
    ensures Parse(lead + (Decimal(channel) + (gap + (address + tail))), width)
         == Fields(if channel < CHANNEL_LIMIT then channel else CHANNEL_LIMIT - 1,
                   if |address| <= width then address else address[..width])
  {
    AddressField(gap, address, tail, width);
    ParseDigits(lead, Decimal(channel), gap + (address + tail), width);
    DecimalValue(channel);
  }

  // Squid's request comes back whole exactly when size_t holds the channel and the field holds
  // the address, whatever blanks stand in front and whatever follows a further blank.
  lemma RequestRoundTripExactlyWhen(lead: string, channel: nat, address: string, tail: string, width: nat)
    requires Blank(lead) && |address| > 0 && forall i :: 0 <= i < |address| ==> !IsSpace(address[i])
    requires tail == "" || IsSpace(tail[0])
    ensures Parse(lead + (Decimal(channel) + (" " + (address + tail))), width) == Fields(channel, address)
       <==> channel < CHANNEL_LIMIT && |address| <= width
  {
    RequestFields(lead, channel, " ", address, tail, width);
  }

  // A negative channel wraps around; one too large saturates like a positive one.
  lemma NegativeChannelWraps(lead: string, channel: nat, gap: string, address: string, tail: string, width: nat)
    requires Blank(lead) && Behind(gap, address, tail)
    ensures Parse(lead + ("-" + (Decimal(channel) + (gap + (address + tail)))), width)
         == Fields(if channel == 0 then 0 else if channel < CHANNEL_LIMIT then CHANNEL_LIMIT - channel
                   else CHANNEL_LIMIT - 1,
                   if |address| <= width then address else address[..width])
  {
    AddressField(gap, address, tail, width);
    ParseNegative(lead, Decimal(channel), gap + (address + tail), width);
    DecimalValue(channel);
  }

  // A plus sign in front of the number changes nothing.
  lemma PlusSignIgnored(lead: string, digits: string, s: string, width: nat)
    requires Blank(lead) && digits != "" && forall i :: 0 <= i < |digits| ==> IsDigit(digits[i])
    requires s == "" || !IsDigit(s[0])
    ensures Parse(lead + ("+" + (digits + s)), width) == Parse(lead + (digits + s), width)
  {
    var t := digits + s;
    SkipBlank(lead, "+" + t);
    assert ("+" + t)[1..] == t;
    DigitsStop(digits, s);
    assert t[..|digits|] == digits && t[|digits|..] == s;
    ParseDigits(lead, digits, s, width);
  }

  // Without a number both fields keep their initial value: no channel, no address.
  lemma NoNumberNoFields(lead: string, s: string, width: nat)
    requires Blank(lead) && (s != "" ==> !IsSpace(s[0]) && !IsDigit(s[0]))
    requires |s| > 1 && (s[0] == '+' || s[0] == '-') ==> !IsDigit(s[1])
    ensures Parse(lead + s, width) == Fields(0, "")
  {
    SkipBlank(lead, s);
  }

  // Blanks in front of a request, such as the newline the splitter leaves there, change nothing.
  lemma LeadingBlanksIgnored(lead: string, line: string, width: nat)
    requires Blank(lead)
    ensures Parse(lead + line, width) == Parse(line, width)
  {
    SkipBlank(lead, line);
  }

  function Verdict(ok: bool, log: string): string {
    (if ok then " OK" else " ERR") + (if log == "" then "\n" else " log=" + log + "\n")
  }

  // The line send_response writes; the empty message stands for NULL.
  function Response(channel: nat, ok: bool, log: string): string {
    Decimal(channel) + Verdict(ok, log)
  }

  // What Squid reads in a response line: the channel, the word behind it and the log text, if any.
  datatype Reading = Reading(channel: nat, word: string, log: Log)
  datatype Log = NoLog | Log(text: string)
  datatype Read = Unreadable | Got(reading: Reading)

  // The line ends at its only newline.
  predicate OneLine(line: string) {
    line != "" && line[|line| - 1] == '\n' && '\n' !in line[..|line| - 1]
  }

  // A word, then nothing or the text behind " log=".
  function ReadWord(channel: nat, text: string): Read {
    var w := WordEnd(text, |text|);
    if text[w..] == "" then Got(Reading(channel, text[..w], NoLog))
    else if " log=" <= text[w..] then Got(Reading(channel, text[..w], Log(text[w + 5..])))
    else Unreadable
  }

  // A numeral, one blank and the rest of the line.
  function ReadResponse(line: string): Read {
    var n := DigitsEnd(line);
    if n == 0 || n + 1 >= |line| || line[n] != ' ' || !OneLine(line) then Unreadable
    else ReadWord(Value(line[..n]), line[n + 1..|line| - 1])
  }

  lemma ReadsLine(digits: string, text: string)
    requires digits != "" && (forall i :: 0 <= i < |digits| ==> IsDigit(digits[i])) && '\n' !in text
    ensures ReadResponse(digits + (" " + text + "\n")) == ReadWord(Value(digits), text)
  {
    var s := " " + text + "\n";
    assert s[0] == ' ';
    DigitsStop(digits, s);
    LineParts(digits, text);
  }

  lemma LineParts(digits: string, text: string)
    requires (forall i :: 0 <= i < |digits| ==> IsDigit(digits[i])) && '\n' !in text
    ensures var line := digits + (" " + text + "\n");
      && |line| == |digits| + |text| + 2 && line[..|digits|] == digits && line[|digits|] == ' '
      && line[|digits| + 1..|line| - 1] == text && OneLine(line)
  {
    var line, front := digits + (" " + text + "\n"), digits + " " + text;
    assert line[..|line| - 1] == front;
  }

  lemma ReadsWord(channel: nat, word: string, tail: string)
    requires (forall i :: 0 <= i < |word| ==> !IsSpace(word[i])) && (tail == "" || " log=" <= tail)
    ensures ReadWord(channel, word + tail) == Got(Reading(channel, word, if tail == "" then NoLog else Log(tail[5..])))
  {
    var text, w := word + tail, |word|;
    assert tail != "" ==> tail[0] == " log="[0];
    WordStops(word, tail, |text|);
    assert text[..w] == word && text[w..] == tail;
    assert tail != "" ==> text[w + 5..] == tail[5..];
  }

  function TailOf(log: string): string { if log == "" then "" else " log=" + log }
  function LogOf(log: string): Log { if log == "" then NoLog else Log(log) }

  lemma ReadsBack(channel: nat, word: string, log: string)
    requires (forall i :: 0 <= i < |word| ==> !IsSpace(word[i])) && '\n' !in log
    ensures ReadResponse(Decimal(channel) + (" " + (word + TailOf(log)) + "\n"))
         == Got(Reading(channel, word, LogOf(log)))
  {
    NoNewline(word, TailOf(log));
    ReadsLine(Decimal(channel), word + TailOf(log));
    DecimalValue(channel);
    ReadsWord(channel, word, TailOf(log));
    assert log != "" ==> TailOf(log)[5..] == log;
  }

  lemma NoNewline(word: string, tail: string)
    requires (forall i :: 0 <= i < |word| ==> !IsSpace(word[i])) && '\n' !in tail
    ensures '\n' !in word + tail
  {
    assert IsSpace('\n');
  }

  lemma NewlineInside(front: string, log: string)
    requires '\n' in log
    ensures !OneLine(front + (" log=" + log) + "\n")
  {
    var line := front + (" log=" + log) + "\n";
    var k :| 0 <= k < |log| && log[k] == '\n';
    assert line[..|line| - 1][|front| + 5 + k] == '\n';
  }

  lemma ResponseParts(channel: nat, ok: bool, log: string)
    ensures Response(channel, ok, log)
         == Decimal(channel) + (" " + ((if ok then "OK" else "ERR") + TailOf(log)) + "\n")
  {
    assert Verdict(ok, log) == " " + ((if ok then "OK" else "ERR") + TailOf(log)) + "\n";
  }

  lemma TailLast(digits: string, word: string, log: string)
    requires log != ""
    ensures digits + (" " + (word + TailOf(log)) + "\n") == digits + (" " + word) + (" log=" + log) + "\n"
  {
  }

  // Squid reads back what send_response was given, exactly if the message holds no newline.
  lemma ResponseReadsBackExactlyWhen(channel: nat, ok: bool, log: string)
    ensures ReadResponse(Response(channel, ok, log))
         == Got(Reading(channel, if ok then "OK" else "ERR", if log == "" then NoLog else Log(log)))
       <==> '\n' !in log
  {
    var word := if ok then "OK" else "ERR";
    ResponseParts(channel, ok, log);
    if '\n' !in log {
      ReadsBack(channel, word, log);
    } else {
      TailLast(Decimal(channel), word, log);
      NewlineInside(Decimal(channel) + (" " + word), log);
    }
  }

  // The response names the channel of the request it answers.
  lemma ResponseNamesChannel(line: string, ok: bool, log: string, width: nat)
    ensures Parse(Response(Parse(line, width).channel, ok, log), width).channel == Parse(line, width).channel
  {
    var channel := Parse(line, width).channel;
    var s := Verdict(ok, log);
    assert s[0] == ' ';
    ParseDigits("", Decimal(channel), s, width);
    DecimalValue(channel);
    assert "" + (Decimal(channel) + s) == Response(channel, ok, log);
  }
}
