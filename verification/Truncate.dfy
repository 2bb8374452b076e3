/** In-place elision of the middle of a string (src/core/webcontrol_buffer.c, truncate_string). */
module Truncate {
  import opened Buffer

  // Bytes kept in front of the separator.
  function Front(maxLen: nat, sepLen: nat): nat
    requires sepLen <= maxLen
  {
    (maxLen - sepLen) / 2
  }

  // The first byte copied behind the separator.
  function Source(len: nat, maxLen: nat, sepLen: nat): nat
    requires sepLen <= maxLen < len
  {
    len - Front(maxLen, sepLen) - maxLen % 2
  }

  // The block the code leaves, up to and including the terminator.
  function Block(text: string, maxLen: nat, sep: string): (block: string)
    requires |sep| <= maxLen < |text|
    ensures |block| == maxLen + 1 && block[maxLen] == '\0'
  {
    var start, x := Front(maxLen, |sep|), Source(|text|, maxLen, |sep|);
    text[..start] + sep + (text + "\0")[x..x + (maxLen - start - |sep|)] + "\0"
  }

  // The string that block denotes.
  function Truncated(text: string, maxLen: nat, sep: string): string
    requires |sep| <= maxLen < |text|
  {
    assert Block(text, maxLen, sep)[0..][maxLen] == '\0';
    CString(Block(text, maxLen, sep), 0)
  }

  // What an elision to maxLen characters should be: front, separator, and the end of the text.
  function Elision(text: string, maxLen: nat, sep: string): (elided: string)
    requires |sep| <= maxLen < |text|
    ensures |elided| == maxLen
  {
    var d := maxLen - |sep|;
    text[..d / 2] + sep + text[|text| - (d - d / 2)..]
  }

  // The text of a C string with one terminator at `len`.
  predicate HoldsText(s: string, text: string) {
    |text| < |s| && s[..|text|] == text && s[|text|] == '\0' && '\0' !in text
  }

  method LengthOf(str: array<char>, ghost text: string) returns (len: nat)
    requires HoldsText(str[..], text)
    ensures len == |text|
  {
    CStringIs(str[..], 0, |text|);
    assert str[..][0..] == str[..];
    len := StrLen(str[..]);
  }

  // A longer string is overwritten in place; every byte copied is still the original one.
  method TruncateString(str: array<char>, maxLen: nat, sep: string, ghost text: string)
    requires HoldsText(str[..], text) && '\0' !in sep
    requires |text| > maxLen ==> maxLen >= |sep|
    modifies str
    ensures |text| <= maxLen ==> str[..] == old(str[..])
    ensures |text| > maxLen ==> str[..] == Block(text, maxLen, sep) + old(str[maxLen + 1..])
  {
    var len := LengthOf(str, text);
    if len <= maxLen {
      return;
    }
    ghost var was, block := str[..], Block(text, maxLen, sep);
    var start := (maxLen - |sep|) / 2;
    var x := len - start;
    if maxLen % 2 != 0 {
      x := x - 1;
    }
    ghost var from := x;
    BlockFront(text, maxLen, sep);
    assert forall k :: 0 <= k < start ==> str[k] == text[k];
    for i := start to maxLen
      invariant x == from + (if i < start + |sep| then 0 else i - start - |sep|)
      invariant forall k :: 0 <= k < i ==> str[k] == block[k]
      invariant forall k :: i <= k < str.Length ==> str[k] == was[k]
    {
      var sepPos := i - start;
      BlockAt(text, maxLen, sep, was, i);
      if sepPos < |sep| {
        str[i] := sep[sepPos];
      } else {
        str[i] := str[x];
        x := x + 1;
      }
    }
    str[maxLen] := '\0';
  }

  lemma BlockFront(text: string, maxLen: nat, sep: string)
    requires |sep| <= maxLen < |text|
    ensures Block(text, maxLen, sep)[..Front(maxLen, |sep|)] == text[..Front(maxLen, |sep|)]
  {
  }

  // Each byte behind the front is a separator byte or the byte at the advancing source.
  lemma BlockAt(text: string, maxLen: nat, sep: string, was: string, i: nat)
    requires HoldsText(was, text) && |sep| <= maxLen < |text| && Front(maxLen, |sep|) <= i < maxLen
    ensures var start, x := Front(maxLen, |sep|), Source(|text|, maxLen, |sep|);
      && (i < start + |sep| ==> Block(text, maxLen, sep)[i] == sep[i - start])
      && (i >= start + |sep| ==> Block(text, maxLen, sep)[i] == was[x + (i - start - |sep|)])
  {
    var start, x := Front(maxLen, |sep|), Source(|text|, maxLen, |sep|);
    var terminated := text + "\0";
    assert terminated == was[..|text| + 1];
    if i >= start + |sep| {
      var k := i - start - |sep|;
      assert Block(text, maxLen, sep)[i] == terminated[x..x + (maxLen - start - |sep|)][k];
      assert terminated[x + k] == was[x + k];
    }
  }

  lemma TruncatedIs(text: string, maxLen: nat, sep: string, result: string)
    requires |sep| <= maxLen < |text| && '\0' !in result
    requires |result| <= maxLen && Block(text, maxLen, sep)[..|result|] == result
    requires Block(text, maxLen, sep)[|result|] == '\0'
    ensures Truncated(text, maxLen, sep) == result
  {
    assert Block(text, maxLen, sep)[0..0 + |result|] == result;
    CStringIs(Block(text, maxLen, sep), 0, |result|);
  }

  // With a separator of even length, or one as long as the result, the elision is right.
  lemma EvenSeparatorElides(text: string, maxLen: nat, sep: string)
    requires |sep| <= maxLen < |text| && '\0' !in text && '\0' !in sep
    requires |sep| % 2 == 0 || |sep| == maxLen
    ensures Truncated(text, maxLen, sep) == Elision(text, maxLen, sep)
  {
    var start, x := Front(maxLen, |sep|), Source(|text|, maxLen, |sep|);
    var n := maxLen - start - |sep|;
    if |sep| == maxLen {
      assert (text + "\0")[x..x + n] == text[|text| - n..];
    } else {
      assert x + n == |text|;
      assert (text + "\0")[x..x + n] == text[|text| - n..];
    }
    TruncatedIs(text, maxLen, sep, Elision(text, maxLen, sep));
  }

  lemma BlockPrefix(text: string, maxLen: nat, sep: string)
    requires |sep| <= maxLen < |text|
    ensures var t := Truncated(text, maxLen, sep); |t| <= maxLen && t == Block(text, maxLen, sep)[..|t|]
  {
    assert Block(text, maxLen, sep)[0..] == Block(text, maxLen, sep);
  }

  // A text whose last byte shows what an odd separator does.
  function Marked(len: nat): (text: string)
    requires len > 0
    ensures |text| == len && '\0' !in text
  {
    seq(len - 1, _ => 'a') + "b"
  }

  // With a shorter separator of odd length the end of the marked text is missed.
  lemma OddSeparatorFails(len: nat, maxLen: nat, sep: string)
    requires |sep| < maxLen < len && |sep| % 2 == 1 && '\0' !in sep
    ensures Truncated(Marked(len), maxLen, sep) != Elision(Marked(len), maxLen, sep)
  {
    var text := Marked(len);
    var start, x := Front(maxLen, |sep|), Source(len, maxLen, |sep|);
    var n := maxLen - start - |sep|;
    assert Elision(text, maxLen, sep)[maxLen - 1] == 'b';
    var block := Block(text, maxLen, sep);
    assert block[maxLen - 1] == (text + "\0")[x + n - 1] != 'b';
    BlockPrefix(text, maxLen, sep);
  }

  ghost predicate ElidesEveryText(len: nat, maxLen: nat, sep: string)
    requires |sep| <= maxLen < len
  {
    forall text :: |text| == len && '\0' !in text ==> Truncated(text, maxLen, sep) == Elision(text, maxLen, sep)
  }

  // Exactly which separators make the elision right for every text.
  lemma ElidesExactlyWhen(len: nat, maxLen: nat, sep: string)
    requires |sep| <= maxLen < len && '\0' !in sep
    ensures ElidesEveryText(len, maxLen, sep) <==> |sep| % 2 == 0 || |sep| == maxLen
  {
    if |sep| % 2 == 0 || |sep| == maxLen {
      forall text | |text| == len && '\0' !in text
        ensures Truncated(text, maxLen, sep) == Elision(text, maxLen, sep)
      {
        EvenSeparatorElides(text, maxLen, sep);
      }
    } else {
      OddSeparatorFails(len, maxLen, sep);
      assert |Marked(len)| == len;
    }
  }
}
