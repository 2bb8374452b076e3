/** The txtfile plugin: parsing a host file into a linked list, looking addresses up in it, and
    reloading it while workers look up (src/plugins/mod_txtfile/webcontrol_txtfile.c). */
module TxtFile {
  import opened Handlers

  datatype Option<T> = None | Some(value: T)

  // A family and the address bytes, as inet_pton yields them.
  datatype Ip = V4(bytes: nat) | V6(bytes: nat)

  // inet_pton for the two families, and whether IPv6 is compiled in.
  datatype Resolver = Resolver(v4: string -> Option<nat>, v6: string -> Option<nat>, haveIpv6: bool)

  datatype Entry = Entry(address: Ip, flag: Status)

  // A host-file line yields an entry, is skipped, or lacks a token the code dereferences.
  datatype Parsed = Skip | Found(entry: Entry) | Fault

  // ---------------------------------------------------------------- one line

  function SkipDelimiters(s: string, delimiters: string): string {
    if s != "" && s[0] in delimiters then SkipDelimiters(s[1..], delimiters) else s
  }

  // The index of the first delimiter, or the length.
  function TokenEnd(s: string, delimiters: string): (n: nat)
    ensures n <= |s|
  {
    if s == "" || s[0] in delimiters then 0 else 1 + TokenEnd(s[1..], delimiters)
  }

  // strtok_r: the next token and what is left behind its delimiter.
  function Token(s: string, delimiters: string): (Option<string>, string) {
    var t := SkipDelimiters(s, delimiters);
    var n := TokenEnd(t, delimiters);
    if t == "" then (None, "") else (Some(t[..n]), if n < |t| then t[n + 1..] else "")
  }

  function Upper(s: string): string {
    seq(|s|, i requires 0 <= i < |s| =>
      if 'a' <= s[i] <= 'z' then (s[i] as int - 32) as char else s[i])
  }

  function Resolve(r: Resolver, text: string): (ip: Option<Ip>)
    ensures ip.None? <==> r.v4(text).None? && (r.haveIpv6 ==> r.v6(text).None?)
    ensures ip.Some? && ip.value.V6? <==> r.haveIpv6 && r.v6(text).Some?
  {
    if r.haveIpv6 && r.v6(text).Some? then Some(V6(r.v6(text).value))
    else if r.v4(text).Some? then Some(V4(r.v4(text).value))
    else None
  }

  function ParseLine(r: Resolver, line: string): Parsed {
    var (first, rest) := Token(line, " ");
    if first.None? then Fault
    else
      var address := Resolve(r, first.value);
      if address.None? then Skip
      else
        var (flag, _) := Token(rest, "\r\n");
        if flag.None? then Fault
        else Found(Entry(address.value, if Upper(flag.value) == "ALLOW" then Allow else Deny))
  }

  lemma {:induction false} SkipsLead(lead: string, s: string, delimiters: string)
    requires forall i :: 0 <= i < |lead| ==> lead[i] in delimiters
    requires s != "" ==> s[0] !in delimiters
    ensures SkipDelimiters(lead + s, delimiters) == s
  {
    if lead == "" {
      assert lead + s == s;
    } else {
      assert (lead + s)[1..] == lead[1..] + s;
      SkipsLead(lead[1..], s, delimiters);
    }
  }

  lemma {:induction false} EndsAtDelimiter(word: string, s: string, delimiters: string)
    requires forall i :: 0 <= i < |word| ==> word[i] !in delimiters
    requires s == "" || s[0] in delimiters
    ensures TokenEnd(word + s, delimiters) == |word|
  {
    if word == "" {
      assert word + s == s;
    } else {
      assert (word + s)[1..] == word[1..] + s;
      EndsAtDelimiter(word[1..], s, delimiters);
    }
  }

  lemma TokenIs(lead: string, word: string, s: string, delimiters: string)
    requires forall i :: 0 <= i < |lead| ==> lead[i] in delimiters
    requires word != "" && forall i :: 0 <= i < |word| ==> word[i] !in delimiters
    requires s == "" || s[0] in delimiters
    ensures Token(lead + (word + s), delimiters) == (Some(word), if s == "" then "" else s[1..])
  {
    SkipsLead(lead, word + s, delimiters);
    EndsAtDelimiter(word, s, delimiters);
    assert (word + s)[..|word|] == word && (word + s)[|word|..] == s;
  }

  lemma {:induction false} OnlyDelimiters(s: string, delimiters: string)
    ensures SkipDelimiters(s, delimiters) == "" <==> forall i :: 0 <= i < |s| ==> s[i] in delimiters
  {
    if s != "" && s[0] in delimiters {
      OnlyDelimiters(s[1..], delimiters);
      assert s == [s[0]] + s[1..];
    }
  }

  // The word, each letter in either case, with nothing around it.
  predicate ReadsAllow(flag: string) {
    |flag| == 5 && forall i :: 0 <= i < 5 ==> flag[i] == "ALLOW"[i] || flag[i] == "allow"[i]
  }

  lemma UpperReadsAllow(flag: string)
    ensures Upper(flag) == "ALLOW" <==> ReadsAllow(flag)
  {
    if |flag| == 5 {
      forall i | 0 <= i < 5
        ensures Upper(flag)[i] == "ALLOW"[i] <==> flag[i] == "ALLOW"[i] || flag[i] == "allow"[i]
      {
        assert "ALLOW"[i] as int + 32 == "allow"[i] as int && 'A' <= "ALLOW"[i] <= 'Z';
      }
      if Upper(flag) == "ALLOW" {
        assert forall i :: 0 <= i < 5 ==> Upper(flag)[i] == "ALLOW"[i];
      }
    }
  }

  // Neither parser that is compiled in takes the text.
  predicate NoAddress(r: Resolver, text: string) {
    r.v4(text).None? && (r.haveIpv6 ==> r.v6(text).None?)
  }

  // A line of an address, one blank and a flag means that flag for that address, if one of the
  // parsers compiled in takes it, IPv6 first; the flag allows only if it reads ALLOW in any case.
  lemma HostLine(r: Resolver, lead: string, address: string, gap: string, flag: string, end: string)
    requires forall i :: 0 <= i < |lead| ==> lead[i] == ' '
    requires address != "" && forall i :: 0 <= i < |address| ==> address[i] != ' '
    requires forall i :: 0 <= i < |gap| ==> gap[i] == '\r' || gap[i] == '\n'
    requires flag != "" && forall i :: 0 <= i < |flag| ==> flag[i] != '\r' && flag[i] != '\n'
    requires end == "" || end[0] == '\r' || end[0] == '\n'
    ensures var parsed := ParseLine(r, lead + (address + (" " + (gap + (flag + end)))));
      if NoAddress(r, address) then parsed == Skip
      else
        && parsed.Found? && parsed.entry.flag == (if ReadsAllow(flag) then Allow else Deny)
        && parsed.entry.address
           == if r.haveIpv6 && r.v6(address).Some? then V6(r.v6(address).value) else V4(r.v4(address).value)
  {
    TokenIs(lead, address, " " + (gap + (flag + end)), " ");
    assert (" " + (gap + (flag + end)))[1..] == gap + (flag + end);
    TokenIs(gap, flag, end, "\r\n");
    UpperReadsAllow(flag);
  }

  // The parser lacks a token it dereferences exactly for a line of blanks and for a valid address
  // behind which stand, after one blank, at most line ends. Any line has this form.
  lemma FaultsExactlyWhen(r: Resolver, lead: string, address: string, rest: string)
    requires forall i :: 0 <= i < |lead| ==> lead[i] == ' '
    requires forall i :: 0 <= i < |address| ==> address[i] != ' '
    requires (rest == "" || rest[0] == ' ') && (address == "" ==> rest == "")
    ensures ParseLine(r, lead + (address + rest)).Fault?
       <==> (address == ""
             || (!NoAddress(r, address) && forall i :: 1 <= i < |rest| ==> rest[i] == '\r' || rest[i] == '\n'))
  {
    if address == "" {
      SkipsLead(lead, "", " ");
    } else {
      TokenIs(lead, address, rest, " ");
      if rest != "" {
        OnlyDelimiters(rest[1..], "\r\n");
        assert forall i :: 1 <= i < |rest| ==> rest[i] == rest[1..][i - 1];
      }
    }
  }

  // A second blank in front of the flag belongs to the flag, and denies.
  lemma SecondBlankDenies(r: Resolver, address: string, flag: string, end: string)
    requires address != "" && forall i :: 0 <= i < |address| ==> address[i] != ' '
    requires flag != "" && flag[0] == ' ' && forall i :: 0 <= i < |flag| ==> flag[i] != '\r' && flag[i] != '\n'
    requires (end == "" || end[0] == '\r' || end[0] == '\n') && !NoAddress(r, address)
    ensures var parsed := ParseLine(r, address + (" " + (flag + end))); parsed.Found? && parsed.entry.flag == Deny
  {
    HostLine(r, "", address, "", flag, end);
    NothingAround(address, flag + end);
    BlankIsNoLetter(flag);
  }

  lemma BlankIsNoLetter(flag: string)
    requires flag != "" && flag[0] == ' '
    ensures !ReadsAllow(flag)
  {
    assert flag[0] != "ALLOW"[0] && flag[0] != "allow"[0];
  }

  lemma NothingAround(address: string, behind: string)
    ensures "" + (address + (" " + ("" + behind))) == address + (" " + behind)
  {
    assert "" + behind == behind;
  }

  predicate WellFormed(r: Resolver, lines: seq<string>) {
    forall i :: 0 <= i < |lines| ==> !ParseLine(r, lines[i]).Fault?
  }

  // 1 for equal, 0 for different, -1 for addresses of different families.
  function CompareAddresses(a: Ip, b: Ip): (result: int)
    ensures result == 1 <==> a == b
    ensures result == -1 <==> a.V4? != b.V4?
    ensures result == 0 <==> a.V4? == b.V4? && a.bytes != b.bytes
  {
    if a.V4? != b.V4? then -1 else if a.bytes == b.bytes then 1 else 0
  }

  // ---------------------------------------------------------------- the table and its meaning

  // The list after prepending the entries of the lines one by one.
  function Build(r: Resolver, lines: seq<string>): seq<Entry> {
    if lines == [] then []
    else
      var chain := Build(r, lines[..|lines| - 1]);
      var parsed := ParseLine(r, lines[|lines| - 1]);
      if parsed.Found? then [parsed.entry] + chain else chain
  }

  // The flag of the first entry for the address.
  function Lookup(chain: seq<Entry>, address: Ip): Status {
    if chain == [] then GoOn
    else if CompareAddresses(address, chain[0].address) == 1 then chain[0].flag
    else Lookup(chain[1..], address)
  }

  predicate NamesAt(r: Resolver, lines: seq<string>, k: nat, address: Ip) {
    k < |lines| && ParseLine(r, lines[k]).Found? && ParseLine(r, lines[k]).entry.address == address
  }

  // Line k is the last one naming the address.
  ghost predicate LastNaming(r: Resolver, lines: seq<string>, k: nat, address: Ip) {
    NamesAt(r, lines, k, address) && forall j :: k < j < |lines| ==> !NamesAt(r, lines, j, address)
  }

  // The last line either decides the address or leaves it to the lines before.
  lemma LookupLast(r: Resolver, lines: seq<string>, address: Ip)
    requires lines != []
    ensures var n := |lines| - 1;
      Lookup(Build(r, lines), address)
      == if NamesAt(r, lines, n, address) then ParseLine(r, lines[n]).entry.flag
         else Lookup(Build(r, lines[..n]), address)
  {
    var n := |lines| - 1;
    var parsed, before := ParseLine(r, lines[n]), Build(r, lines[..n]);
    if parsed.Found? {
      assert ([parsed.entry] + before)[1..] == before;
    }
  }

  // The last line naming an address decides it.
  lemma {:induction false} LastLineWins(r: Resolver, lines: seq<string>, k: nat, address: Ip)
    requires LastNaming(r, lines, k, address)
    ensures Lookup(Build(r, lines), address) == ParseLine(r, lines[k]).entry.flag
  {
    var n := |lines| - 1;
    LookupLast(r, lines, address);
    if k < n {
      var init := lines[..n];
      assert !NamesAt(r, lines, n, address);
      forall j | k < j < n ensures !NamesAt(r, init, j, address) {
        assert !NamesAt(r, lines, j, address);
      }
      LastLineWins(r, init, k, address);
    }
  }

  // An address no line names is left to the next plugin.
  lemma {:induction false} UnnamedGoesOn(r: Resolver, lines: seq<string>, address: Ip)
    requires forall j: nat :: !NamesAt(r, lines, j, address)
    ensures Lookup(Build(r, lines), address) == GoOn
  {
    if lines != [] {
      LookupLast(r, lines, address);
      var init := lines[..|lines| - 1];
      forall j: nat ensures !NamesAt(r, init, j, address) {
        assert !NamesAt(r, lines, j, address);
      }
      UnnamedGoesOn(r, init, address);
    }
  }

  // ---------------------------------------------------------------- the linked list

  class HostEntry {
    const address: Ip
    const flag: Status
    var next: HostEntry?

    constructor (entry: Entry)
      ensures address == entry.address && flag == entry.flag && next == null
    {
      address, flag, next := entry.address, entry.flag, null;
    }
  }

  function EntriesOf(nodes: seq<HostEntry>): (entries: seq<Entry>)
    ensures |entries| == |nodes|
  {
    seq(|nodes|, i requires 0 <= i < |nodes| => Entry(nodes[i].address, nodes[i].flag))
  }

  // Node number i, or null behind the last.
  function NodeAt(nodes: seq<HostEntry>, i: nat): HostEntry? {
    if i < |nodes| then nodes[i] else null
  }

  lemma NodesShift(entry: HostEntry, nodes: seq<HostEntry>)
    ensures forall i: nat :: NodeAt([entry] + nodes, i + 1) == NodeAt(nodes, i)
    ensures EntriesOf([entry] + nodes) == [Entry(entry.address, entry.flag)] + EntriesOf(nodes)
  {
  }

  class HostTable {
    var entryChain: HostEntry?
    ghost var nodes: seq<HostEntry>   // the list's nodes, in order

    ghost predicate Valid()
      reads this, nodes
    {
      && entryChain == NodeAt(nodes, 0)
      && forall i :: 0 <= i < |nodes| ==> nodes[i].next == NodeAt(nodes, i + 1)
    }

    ghost function Entries(): seq<Entry>
      reads this
    {
      EntriesOf(nodes)
    }

    constructor ()
      ensures Valid() && Entries() == []
    {
      entryChain, nodes := null, [];
    }

    method ClearEntries()
      requires Valid()
      modifies this
      ensures Valid() && entryChain == null && Entries() == []
    {
      while entryChain != null
        invariant Valid()
        decreases |nodes|
      {
        NodesShift(nodes[0], nodes[1..]);
        assert nodes == [nodes[0]] + nodes[1..];
        entryChain := entryChain.next;
        nodes := nodes[1..];
      }
    }

    method Prepend(entry: HostEntry)
      requires Valid() && entry !in nodes
      modifies this, entry
      ensures Valid() && nodes == [entry] + old(nodes)
      ensures Entries() == [Entry(entry.address, entry.flag)] + old(Entries())
    {
      NodesShift(entry, nodes);
      entry.next := entryChain;
      entryChain := entry;
      nodes := [entry] + nodes;
    }

    // An unreadable file (None) leaves the table alone; a readable one replaces it.
    method ParseFile(r: Resolver, file: Option<seq<string>>)
      requires Valid() && (file.Some? ==> WellFormed(r, file.value))
      modifies this
      ensures Valid()
      ensures Entries() == if file.None? then old(Entries()) else Build(r, file.value)
    {
      if file.None? {
        return;
      }
      ClearEntries();
      var lines := file.value;
      assert lines[..0] == [];
      for k := 0 to |lines|
        invariant Valid() && fresh(nodes) && Entries() == Build(r, lines[..k])
      {
        assert lines[..k + 1][..k] == lines[..k];
        var parsed := ParseLine(r, lines[k]);
        if parsed.Found? {
          var entry := new HostEntry(parsed.entry);
          Prepend(entry);
        }
      }
      assert lines[..|lines|] == lines;
    }

    method HandleRequest(address: Ip) returns (status: Status)
      requires Valid()
      ensures status == Lookup(Entries(), address)
    {
      status := GoOn;
      var entry := entryChain;
      ghost var i := 0;
      assert Entries()[0..] == Entries();
      while entry != null
        invariant 0 <= i <= |nodes| && entry == NodeAt(nodes, i)
        invariant status == GoOn && Lookup(Entries(), address) == Lookup(Entries()[i..], address)
        decreases |nodes| - i
      {
        assert Entries()[i..][0] == Entries()[i] && Entries()[i..][1..] == Entries()[i + 1..];
        if CompareAddresses(address, entry.address) == 1 {
          status := entry.flag;
          break;
        }
        entry := entry.next;
        i := i + 1;
      }
    }
  }
}
