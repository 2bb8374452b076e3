/** The growable NUL-terminated byte buffer of src/core/webcontrol_buffer.c. */
module Buffer {

  const PIECE_SIZE := 64
  const MAX_REUSE_SIZE := 256

  // strlen: the distance to the first NUL.
  function StrLen(s: string): (n: nat)
    requires '\0' in s
    ensures n < |s| && s[n] == '\0' && '\0' !in s[..n]
  {
    if s[0] == '\0' then 0 else
      var n := 1 + StrLen(s[1..]);
      assert s[..n] == [s[0]] + s[1..][..n - 1];
      n
  }

  // The C string a pointer into s at `from` denotes.
  function CString(s: string, from: nat): string
    requires from <= |s| && '\0' in s[from..]
  {
    s[from..][..StrLen(s[from..])]
  }

  // What stands before the first NUL.
  function BeforeNul(s: string): (t: string)
    ensures t <= s && '\0' !in t && ('\0' !in s ==> t == s)
    ensures |t| < |s| ==> s[|t|] == '\0'
  {
    if '\0' in s then s[..StrLen(s)] else s
  }

  lemma BeforeNulIs(s: string, n: nat)
    requires n <= |s| && '\0' !in s[..n] && (n < |s| ==> s[n] == '\0')
    ensures BeforeNul(s) == s[..n]
  {
    var t := BeforeNul(s);
    forall k | 0 <= k < n ensures s[k] != '\0' {
      assert s[k] == s[..n][k];
    }
    forall k | 0 <= k < |t| ensures s[k] != '\0' {
      assert s[k] == t[k];
    }
  }

  // The C string read at a text followed by NUL is what stands before the text's first NUL.
  lemma CStringIs(s: string, from: nat, n: nat)
    requires from + n < |s| && s[from + n] == '\0'
    ensures '\0' in s[from..] && CString(s, from) == BeforeNul(s[from..from + n])
  {
    var text := s[from..from + n];
    assert s[from..][n] == '\0';
    var m, t := StrLen(s[from..]), BeforeNul(text);
    forall k | from <= k < from + m ensures s[k] != '\0' {
      assert s[k] == s[from..][..m][k - from];
    }
    forall k | from <= k < from + |t| ensures s[k] != '\0' {
      assert s[k] == t[k - from];
    }
  }

  // memcpy between distinct objects.
  method CopyBytes(dst: array<char>, at: nat, src: array<char>, from: nat, n: nat)
    requires dst != src && at + n <= dst.Length && from + n <= src.Length
    modifies dst
    ensures dst[..] == old(dst[..at]) + src[from..from + n] + old(dst[at + n..])
  {
    forall i | 0 <= i < n { dst[at + i] := src[from + i]; }
  }

  class Buffer {
    var ptr: array?<char>
    var len: nat        // bytes in use, counting the terminating NUL; 0 when never filled
    var capacity: nat

    ghost predicate Valid()
      reads this, ptr
    {
      && (ptr == null <==> capacity == 0)
      && (ptr != null ==> ptr.Length == capacity && capacity % 64 == 0)
      && len <= capacity
      && (len > 0 ==> ptr[len - 1] == '\0')
    }

    ghost function Text(): string
      requires Valid()
      reads this, ptr
    {
      if len == 0 then "" else ptr[..len - 1]
    }

    // Capacity follows the text; this holds as long as only AppendStringLen and Reset are used.
    predicate Bounded()
      reads this
    {
      capacity <= 256 || capacity <= 2 * len + 65
    }

    // The block is the old one, freed, or newly allocated.
    twostate predicate Reallocated()
      reads this
    {
      ptr == old(ptr) || ptr == null || fresh(ptr)
    }

    constructor ()
      ensures Valid() && Text() == "" && ptr == null && Bounded()
    {
      ptr, len, capacity := null, 0, 0;
    }

    method PrepareCopy(size: nat)
      requires Valid()
      modifies this
      ensures len == 0 && Valid() && Reallocated() && ptr != null && capacity >= size
      ensures if old(capacity) == 0 || size > old(capacity) then size < capacity <= size + 64
              else capacity == old(capacity)
    {
      if capacity == 0 || size > capacity {
        capacity := size;
        capacity := capacity + (PIECE_SIZE - capacity % PIECE_SIZE);
        ptr := new char[capacity];
      }
      len := 0;
    }

    method CopyStringLen(s: array<char>, from: nat, n: nat)
      requires Valid() && from + n <= s.Length && s != ptr
      modifies this, ptr
      ensures Valid() && Reallocated() && Text() == old(s[from..from + n])
    {
      PrepareCopy(n + 1);
      CopyBytes(ptr, 0, s, from, n);
      ptr[n] := '\0';
      len := n + 1;
      assert ptr[..n] == s[from..from + n];
    }

    method CopyString(s: array<char>, from: nat)
      requires Valid() && from <= s.Length && '\0' in s[from..] && s != ptr
      modifies this, ptr
      ensures Valid() && Reallocated() && Text() == old(CString(s[..], from)) && len > 0
    {
      ghost var text := CString(s[..], from);
      assert s[..][from..] == s[from..];
      var n := StrLen(s[from..]) + 1;
      PrepareCopy(n);
      CopyBytes(ptr, 0, s, from, n);
      len := n;
      assert ptr[..n] == s[from..from + n];
      assert ptr[..len - 1] == text;
    }

    method CopyBuffer(src: Buffer)
      requires Valid() && src.Valid() && src != this && (src.ptr != ptr || ptr == null)
      modifies this, ptr
      ensures Valid() && Reallocated() && Text() == old(src.Text())
    {
      if src.len == 0 {
        Reset();
      } else {
        CopyStringLen(src.ptr, 0, src.len - 1);
      }
    }

    method PrepareAppend(size: nat)
      requires Valid()
      modifies this
      ensures Valid() && Reallocated() && ptr != null
      ensures len == old(len) && Text() == old(Text())
      ensures len + size <= capacity
      ensures capacity == old(capacity) || old(capacity) + size < capacity <= old(capacity) + size + 64
      ensures old(capacity) > 0 && old(len) + size <= old(capacity) ==> capacity == old(capacity)
    {
      if capacity == 0 {
        capacity := size;
        capacity := capacity + (PIECE_SIZE - capacity % PIECE_SIZE);
        ptr := new char[capacity];
        len := 0;
      } else if len + size > capacity {
        var block := ptr;
        capacity := capacity + size;
        capacity := capacity + (PIECE_SIZE - capacity % PIECE_SIZE);
        ptr := new char[capacity];
        forall i | 0 <= i < block.Length { ptr[i] := block[i]; }
        assert len > 0 ==> ptr[..len - 1] == block[..len - 1];
      }
    }

    method AppendString(s: array<char>, from: nat)
      requires Valid() && from <= s.Length && '\0' in s[from..] && s != ptr
      modifies this, ptr
      ensures Valid() && Reallocated() && Text() == old(Text()) + old(CString(s[..], from)) && len > 0
    {
      ghost var before, text := Text(), CString(s[..], from);
      assert s[..][from..] == s[from..];
      var n := StrLen(s[from..]);
      PrepareAppend(n + 1);
      if len == 0 {
        len := len + 1;
      }
      assert ptr[..len - 1] == before;
      CopyBytes(ptr, len - 1, s, from, n + 1);
      len := len + n;
      assert s[from..from + n] == text;
      assert ptr[..len - 1] == before + s[from..from + n];
      assert ptr[len - 1] == s[from + n];
    }

    method AppendStringLen(s: array<char>, from: nat, n: nat)
      requires Valid() && from + n <= s.Length && s != ptr
      modifies this, ptr
      ensures Valid() && Reallocated() && Text() == old(Text()) + old(s[from..from + n])
      ensures old(Bounded()) ==> Bounded()
    {
      if n == 0 {
        return;
      }
      ghost var before, more := Text(), s[from..from + n];
      PrepareAppend(n + 1);
      if len == 0 {
        len := len + 1;
      }
      assert ptr[..len - 1] == before && s[from..from + n] == more;
      CopyBytes(ptr, len - 1, s, from, n);
      len := len + n;
      assert ptr[..len - 1] == before + more;
      ptr[len - 1] := '\0';
    }

    method Reset()
      requires Valid()
      modifies this, ptr
      ensures Valid() && Reallocated() && Text() == "" && Bounded()
      ensures capacity == if old(capacity) > 256 then 0 else old(capacity)
    {
      if capacity > MAX_REUSE_SIZE {
        ptr := null;
        capacity := 0;
      } else if capacity > 0 {
        ptr[0] := '\0';
      }
      len := 0;
    }
  }
}
