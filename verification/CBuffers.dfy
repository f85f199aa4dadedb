// The library calls that write into a caller's buffer, on arrays. Each call is
// specified by the whole contents it leaves behind.
module CBuffers {
  import opened CStrings

  /** strncpy, writing from index `at` on. */
  method Strncpy(dst: array<char>, at: nat, src: CString, n: nat)
    requires at + n <= dst.Length
    modifies dst
    ensures forall k :: 0 <= k < dst.Length ==>
              dst[k] == if at <= k < at + n then Padded(src, n)[k - at] else old(dst[k])
  {
    var i := 0;
    while i < n
      invariant 0 <= i <= n
      invariant forall k :: 0 <= k < dst.Length ==>
        dst[k] == if at <= k < at + i then Padded(src, n)[k - at] else old(dst[k])
    {
      dst[at + i] := if i < |src| then src[i] else NUL;
      i := i + 1;
    }
  }

  /** snprintf, writing from index `at` on; returns the length of the whole text. */
  method Snprintf(dst: array<char>, at: nat, size: nat, text: CString) returns (length: nat)
    requires at + size <= dst.Length
    modifies dst
    ensures length == |text|
    ensures size == 0 ==> dst[..] == old(dst[..])
    ensures size > 0 ==>
              dst[..] == old(dst[..at]) + Terminated(text, size) + old(dst[at + |Terminated(text, size)|..])
  {
    length := |text|;
    if size == 0 { return; }
    var kept := Prefix(text, size - 1);
    var i := 0;
    while i < |kept|
      invariant 0 <= i <= |kept|
      invariant dst[..at] == old(dst[..at]) && dst[at + |kept|..] == old(dst[at + |kept|..])
      invariant dst[at..at + i] == kept[..i]
    {
      dst[at + i] := kept[i];
      i := i + 1;
    }
    dst[at + |kept|] := NUL;
  }

  /** Ends the string in a buffer at its first newline. */
  method CutAtNewline(s: array<char>)
    requires NUL in s[..]
    modifies s
    ensures NUL in s[..]
    ensures CStr(s[..]) == UpToNewline(old(CStr(s[..])))
  {
    ghost var text := CStr(s[..]);
    var i := 0;
    while s[i] != NUL && s[i] != '\n'
      invariant 0 <= i <= |text| && s[..] == old(s[..])
      invariant '\n' !in text[..i]
      decreases |text| - i
    {
      i := i + 1;
    }
    IndexIs(text, '\n', i);
    s[i] := NUL;
    CStrIs(s[..], text[..i]);
  }

  /** Appends a text to the `used` characters already in the buffer, as far as it fits. */
  method AppendText(out: array<char>, used: nat, text: CString) returns (written: nat)
    requires used < out.Length && NUL !in out[..used]
    modifies out
    ensures written == |text|
    ensures written < out.Length - used ==>
              out[..used + written] == old(out[..used]) + text && out[used + written] == NUL
    ensures written >= out.Length - used ==>
              CStr(out[..]) == Prefix(old(out[..used]) + text, out.Length - 1)
  {
    ghost var soFar := out[..used];
    var size := out.Length - used;
    written := Snprintf(out, used, size, text);
    assert out[..used + |Terminated(text, size)|] == soFar + Terminated(text, size);
    if written >= size {
      CStrIs(out[..], soFar + Prefix(text, size - 1));
    }
  }

  /** Copies at most `n` characters and terminates them. */
  method CopyString(out: array<char>, text: CString, n: nat)
    requires n < out.Length
    modifies out
    ensures NUL in out[..] && CStr(out[..]) == Prefix(text, n)
    ensures out[n] == NUL && forall k :: n < k < out.Length ==> out[k] == old(out[k])
  {
    Strncpy(out, 0, text, n);
    out[n] := NUL;
    CStrIs(out[..], Prefix(text, n));
  }

  /** strncat: appends at most `n` characters of a text to the string in a buffer. */
  method Strncat(dst: array<char>, src: CString, n: nat)
    requires NUL in dst[..] && |CStr(dst[..])| + n < dst.Length
    modifies dst
    ensures NUL in dst[..] && CStr(dst[..]) == old(CStr(dst[..])) + Prefix(src, n)
  {
    ghost var text := CStr(dst[..]);
    var used := IndexOf(dst[..], NUL);
    var i := 0;
    while i < n && i < |src|
      invariant 0 <= i <= |Prefix(src, n)| && dst[..used + i] == text + src[..i]
    {
      dst[used + i] := src[i];
      i := i + 1;
    }
    dst[used + i] := NUL;
    CStrIs(dst[..], text + Prefix(src, n));
  }
}
