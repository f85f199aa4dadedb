// The server's replies (the build_* functions of src/common/protocol.c) and the
// client's field parsers (src/client/receiver_loop.c), which use strtok.
module Replies {
  import opened CStrings
  import opened CBuffers
  import opened ProtocolLine

  /* ----- strtok ----- */

  // The next token of the string in a buffer: n characters behind `skip` delimiters.
  lemma TokenInBuffer(b: string, d: char, skip: nat, word: string, n: nat)
    requires NUL in b && d != NUL && skip == Leading(CStr(b), d)
    requires word == CStr(b)[skip..] && word != "" && n == IndexOf(word, d)
    ensures skip + n < |b| && NUL !in b[skip..skip + n]
    ensures if n == |word| then b[skip + n] == NUL
            else b[skip + n] == d && skip + n + 1 < |b| && NUL in b[skip + n + 1..]
    ensures Tokens(CStr(b), d) ==
            [b[skip..skip + n]] + if n < |word| then Tokens(CStr(b[skip + n + 1..]), d) else []
  {
    hide Tokens;
    var text := CStr(b);
    TokensStep(text, d, word, n);
    assert |text| == skip + |word| && skip + n <= |text| < |b| && text == b[..|text|];
    assert word[..n] == text[skip..skip + n] == b[skip..skip + n];
    if n < |word| {
      CStrSuffix(b, skip + n + 1);
      assert word[n + 1..] == text[skip + n + 1..];
    }
  }

  // The hidden state of strtok: a buffer and the place where the next call resumes.
  class StrTok {
    var buf: array<char>
    var pos: nat

    ghost predicate Valid()
      reads this, buf
    {
      pos < buf.Length && NUL in buf[pos..]
    }

    ghost function Rest(): CString
      requires Valid()
      reads this, buf
    {
      CStr(buf[pos..])
    }

    constructor ()
      ensures Valid() && fresh(buf)
    {
      buf, pos := new char[1](_ => NUL), 0;
      new;
      assert buf[0..][0] == NUL;
    }

    // A first call, with a string, starts on this string.
    method Begin(s: array<char>, start: nat)
      requires start < s.Length && NUL in s[start..]
      modifies this
      ensures Valid() && buf == s && Rest() == CStr(s[start..])
    {
      buf, pos := s, start;
    }

    // The next token is buf[start..stop]; start is -1 if there is none
    method Locate(d: char) returns (start: int, stop: nat)
      requires Valid() && d != NUL
      ensures start == -1 <==> Tokens(Rest(), d) == []
      ensures start != -1 ==>
                && 0 <= start <= stop < buf.Length && NUL !in buf[start..stop]
                && (buf[stop] == NUL || (stop + 1 < buf.Length && NUL in buf[stop + 1..]))
                && Tokens(Rest(), d) ==
                   [buf[start..stop]] + if buf[stop] == NUL then [] else Tokens(CStr(buf[stop + 1..]), d)
    {
      hide Tokens, Leading, IndexOf, CStr;
      ghost var b := buf[pos..];
      var text := CStr(buf[pos..]);
      var skip := Leading(text, d);
      start := pos + skip;
      if skip == |text| {
        NoTokens(text, d);
        return -1, 0;
      }
      var n := IndexOf(text[skip..], d);
      stop := start + n;
      TokenInBuffer(b, d, skip, text[skip..], n);
      assert b[skip..skip + n] == buf[start..stop];
      assert stop + 1 <= buf.Length && b[skip + n + 1..] == buf[stop + 1..];
    }

    method Next(d: char) returns (tok: int)
      requires Valid() && d != NUL
      modifies this, buf
      ensures Valid() && buf == old(buf) && -1 <= tok < buf.Length
      ensures tok == -1 <==> Tokens(old(Rest()), d) == []
      ensures tok == -1 ==> Tokens(Rest(), d) == []
      ensures tok >= 0 ==>
                && NUL in buf[tok..] && tok + |CStr(buf[tok..])| <= pos
                && [CStr(buf[tok..])] + Tokens(Rest(), d) == Tokens(old(Rest()), d)
    {
      var stop;
      tok, stop := Locate(d);
      if tok == -1 { return; }
      if buf[stop] == NUL {
        pos := stop;
        CStrAt(buf[..], stop, stop);
      } else {
        ghost var rest := buf[stop + 1..];
        buf[stop] := NUL;
        pos := stop + 1;
        assert buf[pos..] == rest;
      }
      CStrAt(buf[..], tok, stop);
    }
  }

  /* ----- the client's field parsers ----- */

  /** A field as it arrives in a buffer of n + 1 bytes: cut to fit, then cut at a newline. */
  function Cut(text: CString, n: nat): CString {
    UpToNewline(Prefix(text, n))
  }

  // Token k cut to fit, or the empty string the buffer was initialised with.
  function CutField(tokens: seq<string>, k: nat, n: nat): string {
    if k < |tokens| && NUL !in tokens[k] then Cut(tokens[k], n) else ""
  }

  // Copies as much of the text as fits, terminates it, and cuts it at a newline.
  method CopyField(f: array<char>, text: CString)
    requires f.Length > 0
    modifies f
    ensures NUL in f[..] && CStr(f[..]) == Cut(text, f.Length - 1)
  {
    CopyString(f, text, f.Length - 1);
    CutAtNewline(f);
  }

  // One round of the parsers: the next token, if any, is copied into `f`.
  method NextField(tk: StrTok, f: array<char>) returns (found: bool)
    requires tk.Valid() && tk.buf != f && f.Length > 0
    modifies tk, tk.buf, f
    ensures tk.Valid() && tk.buf == old(tk.buf)
    ensures var tokens := Tokens(old(tk.Rest()), '|');
            && (found <==> tokens != [])
            && (found ==> NUL in f[..] && CStr(f[..]) == CutField(tokens, 0, f.Length - 1)
                          && Tokens(tk.Rest(), '|') == tokens[1..])
            && (!found ==> f[..] == old(f[..]))
  {
    var tok := tk.Next('|');
    if tok == -1 { return false; }
    var text := CStr(tk.buf[tok..]);
    CopyField(f, text);
    return true;
  }

  // The tokens behind a pointer into a buffer; -1 stands for NULL.
  ghost function TokensAt(buf: array<char>, rest: int): seq<string>
    reads buf
    requires -1 <= rest < buf.Length
  {
    if rest == -1 then [] else Tokens(CStr(buf[rest..]), '|')
  }

  method ParseTwoFields(tk: StrTok, buf: array<char>, rest: int, f1: array<char>, f2: array<char>) returns (ok: bool)
    requires -1 <= rest < buf.Length && (rest >= 0 ==> NUL in buf[rest..])
    requires buf != f1 && buf != f2 && f1 != f2 && f1.Length > 0 && f2.Length > 0
    requires f1[0] == NUL && f2[0] == NUL
    modifies tk, buf, f1, f2
    ensures var tokens := old(TokensAt(buf, rest));
            && (ok <==> |tokens| >= 2)
            && NUL in f1[..] && CStr(f1[..]) == CutField(tokens, 0, f1.Length - 1)
            && NUL in f2[..] && CStr(f2[..]) == CutField(tokens, 1, f2.Length - 1)
            && (ok ==> tk.Valid() && tk.buf == buf && Tokens(tk.Rest(), '|') == tokens[2..])
  {
    CStrIs(f1[..], "");
    CStrIs(f2[..], "");
    assert f1[..][0] == NUL && f2[..][0] == NUL;
    if rest == -1 { return false; }
    tk.Begin(buf, rest);
    ok := NextField(tk, f1);
    if !ok { return; }
    ok := NextField(tk, f2);
  }

  method ParseThreeFields(tk: StrTok, buf: array<char>, rest: int, f1: array<char>, f2: array<char>, f3: array<char>)
    returns (ok: bool)
    requires -1 <= rest < buf.Length && (rest >= 0 ==> NUL in buf[rest..])
    requires buf != f1 && buf != f2 && buf != f3 && f1 != f2 && f1 != f3 && f2 != f3
    requires f1.Length > 0 && f2.Length > 0 && f3.Length > 0 && f1[0] == NUL && f2[0] == NUL && f3[0] == NUL
    modifies tk, buf, f1, f2, f3
    ensures var tokens := old(TokensAt(buf, rest));
            && (ok <==> |tokens| >= 3)
            && CStr(f1[..]) == CutField(tokens, 0, f1.Length - 1)
            && CStr(f2[..]) == CutField(tokens, 1, f2.Length - 1)
            && CStr(f3[..]) == CutField(tokens, 2, f3.Length - 1)
  {
    CStrIs(f3[..], "");
    ok := ParseTwoFields(tk, buf, rest, f1, f2);
    if !ok { return; }
    ok := NextField(tk, f3);
  }

  /** What parse_msg_fields makes of "sender|text": everything behind the first separator is text. */
  function MsgFields(rest: Option<CString>, fromLen: nat, msgLen: nat): (CString, CString)
    requires fromLen > 0 && msgLen > 0
  {
    match rest
    case None => ("", "")
    case Some(r) =>
      var i := IndexOf(r, '|');
      if i < |r| then (Cut(r[..i], fromLen - 1), Cut(r[i + 1..], msgLen - 1))
      else (Cut(r, fromLen - 1), "")
  }

  // `from` comes zeroed, as dispatch_message declares it: strncpy does not terminate a short sender.
  method ParseMsgFields(rest: Option<CString>, from: array<char>, msg: array<char>)
    requires from.Length > 0 && msg.Length > 0 && from != msg
    requires forall k :: 0 <= k < from.Length ==> from[k] == NUL
    modifies from, msg
    ensures (CStr(from[..]), CStr(msg[..])) == MsgFields(rest, from.Length, msg.Length)
  {
    hide UpToNewline, Prefix, CStr, IndexOf;
    from[0] := NUL;
    msg[0] := NUL;
    CStrIs(from[..], "");
    CStrIs(msg[..], "");
    if rest.None? { return; }
    var r := rest.value;
    var sep := IndexOf(r, '|');
    if sep < |r| {
      CopySender(r, sep, from);
      CopyField(msg, r[sep + 1..]);
    } else {
      CopyField(from, r);
    }
  }

  method CopySender(r: CString, sep: nat, from: array<char>)
    requires sep <= |r| && from.Length > 0
    requires forall k :: 0 <= k < from.Length ==> from[k] == NUL
    modifies from
    ensures CStr(from[..]) == Cut(r[..sep], from.Length - 1)
  {
    var n := if sep < from.Length then sep else from.Length - 1;
    Strncpy(from, 0, r, n);
    from[from.Length - 1] := NUL;
    CStrIs(from[..], Prefix(r[..sep], from.Length - 1));
    CutAtNewline(from);
  }
}
