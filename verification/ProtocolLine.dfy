// The line protocol of include/protocol.h: TYPE|f1|f2|f3 and a newline, built
// into a bounded buffer by proto_build and taken apart by proto_parse_type.
module ProtocolLine {
  import opened CStrings
  import opened CBuffers

  const MAX_MSG_LEN: nat := 1024
  const MAX_CHAT_LEN: nat := 900
  const MAX_USERNAME_LEN: nat := 32

  datatype Option<+T> = None | Some(value: T)

  function Field(f: Option<CString>): CString {
    match f
    case None => ""
    case Some(text) => "|" + text
  }

  /** The whole line, before any buffer cuts it. */
  function Line(kind: CString, f1: Option<CString>, f2: Option<CString>, f3: Option<CString>): CString {
    kind + Field(f1) + Field(f2) + Field(f3) + "\n"
  }

  /* ----- proto_build ----- */

  // `text` has been formatted so far: completely, or as far as the buffer goes.
  ghost predicate Built(buf: array<char>, n: nat, text: string)
    reads buf
  {
    if n < buf.Length then n == |text| && buf[..n] == text && buf[n] == NUL
    else |text| >= buf.Length && (buf.Length > 0 ==> CStr(buf[..]) == Prefix(text, buf.Length - 1))
  }

  // Formats one more piece behind the first n characters, unless the buffer is full already.
  method Append(buf: array<char>, n: nat, text: CString, ghost soFar: CString) returns (n': nat)
    requires Built(buf, n, soFar)
    modifies buf
    ensures Built(buf, n', soFar + text)
  {
    n' := n;
    if n < buf.Length {
      var written := AppendText(buf, n, text);
      n' := n + written;
    }
  }

  method AppendField(buf: array<char>, n: nat, f: Option<CString>, ghost soFar: CString) returns (n': nat)
    requires Built(buf, n, soFar)
    modifies buf
    ensures Built(buf, n', soFar + Field(f))
  {
    n' := n;
    if f.Some? {
      n' := Append(buf, n, "|" + f.value, soFar);
    }
  }

  lemma BuiltIsPrefix(buf: array<char>, n: nat, text: CString)
    requires Built(buf, n, text)
    ensures buf.Length > 0 ==> CStr(buf[..]) == Prefix(text, buf.Length - 1)
    ensures n < buf.Length <==> |text| < buf.Length
    ensures n < buf.Length ==> n == |text|
  {
    if n < buf.Length { CStrIs(buf[..], text); }
  }

  method ProtoBuild(buf: array<char>, kind: CString, f1: Option<CString>, f2: Option<CString>, f3: Option<CString>)
    returns (n: nat)
    modifies buf
    ensures buf.Length > 0 ==> CStr(buf[..]) == Prefix(Line(kind, f1, f2, f3), buf.Length - 1)
    ensures n < buf.Length <==> |Line(kind, f1, f2, f3)| < buf.Length
    ensures n < buf.Length ==> n == |Line(kind, f1, f2, f3)|
  {
    if buf.Length == 0 {
      n := Snprintf(buf, 0, 0, kind);
    } else {
      n := AppendText(buf, 0, kind);
    }
    n := AppendField(buf, n, f1, kind);
    n := AppendField(buf, n, f2, kind + Field(f1));
    n := AppendField(buf, n, f3, kind + Field(f1) + Field(f2));
    n := Append(buf, n, "\n", kind + Field(f1) + Field(f2) + Field(f3));
    BuiltIsPrefix(buf, n, Line(kind, f1, f2, f3));
  }

  /* ----- proto_parse_type ----- */

  function WithoutNewline(text: CString): CString {
    if text != "" && text[|text| - 1] == '\n' then text[..|text| - 1] else text
  }

  function ParseType(text: CString): (CString, Option<CString>) {
    var t := WithoutNewline(text);
    var i := IndexOf(t, '|');
    if i == |t| then (t, None) else (t[..i], Some(t[i + 1..]))
  }

  // The first step: a newline at the end of the line is overwritten.
  method ChopNewline(line: array<char>) returns (len: nat)
    requires NUL in line[..]
    modifies line
    ensures len < line.Length && line[len] == NUL
    ensures line[..len] == WithoutNewline(old(CStr(line[..])))
  {
    len := IndexOf(line[..], NUL);
    ghost var text := CStr(line[..]);
    assert text == line[..len];
    if len > 0 && line[len - 1] == '\n' {
      len := len - 1;
      line[len] := NUL;
      assert line[..len] == text[..len];
    }
  }

  // `rest` is the index in `line` where the fields start, or -1 for NULL.
  method ProtoParseType(line: array<char>, typeOut: array<char>) returns (rest: int)
    requires NUL in line[..] && line.Length <= typeOut.Length == MAX_MSG_LEN && line != typeOut
    modifies line, typeOut
    ensures -1 <= rest < line.Length
    ensures var (kind, fields) := ParseType(old(CStr(line[..])));
            && NUL in typeOut[..] && CStr(typeOut[..]) == kind
            && if rest == -1 then fields == None
               else NUL in line[rest..] && fields == Some(CStr(line[rest..]))
  {
    ghost var text := CStr(line[..]);
    var len := ChopNewline(line);
    var t: CString := line[..len];
    assert t == WithoutNewline(text);
    var sep := IndexOf(t, '|');
    if sep == len {
      CopyString(typeOut, t, MAX_MSG_LEN - 1);
      return -1;
    }
    CopyString(typeOut, t, sep);
    assert line[sep + 1..][..len - sep - 1] == t[sep + 1..];
    CStrIs(line[sep + 1..], t[sep + 1..]);
    return sep + 1;
  }

  lemma ParseTypeSplits(kind: CString, rest: CString)
    requires '|' !in kind
    ensures ParseType(kind + "|" + rest + "\n") == (kind, Some(rest))
  {
    var t := kind + "|" + rest;
    assert (t + "\n")[..|t|] == t;
    assert t[..|kind|] == kind && t[|kind| + 1..] == rest;
    IndexIs(t, '|', |kind|);
  }

  /** Taking a line apart gives back its type and everything after the first separator. */
  lemma ParseTypeOfLine(kind: CString, f1: CString, f2: Option<CString>, f3: Option<CString>)
    requires '|' !in kind
    ensures ParseType(Line(kind, Some(f1), f2, f3)) == (kind, Some(f1 + Field(f2) + Field(f3)))
  {
    ParseTypeSplits(kind, f1 + Field(f2) + Field(f3));
    assert kind + Field(Some(f1)) == kind + "|" + f1;
    Regroup(kind + "|", f1, Field(f2), Field(f3));
  }

  /** An absent field leaves no trace between the others. */
  lemma AbsentFields(kind: CString, f: Option<CString>, g: Option<CString>)
    ensures Line(kind, None, f, g) == Line(kind, f, g, None)
    ensures Line(kind, f, None, g) == Line(kind, f, g, None)
  {
    assert kind + "" == kind && kind + Field(f) + "" == kind + Field(f);
    assert kind + Field(f) + Field(g) + "" == kind + Field(f) + Field(g);
  }

  /** A line that was cut before its newline is taken apart like the one with its newline. */
  lemma ParseTypeUnended(text: CString)
    requires text == "" || text[|text| - 1] != '\n'
    ensures ParseType(text) == ParseType(text + "\n")
  {
    assert (text + "\n")[..|text|] == text;
  }

  lemma ParseTypeAlone(kind: CString)
    requires '|' !in kind
    ensures ParseType(Line(kind, None, None, None)) == (kind, None)
  {
    assert Line(kind, None, None, None) == kind + "\n";
    assert (kind + "\n")[..|kind|] == kind;
    IndexIs(kind, '|', |kind|);
  }
}
