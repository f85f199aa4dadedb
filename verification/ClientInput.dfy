// The client's input side (src/client/input_loop.c): a typed line becomes a
// command, a command becomes a protocol line.
module ClientInput {
  import opened CStrings
  import opened CBuffers
  import opened ProtocolLine

  datatype CommandType = Unknown | List | Info | Status | Msg | All | Quit | Help

  // The value of a ParsedCommand struct.
  datatype Command = Command(kind: CommandType, arg1: CString, arg2: CString)

  const BLANKS := " \t"
  const WORD_ENDS := " \t\n\r"
  const MAX_WORD: nat := 31

  /* ----- what a typed line means ----- */

  /** How many leading characters of `s` are in `accept`. */
  function Span(s: string, accept: string): (n: nat)
    ensures n <= |s|
    ensures forall k :: 0 <= k < n ==> s[k] in accept
    ensures n < |s| ==> s[n] !in accept
  {
    if s == "" || s[0] !in accept then 0 else 1 + Span(s[1..], accept)
  }

  /** How many leading characters of `s` are not in `reject`. */
  function Cspan(s: string, reject: string): (n: nat)
    ensures n <= |s|
    ensures forall k :: 0 <= k < n ==> s[k] !in reject
    ensures n < |s| ==> s[n] in reject
  {
    if s == "" || s[0] in reject then 0 else 1 + Cspan(s[1..], reject)
  }

  function SkipBlanks(s: CString): CString {
    s[Span(s, BLANKS)..]
  }

  function Upper(s: CString): (u: CString)
    ensures |u| == |s|
    ensures forall k :: 0 <= k < |s| ==> u[k] == ToUpper(s[k])
  {
    if s == "" then "" else [ToUpper(s[0])] + Upper(s[1..])
  }

  function ToUpper(c: char): char {
    if 'a' <= c <= 'z' then (c as int - 32) as char else c
  }

  /** Without the newlines and carriage returns at the end. */
  function Trim(s: CString): (t: CString)
    ensures t <= s
    ensures t != "" ==> t[|t| - 1] != '\n' && t[|t| - 1] != '\r'
  {
    if s != "" && (s[|s| - 1] == '\n' || s[|s| - 1] == '\r') then Trim(s[..|s| - 1]) else s
  }

  // The arguments of /msg: the first token, and everything after the blanks behind it.
  function Message(rest: CString): Command {
    var n := Cspan(rest, BLANKS);
    var dest := Prefix(rest[..n], MAX_USERNAME_LEN - 1);
    var text := SkipBlanks(rest[n..]);
    if text == "" then Command(Unknown, dest, "")
    else Command(Msg, dest, Trim(Prefix(text, MAX_CHAT_LEN - 1)))
  }

  function Arguments(word: string, rest: CString): Command {
    if word == "list" then Command(List, "", "")
    else if word == "help" then Command(Help, "", "")
    else if word == "quit" then Command(Quit, "", "")
    else if rest == "" then Command(Unknown, "", "")
    else if word == "info" then Command(Info, Trim(Prefix(rest, MAX_USERNAME_LEN - 1)), "")
    else if word == "status" then Command(Status, Trim(Upper(Prefix(rest, MAX_USERNAME_LEN - 1))), "")
    else if word == "msg" then Message(rest)
    else if word == "all" then Command(All, "", Trim(Prefix(rest, MAX_CHAT_LEN - 1)))
    else Command(Unknown, "", "")
  }

  function Understand(line: CString): Command {
    var p := SkipBlanks(line);
    if p == "" || p[0] != '/' then Command(Unknown, "", "")
    else
      var n := Cspan(p[1..], WORD_ENDS);
      var word := Prefix(p[1..][..n], MAX_WORD);
      Arguments(word, SkipBlanks(p[1 + |word|..]))
  }

  function Frame(cmd: Command): Option<CString> {
    match cmd.kind
    case List => Some(Line("LIST", None, None, None))
    case Info => if cmd.arg1 == "" then None else Some(Line("INFO", Some(cmd.arg1), None, None))
    case Status =>
      if cmd.arg1 != "ACTIVO" && cmd.arg1 != "OCUPADO" && cmd.arg1 != "INACTIVO" then None
      else Some(Line("STATUS", Some(cmd.arg1), None, None))
    case Msg =>
      if cmd.arg1 == "" || cmd.arg2 == "" then None
      else Some(Line("MSG", Some(cmd.arg1), Some(cmd.arg2), None))
    case All => if cmd.arg2 == "" then None else Some(Line("BROADCAST", Some(cmd.arg2), None, None))
    case Quit => Some(Line("QUIT", None, None, None))
    case Help => None
    case Unknown => None
  }

  /* ----- the code ----- */

  class ParsedCommand {
    var kind: CommandType
    const arg1: array<char>    // MAX_USERNAME_LEN bytes
    const arg2: array<char>    // MAX_CHAT_LEN bytes
    ghost var text1: CString   // the strings in arg1 and arg2
    ghost var text2: CString

    ghost predicate Valid()
      reads this, arg1, arg2
    {
      && arg1.Length == MAX_USERNAME_LEN && arg2.Length == MAX_CHAT_LEN && arg1 != arg2
      && arg1[MAX_USERNAME_LEN - 1] == NUL && arg2[MAX_CHAT_LEN - 1] == NUL
      && CStr(arg1[..]) == text1 && CStr(arg2[..]) == text2
    }

    ghost function Value(): Command
      reads this
    {
      Command(kind, text1, text2)
    }

    constructor ()
      ensures Valid() && fresh(arg1) && fresh(arg2)
    {
      kind, text1, text2 := Unknown, "", "";
      arg1 := new char[MAX_USERNAME_LEN](_ => NUL);
      arg2 := new char[MAX_CHAT_LEN](_ => NUL);
    }

    // Zeroes the whole struct.
    method Clear()
      requires Valid()
      modifies this, arg1, arg2
      ensures Valid() && Value() == Command(Unknown, "", "")
    {
      kind, text1, text2 := Unknown, "", "";
      forall i | 0 <= i < arg1.Length { arg1[i] := NUL; }
      forall i | 0 <= i < arg2.Length { arg2[i] := NUL; }
    }

    method SetType(kind: CommandType)
      requires Valid()
      modifies this
      ensures Valid() && Value() == old(Value()).(kind := kind)
    {
      this.kind := kind;
    }

    // Copies as much of the text as fits the first argument, without the line end.
    method CopyArg1(text: CString)
      requires Valid()
      modifies this, arg1
      ensures Valid() && Value() == old(Value()).(arg1 := Trim(Prefix(text, MAX_USERNAME_LEN - 1)))
    {
      CopyTrimmed(arg1, text);
      text1 := CStr(arg1[..]);
    }

    // The same in upper case.
    method CopyUpper(text: CString)
      requires Valid()
      modifies this, arg1
      ensures Valid() && Value() == old(Value()).(arg1 := Trim(Upper(Prefix(text, MAX_USERNAME_LEN - 1))))
    {
      StrToupperCopy(arg1, text);
      TrimNewline(arg1);
      text1 := CStr(arg1[..]);
    }

    // Copies the first n characters into the first argument.
    method CopyToken(text: CString, n: nat)
      requires Valid() && n < MAX_USERNAME_LEN
      modifies this, arg1
      ensures Valid() && Value() == old(Value()).(arg1 := Prefix(text, n))
    {
      CopyString(arg1, text, n);
      text1 := Prefix(text, n);
    }

    // Copies as much of the text as fits the second argument, without the line end.
    method CopyArg2(text: CString)
      requires Valid()
      modifies this, arg2
      ensures Valid() && Value() == old(Value()).(arg2 := Trim(Prefix(text, MAX_CHAT_LEN - 1)))
    {
      CopyTrimmed(arg2, text);
      text2 := CStr(arg2[..]);
    }
  }

  method SkipSpaces(line: CString, start: nat) returns (p: nat)
    requires start <= |line|
    ensures start <= p <= |line| && line[p..] == SkipBlanks(line[start..])
  {
    p := start;
    ghost var s := line[start..];
    while p < |line| && (line[p] == ' ' || line[p] == '\t')
      invariant start <= p <= |line| && p - start <= Span(s, BLANKS)
    {
      assert s[p - start] == line[p];
      p := p + 1;
    }
    assert p < |line| ==> s[p - start] == line[p];
  }

  method TrimNewline(s: array<char>)
    requires NUL in s[..]
    modifies s
    ensures NUL in s[..] && CStr(s[..]) == Trim(old(CStr(s[..])))
    ensures forall k :: 0 <= k < s.Length ==> s[k] == old(s[k]) || s[k] == NUL
  {
    ghost var text := CStr(s[..]);
    var len := IndexOf(s[..], NUL);
    while len > 0 && (s[len - 1] == '\n' || s[len - 1] == '\r')
      invariant 0 <= len < s.Length && s[len] == NUL
      invariant len <= |text| && s[..len] == text[..len]
      invariant Trim(text[..len]) == Trim(text)
      invariant forall k :: 0 <= k < s.Length ==> s[k] == old(s[k]) || s[k] == NUL
    {
      assert text[..len][..len - 1] == text[..len - 1];
      len := len - 1;
      s[len] := NUL;
    }
    CStrIs(s[..], text[..len]);
  }

  method StrToupperCopy(dst: array<char>, src: CString)
    requires dst.Length > 0
    modifies dst
    ensures NUL in dst[..] && CStr(dst[..]) == Upper(Prefix(src, dst.Length - 1))
    ensures old(dst[dst.Length - 1]) == NUL ==> dst[dst.Length - 1] == NUL
  {
    var i := 0;
    ghost var kept := Prefix(src, dst.Length - 1);
    while i < dst.Length - 1 && i < |src|
      invariant 0 <= i <= |kept|
      invariant dst[..i] == Upper(kept)[..i] && dst[dst.Length - 1] == old(dst[dst.Length - 1])
    {
      dst[i] := ToUpper(src[i]);
      i := i + 1;
    }
    dst[i] := NUL;
    assert dst[..i] == Upper(kept);
    CStrIs(dst[..], Upper(kept));
  }

  // The command word, at most MAX_WORD characters of it.
  method CommandWord(line: CString, start: nat) returns (word: CString, p: nat)
    requires start <= |line|
    ensures word == Prefix(line[start..][..Cspan(line[start..], WORD_ENDS)], MAX_WORD)
    ensures p == start + |word|
  {
    p := start;
    var wi := 0;
    ghost var s := line[start..];
    ghost var n := Cspan(s, WORD_ENDS);
    word := "";
    while p < |line| && line[p] != ' ' && line[p] != '\t' && line[p] != '\n' && line[p] != '\r' && wi < MAX_WORD
      invariant start <= p <= |line| && p - start == wi <= MAX_WORD && wi <= n
      invariant word == s[..wi]
    {
      assert s[wi] == line[p];
      word := word + [line[p]];
      wi := wi + 1;
      p := p + 1;
    }
    assert p < |line| ==> s[wi] == line[p];
    assert s[..n][..wi] == s[..wi];
  }

  // Fills a cleared field with as much of the text as fits, without the line end.
  method CopyTrimmed(field: array<char>, text: CString)
    requires field.Length > 0 && field[field.Length - 1] == NUL
    modifies field
    ensures field[field.Length - 1] == NUL && CStr(field[..]) == Trim(Prefix(text, field.Length - 1))
  {
    Strncpy(field, 0, text, field.Length - 1);
    CStrIs(field[..], Prefix(text, field.Length - 1));
    TrimNewline(field);
  }

  // The end of the token that starts at `start`
  method TokenEnd(line: CString, start: nat) returns (p: nat)
    requires start <= |line|
    ensures p == start + Cspan(line[start..], BLANKS)
  {
    p := start;
    ghost var rest := line[start..];
    while p < |line| && line[p] != ' ' && line[p] != '\t'
      invariant start <= p <= |line| && p - start <= Cspan(rest, BLANKS)
    {
      assert rest[p - start] == line[p];
      p := p + 1;
    }
    assert p < |line| ==> rest[p - start] == line[p];
  }

  // The token at `start`, cut to fit, becomes the first argument.
  method CopyDestination(line: CString, start: nat, out: ParsedCommand) returns (p: nat)
    requires start < |line| && out.Valid()
    modifies out, out.arg1
    ensures out.Valid() && p == start + Cspan(line[start..], BLANKS)
    ensures out.Value() == old(out.Value()).(arg1 := Prefix(line[start..][..p - start], MAX_USERNAME_LEN - 1))
  {
    ghost var rest := line[start..];
    p := TokenEnd(line, start);
    var destLen := p - start;
    if destLen >= MAX_USERNAME_LEN { destLen := MAX_USERNAME_LEN - 1; }
    assert Prefix(rest, destLen) == Prefix(rest[..p - start], MAX_USERNAME_LEN - 1);
    out.CopyToken(line[start..], destLen);
  }

  // The branch for /msg: destination token, then the rest of the line
  method ParseMsg(line: CString, start: nat, out: ParsedCommand)
    requires start < |line| && out.Valid() && out.Value() == Command(Unknown, "", "")
    modifies out, out.arg1, out.arg2
    ensures out.Valid() && out.Value() == Message(line[start..])
  {
    hide Span, Cspan, Trim, Prefix, CStr, IndexOf;
    var p := CopyDestination(line, start, out);
    assert line[start..][p - start..] == line[p..];
    ghost var dest := Prefix(line[start..][..p - start], MAX_USERNAME_LEN - 1);
    p := SkipSpaces(line, p);
    if p == |line| {
      assert Message(line[start..]) == Command(Unknown, dest, "");
      return;
    }
    var text := line[p..];
    assert Message(line[start..]) == Command(Msg, dest, Trim(Prefix(text, MAX_CHAT_LEN - 1)));
    out.SetType(Msg);
    out.CopyArg2(text);
  }

  // Up to the first argument: the slash, the command word, the blanks after it
  method SplitCommand(line: CString) returns (slash: bool, word: CString, p: nat)
    ensures p <= |line|
    ensures Understand(line) == if slash then Arguments(word, line[p..]) else Command(Unknown, "", "")
  {
    p := SkipSpaces(line, 0);
    word := "";
    assert line[0..] == line;
    if p == |line| || line[p] != '/' { return false, word, p; }
    ghost var s := line[p..];
    p := p + 1;
    assert line[p..] == s[1..];
    word, p := CommandWord(line, p);
    assert line[p..] == s[1 + |word|..];
    p := SkipSpaces(line, p);
    slash := true;
  }

  method ParseCommand(line: CString, out: ParsedCommand)
    requires out.Valid()
    modifies out, out.arg1, out.arg2
    ensures out.Valid() && out.Value() == Understand(line)
  {
    out.Clear();
    var slash, word, p := SplitCommand(line);
    if !slash { return; }
    ghost var command := Arguments(word, line[p..]);
    var rest: CString := line[p..];
    if word == "list" {
      out.SetType(List);
    } else if word == "help" {
      out.SetType(Help);
    } else if word == "quit" {
      out.SetType(Quit);
    } else if word == "info" {
      if rest == "" { return; }
      assert command == Command(Info, Trim(Prefix(rest, MAX_USERNAME_LEN - 1)), "");
      out.SetType(Info);
      out.CopyArg1(rest);
    } else if word == "status" {
      if rest == "" { return; }
      assert command == Command(Status, Trim(Upper(Prefix(rest, MAX_USERNAME_LEN - 1))), "");
      out.SetType(Status);
      out.CopyUpper(rest);
    } else if word == "msg" {
      if rest == "" { return; }
      ParseMsg(line, p, out);
    } else if word == "all" {
      if rest == "" { return; }
      assert command == Command(All, "", Trim(Prefix(rest, MAX_CHAT_LEN - 1)));
      out.SetType(All);
      out.CopyArg2(rest);
    }
  }

  method CommandToProto(cmd: ParsedCommand, buf: array<char>) returns (ok: bool)
    requires cmd.Valid() && buf.Length == MAX_MSG_LEN && buf != cmd.arg1 && buf != cmd.arg2
    modifies buf
    ensures ok <==> Frame(cmd.Value()).Some?
    ensures CStr(buf[..]) == if ok then Prefix(Frame(cmd.Value()).value, MAX_MSG_LEN - 1) else ""
  {
    buf[0] := NUL;
    CStrIs(buf[..], "");
    var arg1, arg2 := CStr(cmd.arg1[..]), CStr(cmd.arg2[..]);
    match cmd.kind
    case List =>
      var _ := ProtoBuild(buf, "LIST", None, None, None);
      return true;
    case Info =>
      if arg1 == "" { return false; }
      var _ := ProtoBuild(buf, "INFO", Some(arg1), None, None);
      return true;
    case Status =>
      if arg1 == "" { return false; }
      if arg1 != "ACTIVO" && arg1 != "OCUPADO" && arg1 != "INACTIVO" { return false; }
      var _ := ProtoBuild(buf, "STATUS", Some(arg1), None, None);
      return true;
    case Msg =>
      if arg1 == "" || arg2 == "" { return false; }
      var _ := ProtoBuild(buf, "MSG", Some(arg1), Some(arg2), None);
      return true;
    case All =>
      if arg2 == "" { return false; }
      var _ := ProtoBuild(buf, "BROADCAST", Some(arg2), None, None);
      return true;
    case Quit =>
      var _ := ProtoBuild(buf, "QUIT", None, None, None);
      return true;
    case Help => return false;
    case Unknown => return false;
  }
}
