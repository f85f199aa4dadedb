// What the client shows for a line from the server: the parsing part of
// dispatch_message (src/client/receiver_loop.c) and of client_register
// (src/client/main_client.c), against the server's builders.
module Dispatch {
  import opened CStrings
  import opened CBuffers
  import opened Framing
  import opened ProtocolLine
  import opened Replies

  /* ----- the builders of src/common/protocol.c ----- */

  function RegisterOkLine(user: CString, ip: CString): CString { Line("REGISTER_OK", Some(user), Some(ip), Some("ACTIVO")) }
  function ErrorLine(op: CString, code: CString, desc: CString): CString { Line("ERROR", Some(op), Some(code), Some(desc)) }
  function ListOkLine(users: CString): CString { Line("LIST_OK", Some(users), None, None) }
  function InfoOkLine(user: CString, ip: CString, status: CString): CString { Line("INFO_OK", Some(user), Some(ip), Some(status)) }
  function StatusOkLine(status: CString): CString { Line("STATUS_OK", Some(status), None, None) }
  function StatusChangedLine(user: CString, status: CString): CString { Line("STATUS_CHANGED", Some(user), Some(status), None) }
  function MsgOkLine(dst: CString): CString { Line("MSG_OK", Some(dst), None, None) }
  function DeliverLine(src: CString, msg: CString): CString { Line("DELIVER", Some(src), Some(msg), None) }
  function BroadcastOkLine(): CString { Line("BROADCAST_OK", None, None, None) }
  function ByeLine(): CString { Line("BYE", None, None, None) }
  function BroadcastFromLine(src: CString, msg: CString): CString { Line("BROADCAST_FROM", Some(src), Some(msg), None) }

  // What every builder does: format one line into the caller's buffer.
  method Build(out: array<char>, line: CString) returns (length: nat)
    modifies out
    ensures length == |line|
    ensures out.Length > 0 ==> CStr(out[..]) == Prefix(line, out.Length - 1)
  {
    if out.Length == 0 {
      length := Snprintf(out, 0, 0, line);
    } else {
      length := AppendText(out, 0, line);
      if length < out.Length { CStrIs(out[..], line); }
    }
  }

  /* ----- what a line means to the client ----- */

  datatype Shown =
    | PrivateIn(from: string, msg: string)
    | BroadcastIn(from: string, msg: string)
    | StatusChanged(user: string, status: string)
    | Users(users: string)
    | UserInfo(user: string, ip: string, status: string)
    | StatusOk(status: string)
    | MsgOk(dest: string)
    | BroadcastOk
    | Failed(operation: string, code: string, description: string)
    | Disconnected
    | Unrecognised(line: string)

  function FieldTokens(rest: Option<CString>): seq<string> {
    match rest
    case None => []
    case Some(r) => Tokens(r, '|')
  }

  function RestCut(rest: Option<CString>, n: nat): string {
    match rest
    case None => ""
    case Some(r) => Cut(r, n)
  }

  function Show(kind: string, rest: Option<CString>, line: string): Shown {
    var t := FieldTokens(rest);
    if kind == "DELIVER" then
      var (from, msg) := MsgFields(rest, MAX_USERNAME_LEN, MAX_CHAT_LEN);
      PrivateIn(from, msg)
    else if kind == "BROADCAST_FROM" then
      var (from, msg) := MsgFields(rest, MAX_USERNAME_LEN, MAX_CHAT_LEN);
      BroadcastIn(from, msg)
    else if kind == "STATUS_CHANGED" then StatusChanged(CutField(t, 0, MAX_USERNAME_LEN - 1), CutField(t, 1, 15))
    else if kind == "LIST_OK" then Users(RestCut(rest, MAX_MSG_LEN - 1))
    else if kind == "INFO_OK" then
      UserInfo(CutField(t, 0, MAX_USERNAME_LEN - 1), CutField(t, 1, 63), CutField(t, 2, 15))
    else if kind == "STATUS_OK" then StatusOk(RestCut(rest, 15))
    else if kind == "MSG_OK" then MsgOk(RestCut(rest, MAX_USERNAME_LEN - 1))
    else if kind == "BROADCAST_OK" then BroadcastOk
    else if kind == "ERROR" then Failed(CutField(t, 0, 63), CutField(t, 1, 63), CutField(t, 2, 255))
    else if kind == "BYE" then Disconnected
    else Unrecognised(line)
  }

  function Display(line: CString): Shown {
    var (kind, rest) := ParseType(Prefix(line, MAX_MSG_LEN - 1));
    Show(kind, rest, line)
  }

  // A local buffer, zeroed when it is declared.
  method Zeroed(n: nat) returns (a: array<char>)
    ensures fresh(a) && a.Length == n && forall k :: 0 <= k < n ==> a[k] == NUL
  {
    a := new char[n](_ => NUL);
  }

  method ShowChat(rest: Option<CString>) returns (from: CString, msg: CString)
    ensures (from, msg) == MsgFields(rest, MAX_USERNAME_LEN, MAX_CHAT_LEN)
  {
    var fromBuf := Zeroed(MAX_USERNAME_LEN);
    var msgBuf := Zeroed(MAX_CHAT_LEN);
    ParseMsgFields(rest, fromBuf, msgBuf);
    return CStr(fromBuf[..]), CStr(msgBuf[..]);
  }

  // parse_three_fields into zeroed local buffers of n1, n2 and n3 bytes
  method ShowThree(buf: array<char>, rest: int, n1: nat, n2: nat, n3: nat) returns (f1: CString, f2: CString, f3: CString)
    requires -1 <= rest < buf.Length && (rest >= 0 ==> NUL in buf[rest..])
    requires n1 > 0 && n2 > 0 && n3 > 0
    modifies buf
    ensures var t := old(TokensAt(buf, rest));
            f1 == CutField(t, 0, n1 - 1) && f2 == CutField(t, 1, n2 - 1) && f3 == CutField(t, 2, n3 - 1)
  {
    hide TokensAt, CutField;
    var tk := new StrTok();
    var b1 := Zeroed(n1);
    var b2 := Zeroed(n2);
    var b3 := Zeroed(n3);
    var _ := ParseThreeFields(tk, buf, rest, b1, b2, b3);
    return CStr(b1[..]), CStr(b2[..]), CStr(b3[..]);
  }

  method ShowTwo(buf: array<char>, rest: int, n1: nat, n2: nat) returns (f1: CString, f2: CString)
    requires -1 <= rest < buf.Length && (rest >= 0 ==> NUL in buf[rest..])
    requires n1 > 0 && n2 > 0
    modifies buf
    ensures var t := old(TokensAt(buf, rest)); f1 == CutField(t, 0, n1 - 1) && f2 == CutField(t, 1, n2 - 1)
  {
    hide TokensAt, CutField;
    var tk := new StrTok();
    var b1 := Zeroed(n1);
    var b2 := Zeroed(n2);
    var _ := ParseTwoFields(tk, buf, rest, b1, b2);
    return CStr(b1[..]), CStr(b2[..]);
  }

  // The branches of dispatch_message, on the copy of the line whose type has been taken off
  method ShowMessage(kind: CString, buf: array<char>, rest: int, line: CString) returns (shown: Shown)
    requires -1 <= rest < buf.Length && (rest >= 0 ==> NUL in buf[rest..])
    modifies buf
    ensures shown == Show(kind, if rest == -1 then None else Some(old(CStr(buf[rest..]))), line)
  {
    hide Tokens, MsgFields, CStr, Cut, CutField;
    var text: Option<CString> := if rest == -1 then None else Some(CStr(buf[rest..]));
    if kind == "DELIVER" {
      var from, msg := ShowChat(text);
      return PrivateIn(from, msg);
    }
    if kind == "BROADCAST_FROM" {
      var from, msg := ShowChat(text);
      return BroadcastIn(from, msg);
    }
    if kind == "STATUS_CHANGED" {
      var username, status := ShowTwo(buf, rest, MAX_USERNAME_LEN, 16);
      return StatusChanged(username, status);
    }
    if kind == "LIST_OK" {
      var users := CopyRest(text, MAX_MSG_LEN);
      return Users(users);
    }
    if kind == "INFO_OK" {
      var username, ip, status := ShowThree(buf, rest, MAX_USERNAME_LEN, 64, 16);
      return UserInfo(username, ip, status);
    }
    if kind == "STATUS_OK" {
      var status := CopyRest(text, 16);
      return StatusOk(status);
    }
    if kind == "MSG_OK" {
      var dest := CopyRest(text, MAX_USERNAME_LEN);
      return MsgOk(dest);
    }
    if kind == "BROADCAST_OK" { return BroadcastOk; }
    if kind == "ERROR" {
      var operation, code, description := ShowThree(buf, rest, 64, 64, 256);
      return Failed(operation, code, description);
    }
    if kind == "BYE" { return Disconnected; }
    return Unrecognised(line);
  }

  // The rest of the line, if any, in a zeroed buffer of n bytes, up to a newline.
  method CopyRest(rest: Option<CString>, n: nat) returns (copy: CString)
    requires n > 0
    ensures copy == RestCut(rest, n - 1)
  {
    var f := Zeroed(n);
    CStrIs(f[..], "");
    if rest.Some? {
      CopyField(f, rest.value);
    }
    return CStr(f[..]);
  }

  method DispatchMessage(line: CString) returns (shown: Shown, result: int)
    ensures shown == Display(line)
    ensures result == if shown == Disconnected then -1 else 0
  {
    var kind := new char[MAX_MSG_LEN];
    var restBuf := new char[MAX_MSG_LEN];
    CopyString(restBuf, line, MAX_MSG_LEN - 1);
    var rest := ProtoParseType(restBuf, kind);
    shown := ShowMessage(CStr(kind[..]), restBuf, rest, line);
    result := if shown == Disconnected then -1 else 0;
  }

  /* ----- receiver_loop ----- */

  // Why the loop ended.
  datatype End = Stopped | Closed | Broken | SaidBye

  /** What the lines of a stream show, one after another, up to the first BYE. */
  function UntilBye(lines: seq<string>): seq<Shown> {
    if lines == [] then []
    else
      var shown := Display(CStr(lines[0]));
      [shown] + if shown == Disconnected then [] else UntilBye(lines[1..])
  }

  lemma UntilByeStep(done: seq<Shown>, line: string, lines: seq<string>)
    ensures var shown := Display(CStr(line));
            done + UntilBye([line] + lines) == done + [shown] + if shown == Disconnected then [] else UntilBye(lines)
  {
    assert ([line] + lines)[1..] == lines;
  }

  // A received line as a C string.
  lemma LineInBuffer(buffer: string, line: string)
    requires |line| < |buffer| && buffer[..|line|] == line && buffer[|line|] == NUL
    ensures CStr(buffer) == CStr(line)
  {
    IndexIs(buffer, NUL, IndexOf(line, NUL));
  }

  method ReceiveText(socket: Incoming, line: array<char>) returns (n: int, text: CString, ghost next: string)
    requires socket.Valid() && line.Length == MAX_MSG_LEN
    modifies socket, line
    ensures socket.Valid()
    ensures n == 0 ==> Lines(old(socket.Rest()), MAX_MSG_LEN) == []
    ensures n > 0 ==>
              && text == CStr(next) && |socket.Rest()| < |old(socket.Rest())|
              && Lines(old(socket.Rest()), MAX_MSG_LEN) == [next] + Lines(socket.Rest(), MAX_MSG_LEN)
  {
    hide NextLine, IndexOf, CStr;
    next := NextLine(socket.Rest(), MAX_MSG_LEN);
    text := "";
    n := ClientRecvLine(socket, line);
    if n > 0 {
      LineInBuffer(line[..], next);
      text := CStr(line[..]);
    }
  }

  // Another thread may clear the running flag at any time.
  method ReceiverLoop(socket: Incoming) returns (shown: seq<Shown>, end: End)
    requires socket.Valid()
    modifies socket
    ensures shown <= UntilBye(Lines(old(socket.Rest()), MAX_MSG_LEN))
    ensures end == Closed || end == SaidBye ==> shown == UntilBye(Lines(old(socket.Rest()), MAX_MSG_LEN))
    ensures end == SaidBye <==> shown != [] && shown[|shown| - 1] == Disconnected
  {
    hide Lines, Display, CStr, UntilBye;
    NothingShown();
    var line := new char[MAX_MSG_LEN];
    ghost var all := UntilBye(Lines(socket.Rest(), MAX_MSG_LEN));
    shown, end := [], Stopped;
    var running: bool := *;
    while running
      invariant socket.Valid() && end == Stopped
      invariant shown + UntilBye(Lines(socket.Rest(), MAX_MSG_LEN)) == all
      invariant shown != [] ==> shown[|shown| - 1] != Disconnected
      decreases |socket.Rest()|
    {
      var n, text, next := ReceiveText(socket, line);
      if n == 0 {
        return shown, Closed;
      }
      if n < 0 {
        return shown, Broken;
      }
      UntilByeStep(shown, next, Lines(socket.Rest(), MAX_MSG_LEN));
      var dispatched, result := DispatchMessage(text);
      shown := shown + [dispatched];
      if result == -1 {
        return shown, SaidBye;
      }
      running := *;
    }
  }

  lemma NothingShown()
    ensures UntilBye([]) == []
  {
  }

  /** A line without a newline within its first 1023 characters arrives as these. */
  lemma LongLine(stream: string)
    requires |stream| >= 1023 && forall k :: 0 <= k < 1023 ==> stream[k] != '\n'
    ensures NextLine(stream, MAX_MSG_LEN) == stream[..1023]
  {
  }

  /* ----- round trips: the client undoes the server's builders ----- */

  // A field that survives a buffer of n + 1 bytes and the tokenizer.
  predicate IsField(f: CString, n: nat) {
    f != "" && |f| <= n && '|' !in f && '\n' !in f
  }

  // A text that survives a buffer of n + 1 bytes; it may be empty and contain separators.
  predicate IsText(f: CString, n: nat) {
    |f| <= n && '\n' !in f
  }

  lemma CutText(f: CString, n: nat)
    requires IsText(f, n)
    ensures Cut(f, n) == f
  {
    IndexIs(f, '\n', |f|);
  }

  // A line that fits arrives with its type and its fields separated.
  lemma Arrives(kind: CString, f1: CString, f2: Option<CString>, f3: Option<CString>)
    requires '|' !in kind && |Line(kind, Some(f1), f2, f3)| < MAX_MSG_LEN
    ensures Display(Line(kind, Some(f1), f2, f3)) ==
            Show(kind, Some(f1 + Field(f2) + Field(f3)), Line(kind, Some(f1), f2, f3))
  {
    hide ParseType, Show;
    ParseTypeOfLine(kind, f1, f2, f3);
  }

  lemma TokensOfTwo(f1: CString, f2: CString)
    requires f1 != "" && f2 != "" && '|' !in f1 && '|' !in f2
    ensures Tokens(f1 + Field(Some(f2)) + Field(None), '|') == [f1, f2]
  {
    hide Tokens;
    TokensJoin([f1, f2], '|');
    assert [f1, f2][1..] == [f2];
    assert Join([f1, f2], '|') == f1 + "|" + f2;
    assert f1 + ("|" + f2) + "" == f1 + "|" + f2;
  }

  lemma TokensOfThree(f1: CString, f2: CString, f3: CString)
    requires f1 != "" && f2 != "" && f3 != "" && '|' !in f1 && '|' !in f2 && '|' !in f3
    ensures Tokens(f1 + Field(Some(f2)) + Field(Some(f3)), '|') == [f1, f2, f3]
  {
    hide Tokens;
    TokensJoin([f1, f2, f3], '|');
    assert [f1, f2, f3][1..] == [f2, f3] && [f2, f3][1..] == [f3];
    assert Join([f2, f3], '|') == f2 + "|" + f3;
    assert Join([f1, f2, f3], '|') == f1 + "|" + (f2 + "|" + f3);
    assert f1 + ("|" + f2) + ("|" + f3) == f1 + "|" + (f2 + "|" + f3);
  }

  // A field without a newline is cut to its buffer and to nothing else.
  lemma CutPlain(f: CString, n: nat)
    requires '\n' !in f
    ensures Cut(f, n) == Prefix(f, n)
    ensures Prefix(f, n) == f <==> |f| <= n
  {
    IndexIs(Prefix(f, n), '\n', |Prefix(f, n)|);
  }

  // A field with a newline ends there.
  lemma CutBeforeNewline(f: CString, more: CString, n: nat)
    requires '\n' !in f
    ensures Cut(f + "\n" + more, n) == Prefix(f, n)
  {
    var cut := Prefix(f + "\n" + more, n);
    var end := if |f| < n then |f| else n;
    assert forall k :: 0 <= k < |f| ==> (f + "\n" + more)[k] == f[k];
    IndexIs(cut, '\n', end);
  }

  // A field of any length that the tokenizer does not touch.
  predicate IsToken(f: CString) {
    f != "" && '|' !in f && '\n' !in f
  }

  /** Name, address and status, each cut to its buffer; so a name of 32 characters, which both
      checks accept, is shown with 31. */
  lemma InfoOkRoundTrip(user: CString, ip: CString, status: CString)
    requires IsToken(user) && IsToken(ip) && IsToken(status) && |InfoOkLine(user, ip, status)| < MAX_MSG_LEN
    ensures Display(InfoOkLine(user, ip, status)) ==
            UserInfo(Prefix(user, MAX_USERNAME_LEN - 1), Prefix(ip, 63), Prefix(status, 15))
    ensures Display(InfoOkLine(user, ip, status)) == UserInfo(user, ip, status) <==>
            |user| < MAX_USERNAME_LEN && |ip| <= 63 && |status| <= 15
  {
    hide Tokens, Cut, MsgFields, Display, IndexOf, Line;
    Arrives("INFO_OK", user, Some(ip), Some(status));
    TokensOfThree(user, ip, status);
    CutPlain(user, MAX_USERNAME_LEN - 1);
    CutPlain(ip, 63);
    CutPlain(status, 15);
  }

  /** Operation, code and description, each cut to its buffer. */
  lemma ErrorRoundTrip(op: CString, code: CString, desc: CString)
    requires IsToken(op) && IsToken(code) && IsToken(desc) && |ErrorLine(op, code, desc)| < MAX_MSG_LEN
    ensures Display(ErrorLine(op, code, desc)) == Failed(Prefix(op, 63), Prefix(code, 63), Prefix(desc, 255))
    ensures Display(ErrorLine(op, code, desc)) == Failed(op, code, desc) <==>
            |op| <= 63 && |code| <= 63 && |desc| <= 255
  {
    hide Tokens, Cut, MsgFields, Display, IndexOf, Line;
    Arrives("ERROR", op, Some(code), Some(desc));
    TokensOfThree(op, code, desc);
    CutPlain(op, 63);
    CutPlain(code, 63);
    CutPlain(desc, 255);
  }

  /** Name and status, each cut to its buffer. */
  lemma StatusChangedRoundTrip(user: CString, status: CString)
    requires IsToken(user) && IsToken(status) && |StatusChangedLine(user, status)| < MAX_MSG_LEN
    ensures Display(StatusChangedLine(user, status)) == StatusChanged(Prefix(user, MAX_USERNAME_LEN - 1), Prefix(status, 15))
    ensures Display(StatusChangedLine(user, status)) == StatusChanged(user, status) <==>
            |user| < MAX_USERNAME_LEN && |status| <= 15
  {
    hide Tokens, Cut, MsgFields, Display, IndexOf, Line;
    Arrives("STATUS_CHANGED", user, Some(status), None);
    TokensOfTwo(user, status);
    CutPlain(user, MAX_USERNAME_LEN - 1);
    CutPlain(status, 15);
  }

  /** The only field of MSG_OK, STATUS_OK and LIST_OK, cut to its buffer; separators stay. */
  lemma OneFieldRoundTrips(dst: CString, status: CString, users: CString)
    requires '\n' !in dst && |MsgOkLine(dst)| < MAX_MSG_LEN
    requires '\n' !in status && |StatusOkLine(status)| < MAX_MSG_LEN
    requires '\n' !in users && |ListOkLine(users)| < MAX_MSG_LEN
    ensures Display(MsgOkLine(dst)) == MsgOk(Prefix(dst, MAX_USERNAME_LEN - 1))
    ensures Display(StatusOkLine(status)) == StatusOk(Prefix(status, 15))
    ensures Display(ListOkLine(users)) == Users(users)
  {
    hide Tokens, Cut, MsgFields, Display, IndexOf;
    Arrives("MSG_OK", dst, None, None);
    Arrives("STATUS_OK", status, None, None);
    Arrives("LIST_OK", users, None, None);
    assert dst + "" + "" == dst && status + "" + "" == status && users + "" + "" == users;
    CutPlain(dst, MAX_USERNAME_LEN - 1);
    CutPlain(status, 15);
    CutPlain(users, MAX_MSG_LEN - 1);
  }

  // A line that consists of its type alone.
  lemma ArrivesAlone(kind: CString)
    requires '|' !in kind && |kind| < MAX_MSG_LEN - 1
    ensures Display(Line(kind, None, None, None)) == Show(kind, None, Line(kind, None, None, None))
  {
    hide ParseType, Show;
    ParseTypeAlone(kind);
  }

  /** The replies without fields. */
  lemma BroadcastOkRoundTrip()
    ensures Display(BroadcastOkLine()) == BroadcastOk
  {
    ArrivesAlone("BROADCAST_OK");
  }

  lemma ByeRoundTrip()
    ensures Display(ByeLine()) == Disconnected
  {
    ArrivesAlone("BYE");
  }

  /** What is shown is decided by the type of the line alone: BYE and nothing else ends the
      session, and exactly the types the client does not know are unrecognised. */
  lemma ShownByType(line: CString)
    ensures var kind := ParseType(Prefix(line, MAX_MSG_LEN - 1)).0;
            var shown := Display(line);
            && (shown.PrivateIn? <==> kind == "DELIVER")
            && (shown.BroadcastIn? <==> kind == "BROADCAST_FROM")
            && (shown.StatusChanged? <==> kind == "STATUS_CHANGED")
            && (shown.Users? <==> kind == "LIST_OK")
            && (shown.UserInfo? <==> kind == "INFO_OK")
            && (shown.StatusOk? <==> kind == "STATUS_OK")
            && (shown.MsgOk? <==> kind == "MSG_OK")
            && (shown.BroadcastOk? <==> kind == "BROADCAST_OK")
            && (shown.Failed? <==> kind == "ERROR")
            && (shown == Disconnected <==> kind == "BYE")
            && (shown.Unrecognised? ==> shown == Unrecognised(line))
  {
    hide ParseType, MsgFields, CutField, RestCut, FieldTokens;
  }

  // The sender ends at the first separator, the text keeps its own.
  lemma MsgFieldsOf(src: CString, msg: CString)
    requires '\n' !in src && '|' !in src && '\n' !in msg
    ensures MsgFields(Some(src + Field(Some(msg)) + Field(None)), MAX_USERNAME_LEN, MAX_CHAT_LEN) ==
            (Prefix(src, MAX_USERNAME_LEN - 1), Prefix(msg, MAX_CHAT_LEN - 1))
  {
    var r := src + ("|" + msg) + "";
    assert r[..|src|] == src && r[|src|] == '|' && r[|src| + 1..] == msg;
    IndexIs(r, '|', |src|);
    CutPlain(src, MAX_USERNAME_LEN - 1);
    CutPlain(msg, MAX_CHAT_LEN - 1);
  }

  // A separator in the sender's name moves the border.
  lemma MsgFieldsMoved(src: CString, msg: CString)
    requires '|' in src
    ensures MsgFields(Some(src + Field(Some(msg)) + Field(None)), MAX_USERNAME_LEN, MAX_CHAT_LEN).0 != src
  {
    var i := IndexOf(src, '|');
    var r := src + ("|" + msg) + "";
    assert r[..i] == src[..i] && r[i] == src[i];
    IndexIs(r, '|', i);
  }

  /** The text of a delivery reaches the user, separators and all, under its sender's name, both
      cut to their buffers, if that name has no separator; so both appear unchanged exactly
      if the name has no separator and no 32nd character and the text no 900th. */
  lemma DeliverRoundTrip(src: CString, msg: CString)
    requires '\n' !in src && '\n' !in msg && |BroadcastFromLine(src, msg)| < MAX_MSG_LEN
    ensures var (from, text) := (Prefix(src, MAX_USERNAME_LEN - 1), Prefix(msg, MAX_CHAT_LEN - 1));
            '|' !in src ==>
              && Display(DeliverLine(src, msg)) == PrivateIn(from, text)
              && Display(BroadcastFromLine(src, msg)) == BroadcastIn(from, text)
    ensures Display(DeliverLine(src, msg)) == PrivateIn(src, msg) <==>
            '|' !in src && |src| < MAX_USERNAME_LEN && |msg| < MAX_CHAT_LEN
    ensures Display(BroadcastFromLine(src, msg)) == BroadcastIn(src, msg) <==>
            '|' !in src && |src| < MAX_USERNAME_LEN && |msg| < MAX_CHAT_LEN
  {
    hide Tokens, Cut, MsgFields, Display, IndexOf;
    Arrives("DELIVER", src, Some(msg), None);
    Arrives("BROADCAST_FROM", src, Some(msg), None);
    CutPlain(src, MAX_USERNAME_LEN - 1);
    CutPlain(msg, MAX_CHAT_LEN - 1);
    if '|' in src { MsgFieldsMoved(src, msg); } else { MsgFieldsOf(src, msg); }
  }

  /* ----- lines with fields missing ----- */

  lemma TokensOfOne(f: CString)
    requires f != "" && '|' !in f
    ensures Tokens(f, '|') == [f]
  {
    hide Tokens;
    TokensJoin([f], '|');
  }

  /** Fields that are missing at the end of a line are shown empty. */
  lemma OneFieldOnly(f: CString, line: string)
    requires IsToken(f)
    ensures Show("INFO_OK", Some(f), line) == UserInfo(Prefix(f, MAX_USERNAME_LEN - 1), "", "")
    ensures Show("STATUS_CHANGED", Some(f), line) == StatusChanged(Prefix(f, MAX_USERNAME_LEN - 1), "")
    ensures Show("ERROR", Some(f), line) == Failed(Prefix(f, 63), "", "")
  {
    hide Tokens, Cut, MsgFields, IndexOf;
    TokensOfOne(f);
    CutPlain(f, MAX_USERNAME_LEN - 1);
    CutPlain(f, 63);
  }

  lemma TwoFieldsOnly(f1: CString, f2: CString, line: string)
    requires IsToken(f1) && IsToken(f2)
    ensures var rest := Some(f1 + Field(Some(f2)) + Field(None));
            && Show("INFO_OK", rest, line) == UserInfo(Prefix(f1, MAX_USERNAME_LEN - 1), Prefix(f2, 63), "")
            && Show("ERROR", rest, line) == Failed(Prefix(f1, 63), Prefix(f2, 63), "")
  {
    hide Tokens, Cut, MsgFields, IndexOf;
    TokensOfTwo(f1, f2);
    CutPlain(f1, MAX_USERNAME_LEN - 1);
    CutPlain(f1, 63);
    CutPlain(f2, 63);
  }

  /** A delivery without a separator has a sender and no text. */
  lemma SenderOnly(src: CString, line: string)
    requires '|' !in src && '\n' !in src
    ensures Show("DELIVER", Some(src), line) == PrivateIn(Prefix(src, MAX_USERNAME_LEN - 1), "")
    ensures Show("BROADCAST_FROM", Some(src), line) == BroadcastIn(Prefix(src, MAX_USERNAME_LEN - 1), "")
  {
    hide Tokens, Cut;
    IndexIs(src, '|', |src|);
    CutPlain(src, MAX_USERNAME_LEN - 1);
  }

  /** A line without any field shows all of them empty. */
  lemma NoFieldAtAll(line: string)
    ensures Show("DELIVER", None, line) == PrivateIn("", "")
    ensures Show("BROADCAST_FROM", None, line) == BroadcastIn("", "")
    ensures Show("STATUS_CHANGED", None, line) == StatusChanged("", "")
    ensures Show("LIST_OK", None, line) == Users("")
    ensures Show("INFO_OK", None, line) == UserInfo("", "", "")
    ensures Show("STATUS_OK", None, line) == StatusOk("")
    ensures Show("MSG_OK", None, line) == MsgOk("")
    ensures Show("ERROR", None, line) == Failed("", "", "")
  {
  }

  /* ----- BYE ends the receiver ----- */

  function ShownAll(lines: seq<string>): seq<Shown> {
    if lines == [] then [] else [Display(CStr(lines[0]))] + ShownAll(lines[1..])
  }

  lemma UntilByeNext(line: string, lines: seq<string>)
    requires Display(CStr(line)) != Disconnected
    ensures UntilBye([line] + lines) == [Display(CStr(line))] + UntilBye(lines)
  {
    hide Display;
    assert ([line] + lines)[1..] == lines;
  }

  lemma ShownAllNext(line: string, lines: seq<string>)
    ensures ShownAll([line] + lines) == [Display(CStr(line))] + ShownAll(lines)
  {
    hide Display;
    assert ([line] + lines)[1..] == lines;
  }

  lemma UntilByeLonger(line: string, lines: seq<string>, more: seq<string>)
    requires Display(CStr(line)) != Disconnected && UntilBye(lines + more) == ShownAll(lines) + UntilBye(more)
    ensures UntilBye([line] + lines + more) == ShownAll([line] + lines) + UntilBye(more)
  {
    hide Display, CStr, UntilBye, ShownAll;
    UntilByeNext(line, lines + more);
    ShownAllNext(line, lines);
    assert [line] + lines + more == [line] + (lines + more);
  }

  lemma {:induction false} UntilByeFrames(frames: seq<string>, more: seq<string>)
    requires Disconnected !in ShownAll(frames)
    ensures UntilBye(frames + more) == ShownAll(frames) + UntilBye(more)
  {
    if frames == [] {
      assert frames + more == more && [] + UntilBye(more) == UntilBye(more);
    } else {
      assert ShownAll(frames)[0] == Display(CStr(frames[0])) && ShownAll(frames)[1..] == ShownAll(frames[1..]);
      UntilByeFrames(frames[1..], more);
      UntilByeLonger(frames[0], frames[1..], more);
      assert [frames[0]] + frames[1..] == frames;
    }
  }

  /** From frames that do not end the session, a BYE and anything behind it, the receiver shows
      the frames and the end of the session, and nothing after that. */
  lemma ByeEnds(frames: seq<string>, rest: string)
    requires forall k :: 0 <= k < |frames| ==> IsFrame(frames[k], MAX_MSG_LEN)
    requires Disconnected !in ShownAll(frames)
    ensures UntilBye(Lines(Flatten(frames) + (ByeLine() + rest), MAX_MSG_LEN)) == ShownAll(frames) + [Disconnected]
  {
    hide Display, CStr, NextLine, IndexOf, UntilBye, Lines, ShownAll;
    var bye := ByeLine();
    ByeIsFrame();
    FramesFirst(frames, bye + rest, MAX_MSG_LEN);
    LinesStep(bye, rest, MAX_MSG_LEN);
    UntilByeFrames(frames, [bye] + Lines(rest, MAX_MSG_LEN));
    UntilByeStep([], bye, Lines(rest, MAX_MSG_LEN));
    ByeRoundTrip();
    assert [] + UntilBye([bye] + Lines(rest, MAX_MSG_LEN)) == [Disconnected];
  }

  lemma ByeIsFrame()
    ensures IsFrame(ByeLine(), MAX_MSG_LEN) && CStr(ByeLine()) == ByeLine()
  {
    assert ByeLine() == "BYE\n";
    IndexIs("BYE\n", '\n', 3);
    IndexIs("BYE\n", NUL, 4);
  }
}
