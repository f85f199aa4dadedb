// The table of tests/stub_server.c, g_clients and g_count, and what each of its
// critical sections does to it.
module StubTable {
  import opened CStrings
  import opened CBuffers
  import opened Search
  import opened ProtocolLine
  import opened Replies
  import opened Dispatch

  datatype Slot = Slot(sockfd: int, username: CString, ip: CString)

  // A thread's own copy of its StubClient.
  datatype Client = Client(slot: nat, sockfd: int, username: CString, ip: CString)

  // A line and the descriptor it is sent to.
  type Sends = seq<(int, CString)>

  const FREE := Slot(-1, "", "")

  function HasFd(fd: int): Slot -> bool {
    (s: Slot) => s.sockfd == fd
  }

  function HasName(name: CString): Slot -> bool {
    (s: Slot) => s.username == name
  }

  function Reserve(slots: seq<Slot>, i: nat, fd: int, ip: CString): seq<Slot>
    requires i < |slots|
  {
    slots[i := slots[i].(sockfd := fd, ip := ip)]
  }

  /** The duplicate check looks at the first `count` slots; None when it reads past the table. */
  function NameTaken(slots: seq<Slot>, count: int, name: CString): Option<bool> {
    if exists i :: 0 <= i < count && i < |slots| && slots[i].username == name then Some(true)
    else if count > |slots| then None
    else Some(false)
  }

  function Record(cli: Client): Slot {
    Slot(cli.sockfd, cli.username, cli.ip)
  }

  // What a leaving thread does to its slot: nothing, if it never registered.
  function Vacate(slots: seq<Slot>, cli: Client): seq<Slot>
    requires cli.slot < |slots|
  {
    if cli.username == "" then slots
    else slots[cli.slot := slots[cli.slot].(username := "", sockfd := -1)]
  }

  function Uncount(count: int, cli: Client): int {
    if cli.username == "" then count else if count - 1 < 0 then 0 else count - 1
  }

  /* ----- routing ----- */

  // What the stub makes of the rest of a MSG line: destination and text.
  function Route(rest: Option<CString>): (CString, CString) {
    match rest
    case None => ("", "")
    case Some(r) =>
      var i := IndexOf(r, '|');
      if i == |r| then ("", "")
      else (Prefix(r[..i], MAX_USERNAME_LEN - 1), Cut(r[i + 1..], MAX_CHAT_LEN - 1))
  }

  // A line is formatted into MAX_MSG_LEN bytes and sent with one call.
  function Sent(line: CString): CString {
    Prefix(line, MAX_MSG_LEN - 1)
  }

  const USER_NOT_FOUND: CString := "USER_NOT_FOUND"
  const NO_SUCH_USER: CString := "Usuario no encontrado"
  const NO_RECIPIENT: CString := ErrorLine("MSG", USER_NOT_FOUND, NO_SUCH_USER)

  function MsgSends(slots: seq<Slot>, cli: Client, rest: Option<CString>): Sends {
    var (dest, msg) := Route(rest);
    var i := FirstIndex(slots, HasName(dest));
    if i < |slots| then
      [(slots[i].sockfd, Sent(DeliverLine(cli.username, msg))), (cli.sockfd, Sent(MsgOkLine(dest)))]
    else
      [(cli.sockfd, Sent(NO_RECIPIENT))]
  }

  /** One copy for every slot with a name, in slot order; none for the descriptor `except`. */
  function Fanout(slots: seq<Slot>, line: CString, except: Option<int>): Sends {
    if slots == [] then []
    else
      var n := |slots| - 1;
      Fanout(slots[..n], line, except) + if Gets(slots[n], except) then [(slots[n].sockfd, line)] else []
  }

  predicate Gets(slot: Slot, except: Option<int>) {
    slot.username != "" && except != Some(slot.sockfd)
  }

  function BroadcastSends(slots: seq<Slot>, cli: Client, rest: Option<CString>): Sends {
    Fanout(slots, Sent(BroadcastFromLine(cli.username, RestCut(rest, MAX_CHAT_LEN - 1))), None)
    + [(cli.sockfd, Sent(BroadcastOkLine()))]
  }

  const INVALID_STATUS: CString := "INVALID_STATUS"
  const NO_SUCH_STATUS: CString := "Status inv\U{C3}\U{A1}lido"
  const BAD_STATUS: CString := ErrorLine("STATUS", INVALID_STATUS, NO_SUCH_STATUS)

  function StatusSends(slots: seq<Slot>, cli: Client, rest: Option<CString>): Sends {
    var status := RestCut(rest, 31);
    if status != "ACTIVO" && status != "OCUPADO" && status != "INACTIVO" then [(cli.sockfd, Sent(BAD_STATUS))]
    else
      Fanout(slots, Sent(StatusChangedLine(cli.username, status)), Some(cli.sockfd))
      + [(cli.sockfd, Sent(StatusOkLine(status)))]
  }

  const NO_INFO: CString := ErrorLine("INFO", USER_NOT_FOUND, NO_SUCH_USER)

  function InfoSends(slots: seq<Slot>, cli: Client, rest: Option<CString>): Sends {
    var i := FirstIndex(slots, HasName(RestCut(rest, MAX_USERNAME_LEN - 1)));
    [(cli.sockfd, Sent(if i < |slots| then InfoOkLine(slots[i].username, slots[i].ip, "ACTIVO") else NO_INFO))]
  }

  /** The names in the table, in slot order. */
  function Names(slots: seq<Slot>): (names: seq<string>)
    ensures forall k :: 0 <= k < |names| ==> names[k] != ""
  {
    if slots == [] then []
    else
      var n := |slots| - 1;
      Names(slots[..n]) + if slots[n].username != "" then [slots[n].username] else []
  }

  /** The listing has one place for every slot with a name, in slot order, and no other places. */
  lemma {:induction false} NamesInOrder(slots: seq<Slot>, i: nat)
    requires i < |slots|
    ensures var before := |Names(slots[..i])|;
            && |Names(slots[..i + 1])| == before + (if slots[i].username != "" then 1 else 0) <= |Names(slots)|
            && (slots[i].username != "" ==> Names(slots)[before] == slots[i].username)
    decreases |slots|
  {
    var n := |slots| - 1;
    if i == n {
      assert slots[..i + 1] == slots;
    } else {
      assert slots[..n][..i] == slots[..i] && slots[..n][..i + 1] == slots[..i + 1];
      NamesInOrder(slots[..n], i);
    }
  }

  lemma {:induction false} NamesAreCStrings(slots: seq<Slot>)
    ensures NUL !in Join(Names(slots), ';')
  {
    if slots == [] {
    } else {
      var n := |slots| - 1;
      NamesAreCStrings(slots[..n]);
      JoinNext(Names(slots[..n]), slots[n].username, ';');
      assert Names(slots[..n]) + [] == Names(slots[..n]);
    }
  }

  const MAX_LIST: nat := 900

  function ListSends(slots: seq<Slot>, cli: Client): Sends {
    NamesAreCStrings(slots);
    [(cli.sockfd, Sent(ListOkLine(Prefix(Join(Names(slots), ';'), MAX_LIST))))]
  }

  const UNKNOWN_CMD: CString := "UNKNOWN_CMD"
  const UNKNOWN_COMMAND: CString := "Comando desconocido"

  function UnknownSends(cli: Client, kind: CString): Sends {
    [(cli.sockfd, Sent(ErrorLine(Prefix(kind, 64), UNKNOWN_CMD, UNKNOWN_COMMAND)))]
  }

  const BAD_FORMAT: CString := "BAD_FORMAT"
  const NAME_IS_EMPTY: CString := "campo username vac\U{C3}\U{AD}o"
  const NO_NAME: CString := ErrorLine("REGISTER", BAD_FORMAT, NAME_IS_EMPTY)
  const DUPLICATE_NAME: CString := "DUPLICATE_NAME"
  const NAME_IN_USE: CString := "El nombre ya est\U{C3}\U{A1} en uso"
  const DUPLICATE: CString := ErrorLine("REGISTER", DUPLICATE_NAME, NAME_IN_USE)

  // What a call of handle_message leaves behind: the table, the thread's own copy, the lines
  // sent, and whether the connection stays open. Undefined: it reads past the table.
  datatype Outcome = Undefined | Outcome(slots: seq<Slot>, count: int, cli: Client, sends: Sends, goesOn: bool)

  function Registration(slots: seq<Slot>, count: int, cli: Client, rest: Option<CString>): Outcome
    requires cli.slot < |slots|
  {
    if rest == None || rest == Some("") then Outcome(slots, count, cli, [(cli.sockfd, Sent(NO_NAME))], false)
    else
      var name := Cut(rest.value, MAX_USERNAME_LEN - 1);
      match NameTaken(slots, count, name)
      case None => Undefined
      case Some(true) => Outcome(slots, count, cli, [(cli.sockfd, Sent(DUPLICATE))], false)
      case Some(false) =>
        var cli' := cli.(username := name);
        Outcome(slots[cli.slot := Record(cli')], count + 1, cli', [(cli.sockfd, Sent(RegisterOkLine(name, cli.ip)))], true)
  }

  /** What handle_message does with a received line, if no other thread runs meanwhile. */
  function React(slots: seq<Slot>, count: int, cli: Client, line: CString): Outcome
    requires cli.slot < |slots|
  {
    var (kind, rest) := ParseType(Prefix(line, MAX_MSG_LEN - 1));
    if kind == "REGISTER" then Registration(slots, count, cli, rest)
    else if kind == "LIST" then Outcome(slots, count, cli, ListSends(slots, cli), true)
    else if kind == "INFO" then Outcome(slots, count, cli, InfoSends(slots, cli, rest), true)
    else if kind == "STATUS" then Outcome(slots, count, cli, StatusSends(slots, cli, rest), true)
    else if kind == "MSG" then Outcome(slots, count, cli, MsgSends(slots, cli, rest), true)
    else if kind == "BROADCAST" then Outcome(slots, count, cli, BroadcastSends(slots, cli, rest), true)
    else if kind == "QUIT" then Outcome(slots, count, cli, [(cli.sockfd, Sent(ByeLine()))], false)
    else Outcome(slots, count, cli, UnknownSends(cli, kind), true)
  }

  /* ----- the code ----- */

  class StubTable {
    const clients: array<Slot>
    var count: int

    ghost function Slots(): seq<Slot>
      reads clients
    {
      clients[..]
    }

    constructor (capacity: nat)
      ensures fresh(clients) && count == 0 && Slots() == seq(capacity, _ => FREE)
    {
      count := 0;
      clients := new Slot[capacity](_ => FREE);
    }

    // The search in main; |clients| stands for -1
    method FindFree() returns (slot: nat)
      ensures slot == FirstIndex(Slots(), HasFd(-1))
    {
      slot := clients.Length;
      var i := 0;
      while i < clients.Length
        invariant 0 <= i <= clients.Length && slot == clients.Length
        invariant forall k :: 0 <= k < i ==> clients[k].sockfd != -1
      {
        if clients[i].sockfd == -1 {
          slot := i;
          break;
        }
        i := i + 1;
      }
    }

    method ReserveSlot(slot: nat, fd: int, ip: CString)
      requires slot < clients.Length
      modifies clients
      ensures Slots() == Reserve(old(Slots()), slot, fd, ip)
    {
      clients[slot] := clients[slot].(sockfd := fd);
      clients[slot] := clients[slot].(ip := ip);
    }

    // The duplicate check of REGISTER
    method IsDuplicate(uname: CString) returns (dup: Option<bool>)
      ensures dup == NameTaken(Slots(), count, uname)
    {
      var i := 0;
      while i < count
        invariant 0 <= i <= clients.Length && (0 <= count ==> i <= count)
        invariant forall k :: 0 <= k < i ==> clients[k].username != uname
      {
        if i == clients.Length { return None; }
        if clients[i].username == uname { return Some(true); }
        i := i + 1;
      }
      return Some(false);
    }

    method Register(cli: Client)
      requires cli.slot < clients.Length
      modifies this, clients
      ensures Slots() == old(Slots())[cli.slot := Record(cli)] && count == old(count) + 1
    {
      clients[cli.slot] := Record(cli);
      count := count + 1;
    }

    // The clean-up at the end of client_thread
    method Leave(cli: Client)
      requires cli.slot < clients.Length
      modifies this, clients
      ensures Slots() == Vacate(old(Slots()), cli) && count == Uncount(old(count), cli)
    {
      if cli.username != "" {
        clients[cli.slot] := clients[cli.slot].(username := "");
        clients[cli.slot] := clients[cli.slot].(sockfd := -1);
        count := count - 1;
        if count < 0 { count := 0; }
      }
    }

    // The formatted line, as it is handed to the kernel.
    method Format(line: CString) returns (sent: CString)
      ensures sent == Sent(line)
    {
      var resp := new char[MAX_MSG_LEN];
      var _ := Build(resp, line);
      return CStr(resp[..]);
    }

    // Destination and text, in zeroed local buffers.
    method SplitMsg(rest: Option<CString>) returns (dest: CString, msg: CString)
      ensures (dest, msg) == Route(rest)
    {
      hide UpToNewline, IndexOf, Prefix;
      if rest.None? { return "", ""; }
      var r := rest.value;
      var sep := IndexOf(r, '|');
      if sep == |r| { return "", ""; }
      dest := CopyDest(r, sep);
      var buf := Zeroed(MAX_CHAT_LEN);
      CopyField(buf, r[sep + 1..]);
      msg := CStr(buf[..]);
    }

    method CopyDest(r: CString, sep: nat) returns (dest: CString)
      requires sep <= |r|
      ensures dest == Prefix(r[..sep], MAX_USERNAME_LEN - 1)
    {
      var buf := Zeroed(MAX_USERNAME_LEN);
      Strncpy(buf, 0, r, if sep < MAX_USERNAME_LEN then sep else MAX_USERNAME_LEN - 1);
      CStrIs(buf[..], Prefix(r[..sep], MAX_USERNAME_LEN - 1));
      return CStr(buf[..]);
    }

    method HandleMsg(cli: Client, rest: Option<CString>) returns (sends: Sends)
      ensures sends == MsgSends(Slots(), cli, rest)
    {
      hide Sent, Route;
      var dest, msg := SplitMsg(rest);
      var found := false;
      sends := [];
      var i := 0;
      while i < clients.Length
        invariant 0 <= i <= clients.Length && !found && sends == []
        invariant forall k :: 0 <= k < i ==> clients[k].username != dest
      {
        if clients[i].username == dest {
          var deliver := Format(DeliverLine(cli.username, msg));
          sends := [(clients[i].sockfd, deliver)];
          found := true;
          break;
        }
        i := i + 1;
      }
      assert FirstIndex(Slots(), HasName(dest)) == i;
      var resp;
      if !found {
        resp := Format(NO_RECIPIENT);
      } else {
        resp := Format(MsgOkLine(dest));
      }
      sends := sends + [(cli.sockfd, resp)];
    }

    // The loop that both a broadcast and a change of status run.
    method SendToAll(line: CString, except: Option<int>) returns (sends: Sends)
      ensures sends == Fanout(Slots(), line, except)
    {
      sends := [];
      var i := 0;
      while i < clients.Length
        invariant 0 <= i <= clients.Length
        invariant sends == Fanout(Slots()[..i], line, except)
      {
        assert Slots()[..i + 1][..i] == Slots()[..i];
        if clients[i].username != "" && except != Some(clients[i].sockfd) {
          sends := sends + [(clients[i].sockfd, line)];
        }
        i := i + 1;
      }
      assert Slots()[..clients.Length] == Slots();
    }

    method HandleBroadcast(cli: Client, rest: Option<CString>) returns (sends: Sends)
      ensures sends == BroadcastSends(Slots(), cli, rest)
    {
      hide Sent;
      var msg := CopyRest(rest, MAX_CHAT_LEN);
      var bcast := Format(BroadcastFromLine(cli.username, msg));
      sends := SendToAll(bcast, None);
      var resp := Format(BroadcastOkLine());
      sends := sends + [(cli.sockfd, resp)];
    }

    method HandleStatus(cli: Client, rest: Option<CString>) returns (sends: Sends)
      ensures sends == StatusSends(Slots(), cli, rest)
    {
      hide Sent;
      var status := CopyRest(rest, 32);
      if status != "ACTIVO" && status != "OCUPADO" && status != "INACTIVO" {
        var resp := Format(BAD_STATUS);
        return [(cli.sockfd, resp)];
      }
      var resp := Format(StatusOkLine(status));
      var notif := Format(StatusChangedLine(cli.username, status));
      sends := SendToAll(notif, Some(cli.sockfd));
      sends := sends + [(cli.sockfd, resp)];
    }

    method HandleInfo(cli: Client, rest: Option<CString>) returns (sends: Sends)
      ensures sends == InfoSends(Slots(), cli, rest)
    {
      hide Sent;
      var target := CopyRest(rest, MAX_USERNAME_LEN);
      var i := 0;
      while i < clients.Length
        invariant 0 <= i <= clients.Length
        invariant forall k :: 0 <= k < i ==> clients[k].username != target
      {
        if clients[i].username == target {
          assert FirstIndex(Slots(), HasName(target)) == i;
          var resp := Format(InfoOkLine(clients[i].username, clients[i].ip, "ACTIVO"));
          return [(cli.sockfd, resp)];
        }
        i := i + 1;
      }
      assert FirstIndex(Slots(), HasName(target)) == i;
      var resp := Format(NO_INFO);
      sends := [(cli.sockfd, resp)];
    }

    // Adds a name to the list in the buffer, behind a semicolon unless it is the first.
    method AddName(users: array<char>, name: CString, ghost names: seq<string>)
      requires users.Length == MAX_MSG_LEN && NUL in users[..] && name != ""
      requires "" !in names && CStr(users[..]) == Prefix(Join(names, ';'), MAX_MSG_LEN - 1)
      modifies users
      ensures NUL in users[..] && CStr(users[..]) == Prefix(Join(names + [name], ';'), MAX_MSG_LEN - 1)
    {
      hide Join, IndexOf;
      ghost var before := Join(names, ';');
      JoinNext(names, name, ';');
      JoinEmpty(names, ';');
      CStrEnds(users[..]);
      if users[0] != NUL {
        Strncat(users, ";", MAX_MSG_LEN - |CStr(users[..])| - 1);
        CutTwice(before, ";", MAX_MSG_LEN - 1);
      }
      CStrEnds(users[..]);
      ghost var sep := if names == [] then "" else ";";
      assert CStr(users[..]) == Prefix(before + sep, MAX_MSG_LEN - 1);
      CutTwice(before + sep, name, MAX_MSG_LEN - 1);
      Strncat(users, name, MAX_MSG_LEN - |CStr(users[..])| - 1);
      assert Join(names + [name], ';') == before + sep + name;
    }

    method HandleList(cli: Client) returns (sends: Sends)
      ensures sends == ListSends(Slots(), cli)
    {
      hide Sent, Join, IndexOf, CStr;
      var users := Zeroed(MAX_MSG_LEN);
      JoinEmpty([], ';');
      CStrIs(users[..], "");
      assert users[..][0] == NUL;
      var i := 0;
      while i < clients.Length
        invariant 0 <= i <= clients.Length
        invariant NUL in users[..] && CStr(users[..]) == Prefix(Join(Names(Slots()[..i]), ';'), MAX_MSG_LEN - 1)
      {
        assert Slots()[..i + 1][..i] == Slots()[..i];
        if clients[i].username != "" {
          AddName(users, clients[i].username, Names(Slots()[..i]));
        } else {
          assert Names(Slots()[..i + 1]) == Names(Slots()[..i]);
        }
        i := i + 1;
      }
      assert Slots()[..clients.Length] == Slots();
      NamesAreCStrings(Slots());
      ghost var names := Join(Names(Slots()), ';');
      assert Prefix(Prefix(names, MAX_MSG_LEN - 1), MAX_LIST) == Prefix(names, MAX_LIST);
      var resp := Format(ListOkLine(Prefix(CStr(users[..]), MAX_LIST)));
      sends := [(cli.sockfd, resp)];
    }

    method HandleRegister(cli: Client, rest: Option<CString>) returns (ghost outcome: Outcome, defined: bool, cli': Client, sends: Sends, result: int)
      requires cli.slot < clients.Length
      modifies this, clients
      ensures outcome == Registration(old(Slots()), old(count), cli, rest)
      ensures Matches(outcome, defined, cli', sends, result)
    {
      hide Sent, NameTaken, Cut;
      outcome := Registration(Slots(), count, cli, rest);
      if rest == None || rest == Some("") {
        var resp := Format(NO_NAME);
        return outcome, true, cli, [(cli.sockfd, resp)], -1;
      }
      var uname := CopyRest(rest, MAX_USERNAME_LEN);
      var dup := IsDuplicate(uname);
      if dup == None {
        return outcome, false, cli, [], -1;
      }
      if dup.value {
        var resp := Format(DUPLICATE);
        return outcome, true, cli, [(cli.sockfd, resp)], -1;
      }
      cli' := cli.(username := uname);
      Register(cli');
      var resp := Format(RegisterOkLine(uname, cli.ip));
      return outcome, true, cli', [(cli.sockfd, resp)], 0;
    }

    // The state and the results are those of the outcome, unless it is undefined.
    ghost predicate Matches(outcome: Outcome, defined: bool, cli: Client, sends: Sends, result: int)
      reads this, clients
    {
      && (outcome.Undefined? <==> !defined)
      && (defined ==> outcome == Outcome(Slots(), count, cli, sends, result == 0) && (result == 0 || result == -1))
    }

    // handle_message; `cli` is the thread's own copy, `defined` is false if it has read past the table
    method HandleMessage(cli: Client, line: CString) returns (defined: bool, cli': Client, sends: Sends, result: int)
      requires cli.slot < clients.Length
      modifies this, clients
      ensures Matches(React(old(Slots()), old(count), cli, line), defined, cli', sends, result)
    {
      hide Registration, ListSends, InfoSends, StatusSends, MsgSends, BroadcastSends, Prefix, CStr;
      var lineCopy := new char[MAX_MSG_LEN];
      var kindOut := new char[MAX_MSG_LEN];
      CopyString(lineCopy, line, MAX_MSG_LEN - 1);
      var at := ProtoParseType(lineCopy, kindOut);
      var kind := CStr(kindOut[..]);
      var rest: Option<CString> := if at == -1 then None else Some(CStr(lineCopy[at..]));
      if kind == "REGISTER" {
        ghost var outcome;
        outcome, defined, cli', sends, result := HandleRegister(cli, rest);
        return;
      }
      defined, cli', result := true, cli, 0;
      if kind == "LIST" {
        sends := HandleList(cli);
      } else if kind == "INFO" {
        sends := HandleInfo(cli, rest);
      } else if kind == "STATUS" {
        sends := HandleStatus(cli, rest);
      } else if kind == "MSG" {
        sends := HandleMsg(cli, rest);
      } else if kind == "BROADCAST" {
        sends := HandleBroadcast(cli, rest);
      } else if kind == "QUIT" {
        var resp := Format(ByeLine());
        sends, result := [(cli.sockfd, resp)], -1;
      } else {
        var resp := Format(ErrorLine(Prefix(kind, 64), UNKNOWN_CMD, UNKNOWN_COMMAND));
        sends := [(cli.sockfd, resp)];
      }
    }
  }

  // Cutting after every addition is cutting once.
  lemma CutTwice(text: string, more: string, n: nat)
    ensures Prefix(text, n) + Prefix(more, n - |Prefix(text, n)|) == Prefix(text + more, n)
  {
  }
}
