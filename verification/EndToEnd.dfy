// A typed line all the way: parse_command and command_to_proto at the sender, the
// stub's routing, dispatch_message at the recipient.
module EndToEnd {
  import opened CStrings
  import opened Search
  import opened ProtocolLine
  import opened ClientInput
  import opened ClientToServer
  import opened Dispatch
  import opened StubTable
  import Replies
  import Framing
  import StubServer
  import StubSafety
  import UserList
  import Validation

  /* ----- routing ----- */

  /** Destination and text as the stub reads them: a separator in the destination ends it,
      and what is behind it goes in front of the text. */
  function Addressed(dest: CString, text: CString): (CString, CString) {
    var i := IndexOf(dest, '|');
    if i == |dest| then (dest, text) else (dest[..i], Prefix(dest[i + 1..] + "|" + text, MAX_CHAT_LEN - 1))
  }

  /** The stub never looks for a name with a separator, and it looks for the typed one
      exactly if that has none. */
  lemma AddressedExactly(dest: CString, text: CString)
    ensures '|' !in Addressed(dest, text).0
    ensures Addressed(dest, text) == (dest, text) <==> '|' !in dest
  {
  }

  lemma AddressedFits(dest: CString, text: CString)
    requires IsText(dest, MAX_USERNAME_LEN - 1) && IsText(text, MAX_CHAT_LEN - 1)
    ensures var (to, what) := Addressed(dest, text); IsText(to, MAX_USERNAME_LEN - 1) && IsText(what, MAX_CHAT_LEN - 1)
  {
  }

  // Where the first separator of destination and text is, and what is behind it.
  lemma FirstSeparator(dest: CString, text: CString, r: CString, i: nat)
    requires i == IndexOf(dest, '|') && r == dest + ("|" + text)
    ensures IndexOf(r, '|') == i < |r| && r[..i] == dest[..i]
    ensures r[i + 1..] == if i == |dest| then text else dest[i + 1..] + "|" + text
  {
    assert r[..i] == dest[..i] && r[i] == '|';
    IndexIs(r, '|', i);
    if i < |dest| {
      assert r[i + 1..] == dest[i + 1..] + ("|" + text) == dest[i + 1..] + "|" + text;
    }
  }

  lemma Routed(dest: CString, text: CString)
    requires IsText(dest, MAX_USERNAME_LEN - 1) && IsText(text, MAX_CHAT_LEN - 1)
    ensures Route(Some(dest + Field(Some(text)) + Field(None))) == Addressed(dest, text)
  {
    hide IndexOf, UpToNewline;
    var r := dest + ("|" + text);
    assert dest + Field(Some(text)) + Field(None) == r;
    var i := IndexOf(dest, '|');
    FirstSeparator(dest, text, r, i);
    CutPlain(r[i + 1..], MAX_CHAT_LEN - 1);
    assert dest[..|dest|] == dest && Prefix(dest[..i], MAX_USERNAME_LEN - 1) == dest[..i];
  }

  // A line with a sender and a text fits every buffer and is one frame.
  lemma ChatFits(kind: CString, src: CString, text: CString)
    requires '\n' !in kind && |kind| <= 14 && IsText(src, MAX_USERNAME_LEN) && IsText(text, MAX_CHAT_LEN - 1)
    ensures var line := Line(kind, Some(src), Some(text), None);
            |line| < MAX_MSG_LEN && Sent(line) == line && Framing.IsFrame(line, MAX_MSG_LEN)
  {
    LineIsFrame(kind, Some(src), Some(text), None);
  }

  lemma OneFits(kind: CString, text: CString)
    requires '\n' !in kind && |kind| <= 14 && IsText(text, MAX_CHAT_LEN - 1)
    ensures var line := Line(kind, Some(text), None, None);
            |line| < MAX_MSG_LEN && Sent(line) == line && Framing.IsFrame(line, MAX_MSG_LEN)
  {
    LineIsFrame(kind, Some(text), None, None);
  }

  lemma DeliverFits(src: CString, text: CString)
    requires IsText(src, MAX_USERNAME_LEN) && IsText(text, MAX_CHAT_LEN - 1)
    ensures Sent(DeliverLine(src, text)) == DeliverLine(src, text) && Framing.IsFrame(DeliverLine(src, text), MAX_MSG_LEN)
  {
    ChatFits("DELIVER", src, text);
  }

  lemma MsgOkFits(dest: CString)
    requires IsText(dest, MAX_USERNAME_LEN - 1)
    ensures Sent(MsgOkLine(dest)) == MsgOkLine(dest) && Framing.IsFrame(MsgOkLine(dest), MAX_MSG_LEN)
  {
    OneFits("MSG_OK", dest);
  }

  lemma BroadcastFromFits(src: CString, text: CString)
    requires IsText(src, MAX_USERNAME_LEN) && IsText(text, MAX_CHAT_LEN - 1)
    ensures Sent(BroadcastFromLine(src, text)) == BroadcastFromLine(src, text)
    ensures Framing.IsFrame(BroadcastFromLine(src, text), MAX_MSG_LEN) && |BroadcastFromLine(src, text)| < MAX_MSG_LEN
  {
    ChatFits("BROADCAST_FROM", src, text);
  }

  lemma BroadcastOkFits()
    ensures Sent(BroadcastOkLine()) == BroadcastOkLine() && Framing.IsFrame(BroadcastOkLine(), MAX_MSG_LEN)
  {
    LineIsFrame("BROADCAST_OK", None, None, None);
  }

  // An error line is one frame and is shown with its three fields.
  lemma ErrorFits(op: CString, code: CString, desc: CString)
    requires IsField(op, 63) && IsField(code, 63) && IsField(desc, 255)
    ensures Sent(ErrorLine(op, code, desc)) == ErrorLine(op, code, desc)
    ensures Receives(ErrorLine(op, code, desc), Failed(op, code, desc))
  {
    hide Display, IndexOf, Framing.NextLine;
    assert IsToken(op) && IsToken(code) && IsToken(desc);
    LineIsFrame("ERROR", Some(op), Some(code), Some(desc));
    FrameReceived(ErrorLine(op, code, desc));
    ErrorRoundTrip(op, code, desc);
  }

  lemma NoRecipientFits()
    ensures Sent(NO_RECIPIENT) == NO_RECIPIENT
    ensures Receives(NO_RECIPIENT, Failed("MSG", USER_NOT_FOUND, NO_SUCH_USER))
  {
    hide Sent, Receives, Line;
    assert IsField(USER_NOT_FOUND, 63);
    assert IsField(NO_SUCH_USER, 255);
    ErrorFits("MSG", USER_NOT_FOUND, NO_SUCH_USER);
  }

  // What a MSG with this destination and text sends.
  function Deliveries(slots: seq<Slot>, cli: Client, dest: CString, text: CString): Sends {
    var i := FirstIndex(slots, HasName(dest));
    if i < |slots| then [(slots[i].sockfd, DeliverLine(cli.username, text)), (cli.sockfd, MsgOkLine(dest))]
    else [(cli.sockfd, NO_RECIPIENT)]
  }

  lemma MsgSent(slots: seq<Slot>, cli: Client, dest: CString, text: CString, rest: CString)
    requires IsText(dest, MAX_USERNAME_LEN - 1) && IsText(text, MAX_CHAT_LEN - 1)
    requires IsText(cli.username, MAX_USERNAME_LEN - 1) && Route(Some(rest)) == (dest, text)
    ensures MsgSends(slots, cli, Some(rest)) == Deliveries(slots, cli, dest, text)
  {
    hide Route, FirstIndex, Sent, Line;
    DeliverFits(cli.username, text);
    MsgOkFits(dest);
    NoRecipientFits();
  }

  // The stub takes a frame that fits apart into its type and the rest.
  lemma Taken(kind: CString, f1: CString, f2: Option<CString>)
    requires '|' !in kind && |Line(kind, Some(f1), f2, None)| < MAX_MSG_LEN
    ensures ParseType(Prefix(Line(kind, Some(f1), f2, None), MAX_MSG_LEN - 1)) == (kind, Some(f1 + Field(f2) + Field(None)))
  {
    ParseTypeOfLine(kind, f1, f2, None);
  }

  lemma MsgAnswered(slots: seq<Slot>, count: int, cli: Client, dest: CString, text: CString)
    requires cli.slot < |slots| && IsText(dest, MAX_USERNAME_LEN - 1)
    requires IsText(text, MAX_CHAT_LEN - 1) && IsText(cli.username, MAX_USERNAME_LEN - 1)
    ensures var (to, what) := Addressed(dest, text);
            React(slots, count, cli, Line("MSG", Some(dest), Some(text), None)) ==
            Outcome(slots, count, cli, Deliveries(slots, cli, to, what), true)
  {
    hide Route, Addressed, ParseType, Deliveries, MsgSends, Line, Prefix;
    ChatFits("MSG", dest, text);
    Taken("MSG", dest, Some(text));
    Routed(dest, text);
    AddressedFits(dest, text);
    var (to, what) := Addressed(dest, text);
    MsgSent(slots, cli, to, what, dest + Field(Some(text)) + Field(None));
  }

  /* ----- what arrives ----- */

  // Whatever follows it on the stream, the recipient reads `line` next and shows `shown`.
  ghost predicate Receives(line: CString, shown: Shown) {
    && Framing.IsFrame(line, MAX_MSG_LEN)
    && (forall more :: Framing.NextLine(line + more, MAX_MSG_LEN) == line)
    && Display(line) == shown
  }

  lemma FrameNext(line: CString)
    requires Framing.IsFrame(line, MAX_MSG_LEN)
    ensures forall more :: Framing.NextLine(line + more, MAX_MSG_LEN) == line
  {
    forall more ensures Framing.NextLine(line + more, MAX_MSG_LEN) == line {
      Framing.NextLineIsFrame(line, more, MAX_MSG_LEN);
    }
  }

  lemma FrameReceived(line: CString)
    requires Framing.IsFrame(line, MAX_MSG_LEN)
    ensures forall shown :: Receives(line, shown) <==> Display(line) == shown
  {
    FrameNext(line);
  }

  // The descriptor is open and belongs to a thread registered under the name.
  ghost predicate RegisteredAt(s: StubServer.State, fd: int, name: CString) {
    exists t :: t in s.threads && s.threads[t].cli.sockfd == fd && s.threads[t].cli.username == name
                && fd in s.open && s.open[fd] == StubServer.ByThread(t)
  }

  lemma NamedSlot(s: StubServer.State, i: nat)
    requires StubSafety.Reachable(s) && i < |s.slots| && s.slots[i].username != ""
    ensures RegisteredAt(s, s.slots[i].sockfd, s.slots[i].username)
  {
    StubSafety.ReachableInv(s);
    StubSafety.ReachableNamesMatch(s);
    var t :| StubSafety.Mirrors(s, i, t);
    assert StubServer.ThreadOk(s, t);
  }

  // A client's frame reaches the stub as one line.
  lemma FrameSent(line: CString)
    requires IsInput(line) && Frame(Understand(line)).Some?
    ensures var frame := Frame(Understand(line)).value;
            forall more :: Framing.NextLine(frame + more, MAX_MSG_LEN) == frame
  {
    hide Understand;
    FramesFit(line);
    FrameNext(Frame(Understand(line)).value);
  }

  lemma InTable(s: StubServer.State, name: CString)
    ensures FirstIndex(s.slots, HasName(name)) < |s.slots| <==> StubSafety.InUse(s, name)
  {
  }

  // The table has a place for the thread, and its name fits.
  lemma ThreadFits(s: StubServer.State, tid: nat)
    requires StubSafety.Reachable(s) && tid in s.threads
    ensures s.threads[tid].cli.slot < |s.slots| && IsText(s.threads[tid].cli.username, MAX_USERNAME_LEN - 1)
  {
    StubSafety.ReachableInv(s);
    assert StubServer.ThreadOk(s, tid);
  }

  /* ----- /msg ----- */

  // The first line goes to the descriptor in the first slot with the name `dest`, for a
  // nonempty one that of a connection registered under it, and shows `text` as coming from
  // the sender exactly if the sender's name has no separator; the second line confirms the
  // delivery. Without such a slot the one line is the error.
  ghost predicate ArrivesPrivately(s: StubServer.State, cli: Client, dest: CString, text: CString, sends: Sends) {
    if StubSafety.InUse(s, dest) then
      && |sends| == 2
      && FirstIndex(s.slots, HasName(dest)) < |s.slots|
      && sends[0].0 == s.slots[FirstIndex(s.slots, HasName(dest))].sockfd
      && (dest != "" ==> RegisteredAt(s, sends[0].0, dest))
      && (Receives(sends[0].1, PrivateIn(cli.username, text)) <==> '|' !in cli.username)
      && sends[1].0 == cli.sockfd && Receives(sends[1].1, MsgOk(dest))
    else
      && |sends| == 1
      && sends[0].0 == cli.sockfd && Receives(sends[0].1, Failed("MSG", USER_NOT_FOUND, NO_SUCH_USER))
  }

  lemma MsgOkShown(dest: CString)
    requires IsText(dest, MAX_USERNAME_LEN - 1)
    ensures Display(MsgOkLine(dest)) == MsgOk(dest)
  {
    hide Display, IndexOf;
    OneFieldRoundTrips(dest, "", "");
  }

  lemma DeliveriesArrive(s: StubServer.State, cli: Client, dest: CString, text: CString)
    requires StubSafety.Reachable(s) && IsText(cli.username, MAX_USERNAME_LEN - 1)
    requires IsText(dest, MAX_USERNAME_LEN - 1) && IsText(text, MAX_CHAT_LEN - 1)
    ensures ArrivesPrivately(s, cli, dest, text, Deliveries(s.slots, cli, dest, text))
  {
    hide Display, IndexOf, FirstIndex, Line, Framing.NextLine, Receives, RegisteredAt;
    InTable(s, dest);
    if StubSafety.InUse(s, dest) {
      if dest != "" { NamedSlot(s, FirstIndex(s.slots, HasName(dest))); }
      DeliverFits(cli.username, text);
      FrameReceived(DeliverLine(cli.username, text));
      BroadcastFromFits(cli.username, text);
      DeliverRoundTrip(cli.username, text);
      MsgOkFits(dest);
      FrameReceived(MsgOkLine(dest));
      MsgOkShown(dest);
    } else {
      NoRecipientFits();
    }
  }

  /** Every typed line that is understood as a private message, whatever it looks like: the
      stub gets its frame as one line, changes nothing, and what it sends arrives. It is
      addressed as typed exactly if the destination has no separator. */
  lemma PrivateMessageArrives(s: StubServer.State, tid: nat, line: CString)
    requires StubSafety.Reachable(s) && tid in s.threads
    requires IsInput(line) && Frame(Understand(line)).Some? && Understand(line).kind == Msg
    ensures s.threads[tid].cli.slot < |s.slots|
    ensures var cli := s.threads[tid].cli;
            var cmd := Understand(line);
            var frame := Frame(cmd).value;
            var outcome := React(s.slots, s.count, cli, frame);
            var (dest, text) := Addressed(cmd.arg1, cmd.arg2);
            && (forall more :: Framing.NextLine(frame + more, MAX_MSG_LEN) == frame)
            && outcome.Outcome? && outcome == Outcome(s.slots, s.count, cli, outcome.sends, true)
            && ArrivesPrivately(s, cli, dest, text, outcome.sends)
            && ((dest, text) == (cmd.arg1, cmd.arg2) <==> '|' !in cmd.arg1)
  {
    hide Understand, React, Addressed, Deliveries, ArrivesPrivately, IndexOf, Framing.NextLine;
    var cli := s.threads[tid].cli;
    var cmd := Understand(line);
    ThreadFits(s, tid);
    UnderstoodClean(line);
    FrameSent(line);
    MsgAnswered(s.slots, s.count, cli, cmd.arg1, cmd.arg2);
    AddressedFits(cmd.arg1, cmd.arg2);
    AddressedExactly(cmd.arg1, cmd.arg2);
    var (dest, text) := Addressed(cmd.arg1, cmd.arg2);
    DeliveriesArrive(s, cli, dest, text);
  }

  /* ----- /all ----- */

  lemma {:induction false} FanoutExact(slots: seq<Slot>, line: CString, except: Option<int>, q: (int, CString))
    ensures q in Fanout(slots, line, except) <==>
            exists i :: 0 <= i < |slots| && Gets(slots[i], except) && q == (slots[i].sockfd, line)
  {
    if slots == [] {
    } else {
      var n := |slots| - 1;
      FanoutExact(slots[..n], line, except, q);
      assert forall i :: 0 <= i < n ==> slots[..n][i] == slots[i];
    }
  }

  lemma {:induction false} FanoutLength(slots: seq<Slot>, line: CString)
    ensures |Fanout(slots, line, None)| == StubSafety.Named(slots)
  {
    if slots == [] {
    } else {
      FanoutLength(slots[..|slots| - 1], line);
    }
  }

  lemma AllTaken(text: CString)
    requires IsText(text, MAX_CHAT_LEN - 1)
    ensures ParseType(Prefix(Line("BROADCAST", Some(text), None, None), MAX_MSG_LEN - 1)) == ("BROADCAST", Some(text))
  {
    hide ParseType;
    OneFits("BROADCAST", text);
    Taken("BROADCAST", text, None);
    assert text + "" + "" == text;
  }

  lemma AllSent(slots: seq<Slot>, cli: Client, text: CString)
    requires IsText(text, MAX_CHAT_LEN - 1) && IsText(cli.username, MAX_USERNAME_LEN - 1)
    ensures BroadcastSends(slots, cli, Some(text)) ==
            Fanout(slots, BroadcastFromLine(cli.username, text), None) + [(cli.sockfd, BroadcastOkLine())]
  {
    hide Fanout, Line, Sent, IndexOf;
    CutText(text, MAX_CHAT_LEN - 1);
    BroadcastFromFits(cli.username, text);
    BroadcastOkFits();
  }

  lemma AllAnswered(slots: seq<Slot>, count: int, cli: Client, text: CString)
    requires cli.slot < |slots| && IsText(text, MAX_CHAT_LEN - 1) && IsText(cli.username, MAX_USERNAME_LEN - 1)
    ensures React(slots, count, cli, Line("BROADCAST", Some(text), None, None)) ==
            Outcome(slots, count, cli,
                    Fanout(slots, BroadcastFromLine(cli.username, text), None) + [(cli.sockfd, BroadcastOkLine())], true)
  {
    hide ParseType, Fanout, Line, Prefix, BroadcastSends;
    AllTaken(text);
    AllSent(slots, cli, text);
  }

  // One copy for every named slot, each to an open connection registered under that name.
  ghost predicate Copies(s: StubServer.State, line: CString, sends: Sends) {
    && |sends| == StubSafety.Named(s.slots)
    && (forall k :: 0 <= k < |sends| ==> sends[k].1 == line && GoesToNamed(s, sends[k].0))
    && (forall i :: 0 <= i < |s.slots| && s.slots[i].username != "" ==> (s.slots[i].sockfd, line) in sends)
  }

  ghost predicate GoesToNamed(s: StubServer.State, fd: int) {
    exists i :: 0 <= i < |s.slots| && s.slots[i].username != "" && s.slots[i].sockfd == fd
                && RegisteredAt(s, fd, s.slots[i].username)
  }

  lemma CopiesArrive(s: StubServer.State, line: CString)
    requires StubSafety.Reachable(s)
    ensures Copies(s, line, Fanout(s.slots, line, None))
  {
    hide Fanout, StubSafety.Named, RegisteredAt;
    var sends := Fanout(s.slots, line, None);
    FanoutLength(s.slots, line);
    forall k | 0 <= k < |sends| ensures sends[k].1 == line && GoesToNamed(s, sends[k].0) {
      FanoutExact(s.slots, line, None, sends[k]);
      var i :| 0 <= i < |s.slots| && Gets(s.slots[i], None) && sends[k] == (s.slots[i].sockfd, line);
      NamedSlot(s, i);
    }
    forall i | 0 <= i < |s.slots| && s.slots[i].username != "" ensures (s.slots[i].sockfd, line) in sends {
      FanoutExact(s.slots, line, None, (s.slots[i].sockfd, line));
    }
  }

  /** Every typed line that is understood as a broadcast: one copy for every registered
      connection, the sender's included, and each shows the typed text as coming from the
      sender exactly if the sender's name has no separator. */
  lemma BroadcastArrives(s: StubServer.State, tid: nat, line: CString)
    requires StubSafety.Reachable(s) && tid in s.threads
    requires IsInput(line) && Frame(Understand(line)).Some? && Understand(line).kind == All
    ensures s.threads[tid].cli.slot < |s.slots|
    ensures var cli := s.threads[tid].cli;
            var cmd := Understand(line);
            var frame := Frame(cmd).value;
            var copy := BroadcastFromLine(cli.username, cmd.arg2);
            var copies := Fanout(s.slots, copy, None);
            && (forall more :: Framing.NextLine(frame + more, MAX_MSG_LEN) == frame)
            && React(s.slots, s.count, cli, frame) ==
               Outcome(s.slots, s.count, cli, copies + [(cli.sockfd, BroadcastOkLine())], true)
            && Copies(s, copy, copies)
            && (Receives(copy, BroadcastIn(cli.username, cmd.arg2)) <==> '|' !in cli.username)
            && Receives(BroadcastOkLine(), BroadcastOk)
  {
    hide Understand, React, Display, IndexOf, Fanout, Copies, Framing.NextLine, Receives;
    var cli := s.threads[tid].cli;
    var cmd := Understand(line);
    ThreadFits(s, tid);
    UnderstoodClean(line);
    FrameSent(line);
    AllAnswered(s.slots, s.count, cli, cmd.arg2);
    CopiesArrive(s, BroadcastFromLine(cli.username, cmd.arg2));
    BroadcastFromFits(cli.username, cmd.arg2);
    FrameReceived(BroadcastFromLine(cli.username, cmd.arg2));
    DeliverRoundTrip(cli.username, cmd.arg2);
    BroadcastOkFits();
    FrameReceived(BroadcastOkLine());
    BroadcastOkRoundTrip();
  }

  /* ----- /list ----- */

  lemma ListTaken()
    ensures ParseType(Prefix(Line("LIST", None, None, None), MAX_MSG_LEN - 1)) == ("LIST", None)
  {
    ParseTypeAlone("LIST");
  }

  lemma ListOkFits(names: CString)
    requires |names| <= 900
    ensures Sent(ListOkLine(names)) == ListOkLine(names)
  {
  }

  lemma ListAnswered(slots: seq<Slot>, count: int, cli: Client, names: CString)
    requires cli.slot < |slots| && names == Join(Names(slots), ';')
    ensures React(slots, count, cli, Line("LIST", None, None, None)) ==
            Outcome(slots, count, cli, [(cli.sockfd, ListOkLine(Prefix(names, 900)))], true)
  {
    hide ParseType, Join, Names, Line, Sent;
    ListTaken();
    ListOkFits(Prefix(names, 900));
  }

  lemma {:induction false} NamesWithout(slots: seq<Slot>, c: char)
    requires forall i :: 0 <= i < |slots| ==> c !in slots[i].username
    ensures forall k :: 0 <= k < |Names(slots)| ==> c !in Names(slots)[k]
  {
    if slots == [] {
    } else {
      NamesWithout(slots[..|slots| - 1], c);
    }
  }

  lemma NamesFit(s: StubServer.State)
    requires StubSafety.Reachable(s)
    ensures forall k :: 0 <= k < |Names(s.slots)| ==> '\n' !in Names(s.slots)[k]
  {
    StubSafety.ReachableNamesMatch(s);
    forall i | 0 <= i < |s.slots| ensures '\n' !in s.slots[i].username {
      if s.slots[i].username != "" {
        var t :| StubSafety.Mirrors(s, i, t);
        ThreadFits(s, t);
      }
    }
    NamesWithout(s.slots, '\n');
  }

  /** A typed /list gets the first 900 characters of the names in the stub's table; if they all
      fit, it shows exactly these, in slot order, under their number, if and only if none of
      them has a semicolon. */
  lemma ListArrives(s: StubServer.State, tid: nat, line: CString, names: CString)
    requires StubSafety.Reachable(s) && tid in s.threads
    requires IsInput(line) && Understand(line).kind == List
    requires names == Join(Names(s.slots), ';')
    ensures s.threads[tid].cli.slot < |s.slots|
    ensures var cli := s.threads[tid].cli;
            var frame := Frame(Understand(line)).value;
            var listed: CString := Prefix(names, 900);
            && (forall more :: Framing.NextLine(frame + more, MAX_MSG_LEN) == frame)
            && React(s.slots, s.count, cli, frame) ==
               Outcome(s.slots, s.count, cli, [(cli.sockfd, ListOkLine(listed))], true)
            && Receives(ListOkLine(listed), Users(listed))
            && (|names| <= 900 ==>
                 (UserList.Listing(names) == (|Names(s.slots)|, Names(s.slots)) <==>
                  forall k :: 0 <= k < |Names(s.slots)| ==> ';' !in Names(s.slots)[k]))
  {
    hide Understand, React, Display, IndexOf, Join, Names, Framing.NextLine, UserList.Listing;
    ThreadFits(s, tid);
    FrameSent(line);
    ListAnswered(s.slots, s.count, s.threads[tid].cli, names);
    NamesFit(s);
    UserList.JoinHasNone(Names(s.slots), '\n');
    var listed: CString := Prefix(names, 900);
    UserList.ListShown(listed);
    LineIsFrame("LIST_OK", Some(listed), None, None);
    FrameReceived(ListOkLine(listed));
    if |names| <= 900 { UserList.NamesListed(Names(s.slots), names); }
  }

  /* ----- /info ----- */

  // The stub's answer about the name.
  function InfoReply(slots: seq<Slot>, name: CString): CString {
    var i := FirstIndex(slots, HasName(name));
    if i < |slots| then InfoOkLine(name, slots[i].ip, "ACTIVO") else NO_INFO
  }

  lemma NoInfoFits()
    ensures Sent(NO_INFO) == NO_INFO
    ensures Receives(NO_INFO, Failed("INFO", USER_NOT_FOUND, NO_SUCH_USER))
  {
    hide Sent, Receives, Line;
    assert IsField(USER_NOT_FOUND, 63);
    assert IsField(NO_SUCH_USER, 255);
    ErrorFits("INFO", USER_NOT_FOUND, NO_SUCH_USER);
  }

  // A separator in the name moves the borders of all fields.
  lemma InfoMoved(name: CString, ip: CString, status: CString)
    requires '|' in name && |InfoOkLine(name, ip, status)| < MAX_MSG_LEN
    ensures var shown := Display(InfoOkLine(name, ip, status)); shown.UserInfo? && shown.user != name
  {
    hide Tokens, Display, IndexOf, Line;
    Arrives("INFO_OK", name, Some(ip), Some(status));
    var rest := name + Field(Some(ip)) + Field(Some(status));
    TokensHaveNone(rest, '|');
    if |Tokens(rest, '|')| > 0 { CutIsPrefix(Tokens(rest, '|')[0], MAX_USERNAME_LEN - 1); }
  }

  lemma CutIsPrefix(text: string, n: nat)
    ensures NUL !in text ==> Replies.Cut(text, n) <= text
  {
  }

  lemma InfoOkFits(name: CString, ip: CString)
    requires IsText(name, MAX_USERNAME_LEN - 1) && IsField(ip, 63)
    ensures var line := InfoOkLine(name, ip, "ACTIVO");
            |line| < MAX_MSG_LEN && Sent(line) == line && Framing.IsFrame(line, MAX_MSG_LEN)
  {
    LineIsFrame("INFO_OK", Some(name), Some(ip), Some("ACTIVO"));
  }

  lemma ActivoIsToken()
    ensures IsToken("ACTIVO")
  {
  }

  lemma InfoOkReceived(name: CString, ip: CString)
    requires name != "" && IsText(name, MAX_USERNAME_LEN - 1) && IsField(ip, 63)
    ensures Sent(InfoOkLine(name, ip, "ACTIVO")) == InfoOkLine(name, ip, "ACTIVO")
    ensures Receives(InfoOkLine(name, ip, "ACTIVO"), UserInfo(name, ip, "ACTIVO")) <==> '|' !in name
  {
    hide Display, IndexOf, Line, Framing.NextLine;
    InfoOkFits(name, ip);
    FrameReceived(InfoOkLine(name, ip, "ACTIVO"));
    ActivoIsToken();
    if '|' in name { InfoMoved(name, ip, "ACTIVO"); } else { InfoOkRoundTrip(name, ip, "ACTIVO"); }
  }

  lemma InfoAnswered(slots: seq<Slot>, count: int, cli: Client, name: CString)
    requires cli.slot < |slots| && name != "" && IsText(name, MAX_USERNAME_LEN - 1)
    requires forall i :: 0 <= i < |slots| && slots[i].username == name ==> IsField(slots[i].ip, 63)
    ensures React(slots, count, cli, Line("INFO", Some(name), None, None)) ==
            Outcome(slots, count, cli, [(cli.sockfd, InfoReply(slots, name))], true)
  {
    hide ParseType, Line, Prefix, FirstIndex, Sent;
    OneFits("INFO", name);
    Taken("INFO", name, None);
    assert name + "" + "" == name;
    CutText(name, MAX_USERNAME_LEN - 1);
    NoInfoFits();
    var i := FirstIndex(slots, HasName(name));
    if i < |slots| { InfoOkReceived(name, slots[i].ip); }
  }

  /** Every typed line understood as /info: if a slot has the name, the first one's address is
      shown with it, and a connection is registered there under the name; it is shown as
      typed exactly if it has no separator. Otherwise the error is shown. */
  lemma InfoArrives(s: StubServer.State, tid: nat, line: CString)
    requires StubSafety.Reachable(s) && tid in s.threads
    requires IsInput(line) && Frame(Understand(line)).Some? && Understand(line).kind == Info
    requires forall i :: 0 <= i < |s.slots| && s.slots[i].username != "" ==> IsField(s.slots[i].ip, 63)
    ensures s.threads[tid].cli.slot < |s.slots|
    ensures var cli := s.threads[tid].cli;
            var name := Understand(line).arg1;
            var frame := Frame(Understand(line)).value;
            var reply := InfoReply(s.slots, name);
            && (forall more :: Framing.NextLine(frame + more, MAX_MSG_LEN) == frame)
            && React(s.slots, s.count, cli, frame) == Outcome(s.slots, s.count, cli, [(cli.sockfd, reply)], true)
            && (StubSafety.InUse(s, name) ==>
                 exists i :: 0 <= i < |s.slots| && s.slots[i].username == name
                   && (forall k :: 0 <= k < i ==> s.slots[k].username != name)
                   && RegisteredAt(s, s.slots[i].sockfd, name)
                   && (Receives(reply, UserInfo(name, s.slots[i].ip, "ACTIVO")) <==> '|' !in name))
            && (!StubSafety.InUse(s, name) ==> Receives(reply, Failed("INFO", USER_NOT_FOUND, NO_SUCH_USER)))
  {
    hide Understand, React, Display, IndexOf, Line, Framing.NextLine, Receives, RegisteredAt;
    var cli := s.threads[tid].cli;
    var name := Understand(line).arg1;
    ThreadFits(s, tid);
    UnderstoodClean(line);
    FrameSent(line);
    InfoAnswered(s.slots, s.count, cli, name);
    InTable(s, name);
    if StubSafety.InUse(s, name) {
      var i := FirstIndex(s.slots, HasName(name));
      NamedSlot(s, i);
      InfoOkReceived(name, s.slots[i].ip);
    } else {
      NoInfoFits();
    }
  }

  /* ----- /status ----- */

  lemma StatusFits(user: CString, status: CString)
    requires IsText(user, MAX_USERNAME_LEN - 1) && Validation.ValidStatus(status)
    ensures var line := StatusChangedLine(user, status);
            |line| < MAX_MSG_LEN && Sent(line) == line && Framing.IsFrame(line, MAX_MSG_LEN)
    ensures var line := StatusOkLine(status);
            |line| < MAX_MSG_LEN && Sent(line) == line && Framing.IsFrame(line, MAX_MSG_LEN)
  {
    StatusIsToken(status);
    LineIsFrame("STATUS_CHANGED", Some(user), Some(status), None);
    LineIsFrame("STATUS_OK", Some(status), None, None);
  }

  lemma StatusIsToken(status: CString)
    requires Validation.ValidStatus(status)
    ensures IsToken(status) && |status| <= 8
  {
  }

  // Without a name, or with a separator in it, the fields move.
  lemma StatusMoved(user: CString, status: CString)
    requires user == "" || '|' in user
    requires IsToken(status) && |StatusChangedLine(user, status)| < MAX_MSG_LEN
    ensures Display(StatusChangedLine(user, status)) != StatusChanged(user, status)
  {
    hide Tokens, Display, IndexOf, Line;
    Arrives("STATUS_CHANGED", user, Some(status), None);
    var rest := user + Field(Some(status)) + Field(None);
    TokensHaveNone(rest, '|');
    if user == "" {
      assert rest == "|" + status && rest[1..] == status;
      TokensAfterDelimiter(rest, '|');
      TokensOfOne(status);
    }
    if |Tokens(rest, '|')| > 0 { CutIsPrefix(Tokens(rest, '|')[0], MAX_USERNAME_LEN - 1); }
  }

  lemma StatusReceived(user: CString, status: CString)
    requires IsText(user, MAX_USERNAME_LEN - 1) && Validation.ValidStatus(status)
    ensures Receives(StatusChangedLine(user, status), StatusChanged(user, status)) <==> user != "" && '|' !in user
    ensures Receives(StatusOkLine(status), StatusOk(status))
  {
    hide Display, IndexOf, Line, Framing.NextLine, Validation.ValidStatus;
    StatusFits(user, status);
    StatusIsToken(status);
    FrameReceived(StatusChangedLine(user, status));
    FrameReceived(StatusOkLine(status));
    if user == "" || '|' in user { StatusMoved(user, status); } else { StatusChangedRoundTrip(user, status); }
    StatusOkShown(status);
  }

  lemma StatusOkShown(status: CString)
    requires IsToken(status) && |status| <= 8
    ensures Display(StatusOkLine(status)) == StatusOk(status)
  {
    hide Display, IndexOf;
    OneFieldRoundTrips("", status, "");
  }

  lemma StatusSent(slots: seq<Slot>, cli: Client, status: CString)
    requires Validation.ValidStatus(status) && IsText(cli.username, MAX_USERNAME_LEN - 1)
    ensures StatusSends(slots, cli, Some(status)) ==
            Fanout(slots, StatusChangedLine(cli.username, status), Some(cli.sockfd)) + [(cli.sockfd, StatusOkLine(status))]
  {
    hide Line, Fanout, Sent;
    StatusIsToken(status);
    CutText(status, 31);
    StatusFits(cli.username, status);
  }

  lemma StatusTaken(status: CString)
    requires Validation.ValidStatus(status)
    ensures ParseType(Prefix(Line("STATUS", Some(status), None, None), MAX_MSG_LEN - 1)) == ("STATUS", Some(status))
  {
    hide ParseType;
    StatusIsToken(status);
    OneFits("STATUS", status);
    Taken("STATUS", status, None);
    assert status + "" + "" == status;
  }

  lemma StatusAnswered(slots: seq<Slot>, count: int, cli: Client, status: CString)
    requires cli.slot < |slots| && Validation.ValidStatus(status) && IsText(cli.username, MAX_USERNAME_LEN - 1)
    ensures React(slots, count, cli, Line("STATUS", Some(status), None, None)) ==
            Outcome(slots, count, cli,
                    Fanout(slots, StatusChangedLine(cli.username, status), Some(cli.sockfd)) + [(cli.sockfd, StatusOkLine(status))],
                    true)
  {
    hide ParseType, Line, Prefix, Fanout, StatusSends;
    StatusTaken(status);
    StatusSent(slots, cli, status);
  }

  // One notice for every slot with a name on another descriptor, each to an open connection.
  ghost predicate Notices(s: StubServer.State, line: CString, fd: int, sends: Sends) {
    && (forall q :: q in sends ==>
          q.1 == line && exists i :: 0 <= i < |s.slots| && s.slots[i].username != "" && s.slots[i].sockfd == q.0 != fd
                                     && RegisteredAt(s, q.0, s.slots[i].username))
    && (forall i :: 0 <= i < |s.slots| && s.slots[i].username != "" && s.slots[i].sockfd != fd ==>
          (s.slots[i].sockfd, line) in sends)
  }

  lemma NoticesArrive(s: StubServer.State, line: CString, fd: int)
    requires StubSafety.Reachable(s)
    ensures Notices(s, line, fd, Fanout(s.slots, line, Some(fd)))
  {
    hide Fanout, RegisteredAt;
    var sends := Fanout(s.slots, line, Some(fd));
    forall q | q in sends
      ensures q.1 == line && exists i :: 0 <= i < |s.slots| && s.slots[i].username != "" && s.slots[i].sockfd == q.0 != fd
                                         && RegisteredAt(s, q.0, s.slots[i].username)
    {
      FanoutExact(s.slots, line, Some(fd), q);
      var i :| 0 <= i < |s.slots| && Gets(s.slots[i], Some(fd)) && q == (s.slots[i].sockfd, line);
      NamedSlot(s, i);
    }
    forall i | 0 <= i < |s.slots| && s.slots[i].username != "" && s.slots[i].sockfd != fd
      ensures (s.slots[i].sockfd, line) in sends
    {
      FanoutExact(s.slots, line, Some(fd), (s.slots[i].sockfd, line));
    }
  }

  /** Every typed line understood as /status with a status of the protocol: everybody else who is
      registered is told, under the sender's name exactly if it has one without separator,
      and the sender sees the confirmation. */
  lemma StatusArrives(s: StubServer.State, tid: nat, line: CString)
    requires StubSafety.Reachable(s) && tid in s.threads
    requires IsInput(line) && Frame(Understand(line)).Some? && Understand(line).kind == Status
    ensures s.threads[tid].cli.slot < |s.slots|
    ensures var cli := s.threads[tid].cli;
            var status := Understand(line).arg1;
            var frame := Frame(Understand(line)).value;
            var notice := StatusChangedLine(cli.username, status);
            var notices := Fanout(s.slots, notice, Some(cli.sockfd));
            && (forall more :: Framing.NextLine(frame + more, MAX_MSG_LEN) == frame)
            && React(s.slots, s.count, cli, frame) ==
               Outcome(s.slots, s.count, cli, notices + [(cli.sockfd, StatusOkLine(status))], true)
            && Notices(s, notice, cli.sockfd, notices)
            && (Receives(notice, StatusChanged(cli.username, status)) <==> cli.username != "" && '|' !in cli.username)
            && Receives(StatusOkLine(status), StatusOk(status))
  {
    hide Understand, React, Display, IndexOf, Line, Fanout, Notices, Framing.NextLine, Receives;
    var cli := s.threads[tid].cli;
    var status := Understand(line).arg1;
    ThreadFits(s, tid);
    FrameSent(line);
    StatusAnswered(s.slots, s.count, cli, status);
    NoticesArrive(s, StatusChangedLine(cli.username, status), cli.sockfd);
    StatusReceived(cli.username, status);
  }

  /* ----- /quit ----- */

  lemma QuitAnswered(slots: seq<Slot>, count: int, cli: Client)
    requires cli.slot < |slots|
    ensures React(slots, count, cli, Line("QUIT", None, None, None)) ==
            Outcome(slots, count, cli, [(cli.sockfd, ByeLine())], false)
  {
    hide ParseType;
    ParseTypeAlone("QUIT");
  }

  /** Every typed line understood as /quit: the sender gets the end of the session, the stub
      changes nothing and leaves the loop of this connection. */
  lemma QuitArrives(s: StubServer.State, tid: nat, line: CString)
    requires StubSafety.Reachable(s) && tid in s.threads && IsInput(line) && Understand(line).kind == Quit
    ensures s.threads[tid].cli.slot < |s.slots| && Frame(Understand(line)).Some?
    ensures var cli := s.threads[tid].cli;
            var frame := Frame(Understand(line)).value;
            && (forall more :: Framing.NextLine(frame + more, MAX_MSG_LEN) == frame)
            && React(s.slots, s.count, cli, frame) == Outcome(s.slots, s.count, cli, [(cli.sockfd, ByeLine())], false)
            && Receives(ByeLine(), Disconnected)
  {
    hide Understand, React, Display, IndexOf, Framing.NextLine;
    ThreadFits(s, tid);
    FrameSent(line);
    QuitAnswered(s.slots, s.count, s.threads[tid].cli);
    ByeIsFrame();
    FrameReceived(ByeLine());
    ByeRoundTrip();
  }
}
