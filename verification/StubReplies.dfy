// The stub's answers to lines that no typed command produces, or that it refuses: a
// registration, a status that is none, and a command it does not know.
module StubReplies {
  import opened CStrings
  import opened ProtocolLine
  import opened Dispatch
  import opened EndToEnd
  import opened StubTable
  import Framing
  import ClientRegistration = Registration

  /* ----- registration ----- */

  lemma DuplicateFits()
    ensures Sent(DUPLICATE) == DUPLICATE && Receives(DUPLICATE, Failed("REGISTER", DUPLICATE_NAME, NAME_IN_USE))
  {
    hide Sent, Receives, Line;
    assert IsField(DUPLICATE_NAME, 63);
    assert IsField(NAME_IN_USE, 255);
    ErrorFits("REGISTER", DUPLICATE_NAME, NAME_IN_USE);
  }

  lemma NoNameFits()
    ensures Sent(NO_NAME) == NO_NAME && Receives(NO_NAME, Failed("REGISTER", BAD_FORMAT, NAME_IS_EMPTY))
  {
    hide Sent, Receives, Line;
    assert IsField(BAD_FORMAT, 63);
    assert IsField(NAME_IS_EMPTY, 255);
    ErrorFits("REGISTER", BAD_FORMAT, NAME_IS_EMPTY);
  }

  lemma RegisterOkFits(name: CString, ip: CString)
    requires |name| < MAX_USERNAME_LEN && |ip| <= 63
    ensures Sent(RegisterOkLine(name, ip)) == RegisterOkLine(name, ip)
  {
  }

  lemma RegistrationOf(slots: seq<Slot>, count: int, cli: Client, name: CString)
    requires cli.slot < |slots| && name != "" && '\n' !in name && |name| <= MAX_CHAT_LEN
    ensures React(slots, count, cli, Line("REGISTER", Some(name), None, None)) ==
            Registration(slots, count, cli, Some(name))
  {
    hide ParseType, Line, Registration;
    RegisterFits(name);
    Taken("REGISTER", name, None);
    assert name + "" + "" == name;
  }

  lemma RegisterFits(name: CString)
    requires |name| <= MAX_CHAT_LEN
    ensures |Line("REGISTER", Some(name), None, None)| < MAX_MSG_LEN
  {
  }

  /** A registration with a name of any length: the first 31 characters count. If they are in
      use among the slots that the check looks at, the client is told and the connection
      ends, nothing else changes; if not, the table and the client hold them, the address
      and the status. */
  lemma RegisterArrives(slots: seq<Slot>, count: int, cli: Client, name: CString, before: ClientRegistration.Identity)
    requires cli.slot < |slots| && name != "" && '\n' !in name && |name| <= MAX_CHAT_LEN && IsField(cli.ip, 63)
    ensures var kept: CString := Prefix(name, MAX_USERNAME_LEN - 1);
            var outcome := React(slots, count, cli, Line("REGISTER", Some(name), None, None));
            && (NameTaken(slots, count, kept) == None ==> outcome == Undefined)
            && (NameTaken(slots, count, kept) == Some(true) ==>
                 outcome == Outcome(slots, count, cli, [(cli.sockfd, DUPLICATE)], false))
            && (NameTaken(slots, count, kept) == Some(false) ==>
                 outcome == Outcome(slots[cli.slot := Slot(cli.sockfd, kept, cli.ip)], count + 1, cli.(username := kept),
                                    [(cli.sockfd, RegisterOkLine(kept, cli.ip))], true))
            && Receives(DUPLICATE, Failed("REGISTER", DUPLICATE_NAME, NAME_IN_USE))
            && ('|' !in kept ==>
                 ClientRegistration.Registered(before, ParseType(RegisterOkLine(kept, cli.ip)).1) ==
                 ClientRegistration.Identity(kept, cli.ip, "ACTIVO"))
  {
    hide ParseType, Line, NameTaken, Receives, IndexOf, React, ClientRegistration.Registered, Sent;
    RegistrationOf(slots, count, cli, name);
    CutPlain(name, MAX_USERNAME_LEN - 1);
    var kept: CString := Prefix(name, MAX_USERNAME_LEN - 1);
    DuplicateFits();
    RegisterOkFits(kept, cli.ip);
    if '|' !in kept { ClientRegistration.RegisterOkRoundTrip(kept, cli.ip, before); }
  }

  /** A registration without a name is refused, and the connection ends. */
  lemma NamelessRefused(slots: seq<Slot>, count: int, cli: Client, rest: Option<CString>)
    requires cli.slot < |slots| && (rest == None || rest == Some(""))
    ensures Registration(slots, count, cli, rest) == Outcome(slots, count, cli, [(cli.sockfd, NO_NAME)], false)
    ensures Receives(NO_NAME, Failed("REGISTER", BAD_FORMAT, NAME_IS_EMPTY))
  {
    hide Sent, Receives, Line;
    NoNameFits();
  }

  /* ----- status ----- */

  /** A status that is none of the three is refused, and nobody else is told. */
  lemma StatusRefused(slots: seq<Slot>, cli: Client, rest: Option<CString>)
    requires RestCut(rest, 31) != "ACTIVO" && RestCut(rest, 31) != "OCUPADO" && RestCut(rest, 31) != "INACTIVO"
    ensures StatusSends(slots, cli, rest) == [(cli.sockfd, BAD_STATUS)]
    ensures Receives(BAD_STATUS, Failed("STATUS", INVALID_STATUS, NO_SUCH_STATUS))
  {
    hide Sent, Receives, Line, RestCut;
    BadStatusFits();
  }

  lemma BadStatusFits()
    ensures Sent(BAD_STATUS) == BAD_STATUS && Receives(BAD_STATUS, Failed("STATUS", INVALID_STATUS, NO_SUCH_STATUS))
  {
    hide Sent, Receives, Line;
    assert IsField(INVALID_STATUS, 63);
    assert IsField(NO_SUCH_STATUS, 255);
    ErrorFits("STATUS", INVALID_STATUS, NO_SUCH_STATUS);
  }

  /* ----- private messages without a separator ----- */

  /** A MSG without a separator goes, empty, to the first slot without a name, if there is one. */
  lemma UnaddressedMessage(slots: seq<Slot>, cli: Client, rest: Option<CString>)
    requires rest == None || '|' !in rest.value
    requires IsText(cli.username, MAX_USERNAME_LEN - 1)
    ensures MsgSends(slots, cli, rest) == Deliveries(slots, cli, "", "")
  {
    hide Search.FirstIndex, Sent, Line;
    if rest.Some? { IndexIs(rest.value, '|', |rest.value|); }
    DeliverFits(cli.username, "");
    MsgOkFits("");
    NoRecipientFits();
  }

  /* ----- arguments of any length ----- */

  /** A destination counts with its first 31 characters, a text with its first 899. */
  lemma LongMessage(dest: CString, text: CString)
    requires '|' !in dest && '\n' !in text
    ensures Route(Some(dest + "|" + text)) == (Prefix(dest, 31), Prefix(text, 899))
  {
    var r := dest + "|" + text;
    assert r[..|dest|] == dest && r[|dest| + 1..] == text;
    IndexIs(r, '|', |dest|);
    CutPlain(text, 899);
  }

  /** So does a text for everybody, and a name that is asked for. */
  lemma LongArgument(slots: seq<Slot>, cli: Client, arg: CString)
    requires '\n' !in arg
    ensures BroadcastSends(slots, cli, Some(arg)) == BroadcastSends(slots, cli, Some(Prefix(arg, 899)))
    ensures InfoSends(slots, cli, Some(arg)) == InfoSends(slots, cli, Some(Prefix(arg, 31)))
  {
    hide Search.FirstIndex, Fanout, Sent, Line;
    CutPlain(arg, 899);
    CutPlain(arg, 31);
    CutPlain(Prefix(arg, 899), 899);
    CutPlain(Prefix(arg, 31), 31);
  }

  /* ----- unknown commands ----- */

  // The types of the lines that the stub knows.
  const KNOWN: seq<string> := ["REGISTER", "LIST", "INFO", "STATUS", "MSG", "BROADCAST", "QUIT"]

  lemma UnknownFits(kind: CString)
    requires IsToken(kind) && |kind| <= 64
    ensures var line := ErrorLine(kind, UNKNOWN_CMD, UNKNOWN_COMMAND);
            Sent(line) == line && Receives(line, Failed(Prefix(kind, 63), UNKNOWN_CMD, UNKNOWN_COMMAND))
  {
    hide Display, IndexOf, Line, Framing.NextLine;
    assert IsToken(UNKNOWN_CMD) && |UNKNOWN_CMD| <= 63;
    assert IsToken(UNKNOWN_COMMAND) && |UNKNOWN_COMMAND| <= 255;
    UnknownIsFrame(kind);
    FrameReceived(ErrorLine(kind, UNKNOWN_CMD, UNKNOWN_COMMAND));
    ErrorRoundTrip(kind, UNKNOWN_CMD, UNKNOWN_COMMAND);
  }

  lemma UnknownIsFrame(kind: CString)
    requires IsToken(kind) && |kind| <= 64
    ensures var line := ErrorLine(kind, UNKNOWN_CMD, UNKNOWN_COMMAND);
            Framing.IsFrame(line, MAX_MSG_LEN) && Sent(line) == line
  {
    ClientToServer.LineIsFrame("ERROR", Some(kind), Some(UNKNOWN_CMD), Some(UNKNOWN_COMMAND));
  }

  /** A line of any other type: the sender is told so, with the first 63 characters of the type,
      and stays connected. */
  lemma UnknownArrives(slots: seq<Slot>, count: int, cli: Client, line: CString, kind: CString, rest: Option<CString>)
    requires cli.slot < |slots| && ParseType(Prefix(line, MAX_MSG_LEN - 1)) == (kind, rest)
    requires kind !in KNOWN && IsToken(kind)
    ensures var reply := ErrorLine(Prefix(kind, 64), UNKNOWN_CMD, UNKNOWN_COMMAND);
            && React(slots, count, cli, line) == Outcome(slots, count, cli, [(cli.sockfd, reply)], true)
            && Receives(reply, Failed(Prefix(kind, 63), UNKNOWN_CMD, UNKNOWN_COMMAND))
  {
    hide ParseType, Line, Receives, Sent, Registration, ListSends, InfoSends, StatusSends, MsgSends, BroadcastSends;
    assert KNOWN[0] == "REGISTER" && KNOWN[1] == "LIST" && KNOWN[2] == "INFO" && KNOWN[3] == "STATUS";
    assert KNOWN[4] == "MSG" && KNOWN[5] == "BROADCAST" && KNOWN[6] == "QUIT";
    var kept: CString := Prefix(kind, 64);
    assert Prefix(kept, 63) == Prefix(kind, 63);
    UnknownFits(kept);
  }
}
