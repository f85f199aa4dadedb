// What becomes of a typed text in the real server: parse_message, then the line that
// handle_msg or handle_broadcast builds from the parsed fields (src/server/handlers.c).
module RealServer {
  import opened CStrings
  import opened ProtocolLine
  import opened ClientInput
  import opened ClientToServer
  import opened Dispatch
  import opened MessageParser
  import opened EndToEnd
  import Escaping
  import EscapeNeeded
  import opened Replies
  import Typing
  import Validation

  /* ----- private messages ----- */

  /** A private message without escapes passes parse_message and build_deliver. For a valid
      sender's name the typed text is shown, under the name exactly if it has no 32nd character. */
  lemma MessageDelivered(line: CString, sender: CString)
    requires IsInput(line) && Frame(Understand(line)).Some?
    requires NeedsNoEscape(Understand(line).arg1) && NeedsNoEscape(Understand(line).arg2)
    requires IsText(sender, MAX_USERNAME_LEN)
    ensures var cmd := Understand(line);
            var parsed := Parse(Frame(cmd).value);
            cmd.kind == ClientInput.Msg ==>
              && parsed.Parsed? && parsed.message.kind == MessageParser.Msg
              && parsed.message.arg1 == cmd.arg1 && parsed.message.arg2 == cmd.arg2
              && ('|' !in sender ==>
                   Receives(DeliverLine(sender, cmd.arg2), PrivateIn(Prefix(sender, MAX_USERNAME_LEN - 1), cmd.arg2)))
              && (Receives(DeliverLine(sender, cmd.arg2), PrivateIn(sender, cmd.arg2)) <==>
                  '|' !in sender && |sender| < MAX_USERNAME_LEN)
  {
    hide Understand, Display, IndexOf, Parse, Validation.Validate;
    var cmd := Understand(line);
    ServerUnderstands(line);
    UnderstoodClean(line);
    DeliverFits(sender, cmd.arg2);
    FrameReceived(DeliverLine(sender, cmd.arg2));
    DeliverRoundTrip(sender, cmd.arg2);
  }

  /** Without backslashes, a typed private message makes the parser write outside its fields
      exactly if there is a separator in its destination or in its text. */
  lemma MessageOverruns(line: CString)
    requires IsInput(line) && Frame(Understand(line)).Some? && Understand(line).kind == ClientInput.Msg
    requires '\\' !in Understand(line).arg1 && '\\' !in Understand(line).arg2
    ensures Parse(Frame(Understand(line)).value) == Undefined <==> '|' in Understand(line).arg1 || '|' in Understand(line).arg2
  {
    hide Understand, Parse, Separators;
    var cmd := Understand(line);
    UnderstoodClean(line);
    UndefinedExactly(Frame(cmd).value);
    SeparatorsOfTwo(cmd.arg1, cmd.arg2);
    CountNone(cmd.arg1, '|');
    CountNone(cmd.arg2, '|');
  }

  lemma SeparatorsOfTwo(f1: CString, f2: CString)
    requires '\\' !in f1 && '\\' !in f2 && '\n' !in f1 && '\n' !in f2
    ensures Separators(Line("MSG", Some(f1), Some(f2), None)) == 2 + Count(f1, '|') + Count(f2, '|')
  {
    hide Count;
    var last := f2 + "\n";
    var rest := f1 + (['|'] + last);
    Validation.LineOfTwo("MSG", f1, f2);
    SeparatorsOfPlain("MSG", ['|'] + rest);
    WordHasNone();
    SeparatorNext(rest);
    SeparatorsOfPlain(f1, ['|'] + last);
    SeparatorNext(last);
    SeparatorsOfPlain(f2, "\n");
  }

  lemma SeparatorNext(rest: string)
    ensures Separators(['|'] + rest) == 1 + Separators(rest)
  {
    assert (['|'] + rest)[1..] == rest;
  }

  lemma WordHasNone()
    ensures Count("MSG", '|') == 0
  {
    CountNone("MSG", '|');
  }

  const OVERRUN: CString := "/msg bob a|b\n"
  const BOB: CString := "bob"
  const A_OR_B: CString := "a|b"

  lemma OverrunTyped()
    ensures Understand(OVERRUN) == Command(ClientInput.Msg, BOB, A_OR_B)
  {
    hide Understand;
    Typing.MsgTyped("", " ", BOB, " ", A_OR_B, "\n");
    assert OVERRUN == Typing.Typed("", "msg", " " + (BOB + (" " + (A_OR_B + "\n"))));
  }

  /** A concrete typed line that makes the parser write outside its fields. */
  lemma TypedOverrun()
    ensures IsInput(OVERRUN) && Frame(Understand(OVERRUN)) == Some("MSG|bob|a|b\n")
    ensures Parse("MSG|bob|a|b\n") == Undefined
  {
    hide Understand, Parse;
    OverrunTyped();
    assert Line("MSG", Some(BOB), Some(A_OR_B), None) == "MSG|bob|a|b\n";
    assert A_OR_B[1] == '|';
    MessageOverruns(OVERRUN);
  }

  /* ----- broadcasts ----- */

  lemma {:induction false} DecodedIsCString(line: string)
    requires NUL !in line
    ensures forall k :: 0 <= k < |Decode(line)| ==> NUL !in Decode(line)[k]
  {
    if line == "" || line[0] == '\n' {
    } else if line[0] != '\\' {
      DecodedIsCString(line[1..]);
    } else if |line| > 1 {
      DecodedIsCString(line[2..]);
    }
  }

  lemma FieldsBehind(kind: CString, text: CString)
    requires Escaping.IsPlain(kind)
    ensures Decode(Line(kind, Some(text), None, None)) == [kind] + Decode(text + "\n")
  {
    hide Decode;
    Escaping.EscapePlain(kind);
    Escaping.DecodeField(kind, text + "\n");
    Regroup(kind, "|", text, "\n");
    assert Line(kind, Some(text), None, None) == kind + (['|'] + (text + "\n"));
  }

  // Two fields are at least one character shorter than what they were decoded from.
  lemma SecondFieldIsShorter(text: CString, fields: seq<string>)
    requires text != "" && '\n' !in text && fields == Decode(text + "\n") && |fields| <= 2
    ensures |FieldAt(fields, 1)| < |text| && NUL !in FieldAt(fields, 1)
  {
    EscapeNeeded.DecodeLoses(text);
    DecodedIsCString(text + "\n");
    if |fields| == 2 {
      EscapeNeeded.SizeOfThree(fields[0], fields[1], "");
      assert fields == [fields[0], fields[1]];
    }
  }

  /** The parsed broadcast: its second argument is never the text; undefined behaviour
      exactly if the text has a second separator that counts. */
  lemma BroadcastParsed(text: CString)
    requires text != "" && '\n' !in text
    ensures var parsed := Parse(Line("BROADCAST", Some(text), None, None));
            && (parsed == Undefined <==> Separators(text + "\n") >= 2)
            && (parsed.Parsed? ==>
                 && parsed.message.kind == MessageParser.Broadcast
                 && |parsed.message.arg2| < |text| && NUL !in parsed.message.arg2)
            && (NeedsNoEscape(text) ==> parsed.Parsed? && parsed.message.arg1 == text && parsed.message.arg2 == "")
  {
    hide Decode, Separators, Line;
    var fields := Decode(text + "\n");
    FieldsBehind("BROADCAST", text);
    FieldsAreSeparated(text + "\n");
    if |fields| <= 2 { SecondFieldIsShorter(text, fields); }
    if NeedsNoEscape(text) { Validation.ParsePlainOne("BROADCAST", text); }
  }

  lemma ShorterFields(sender: CString, short: CString, text: CString)
    requires |short| < |text|
    ensures MsgFields(Some(sender + Field(Some(short)) + Field(None)), MAX_USERNAME_LEN, MAX_CHAT_LEN) != (sender, text)
  {
    hide Cut;
    var r: CString := sender + ("|" + short) + "";
    assert r[|sender|] == '|';
    var i := IndexOf(r, '|');
    CutIsShorter(r[..i], MAX_USERNAME_LEN - 1);
    CutIsShorter(r[i + 1..], MAX_CHAT_LEN - 1);
  }

  // Whoever the sender is, a shorter text is not shown as the longer one.
  lemma ShorterTextShown(sender: CString, short: CString, text: CString)
    requires |sender| <= MAX_USERNAME_LEN && |short| < |text| < MAX_CHAT_LEN
    ensures Display(BroadcastFromLine(sender, short)) != BroadcastIn(sender, text)
  {
    hide Display, MsgFields, IndexOf;
    Arrives("BROADCAST_FROM", sender, Some(short), None);
    ShorterFields(sender, short, text);
  }

  lemma CutIsShorter(text: CString, n: nat)
    ensures |Cut(text, n)| <= |text|
  {
  }

  /** Typing /all to the real server never shows anybody the text: the parser puts it in the
      first argument, or the first two, and the broadcast carries the second. A text
      without separators and backslashes becomes the empty text. */
  lemma BroadcastLosesText(line: CString, sender: CString)
    requires IsInput(line) && Frame(Understand(line)).Some? && Understand(line).kind == ClientInput.All
    requires |sender| <= MAX_USERNAME_LEN
    ensures var cmd := Understand(line);
            var parsed := Parse(Frame(cmd).value);
            && (parsed == Undefined <==> Separators(cmd.arg2 + "\n") >= 2)
            && (parsed.Parsed? ==>
                 && parsed.message.kind == MessageParser.Broadcast
                 && NUL !in parsed.message.arg2 && parsed.message.arg2 != cmd.arg2
                 && Display(BroadcastFromLine(sender, parsed.message.arg2)) != BroadcastIn(sender, cmd.arg2))
            && (NeedsNoEscape(cmd.arg2) ==>
                 && parsed.Parsed? && parsed.message.arg1 == cmd.arg2 && parsed.message.arg2 == "")
  {
    hide Understand, Parse, Display, Separators;
    var cmd := Understand(line);
    var parsed := Parse(Frame(cmd).value);
    UnderstoodClean(line);
    BroadcastParsed(cmd.arg2);
    if parsed.Parsed? {
      ShorterTextShown(sender, parsed.message.arg2, cmd.arg2);
    }
  }

  /** What everybody sees instead of a text without separators and backslashes: the empty text,
      under the first 31 characters of the sender's name. */
  lemma EmptyBroadcastShown(sender: CString)
    requires IsText(sender, MAX_USERNAME_LEN)
    ensures '|' !in sender ==> Receives(BroadcastFromLine(sender, ""), BroadcastIn(Prefix(sender, MAX_USERNAME_LEN - 1), ""))
    ensures Receives(BroadcastFromLine(sender, ""), BroadcastIn(sender, "")) <==> '|' !in sender && |sender| < MAX_USERNAME_LEN
  {
    hide Display, IndexOf;
    BroadcastFromFits(sender, "");
    FrameReceived(BroadcastFromLine(sender, ""));
    DeliverRoundTrip(sender, "");
  }
}
