// The client's lines and the server's parser: what fits, and what is understood.
module ClientToServer {
  import opened CStrings
  import opened ProtocolLine
  import opened ClientInput
  import Framing
  import MessageParser
  import Validation

  // What fgets delivers: fewer than MAX_MSG_LEN characters, a newline at most at the end.
  predicate IsInput(line: string) {
    |line| < MAX_MSG_LEN && OneNewline(line)
  }

  predicate OneNewline(s: string) {
    forall k :: 0 <= k < |s| - 1 ==> s[k] != '\n'
  }

  lemma {:induction false} TrimmedHasNone(s: CString)
    requires OneNewline(s)
    ensures '\n' !in Trim(s) && |Trim(s)| <= |s|
  {
    if s == "" {
    } else if s[|s| - 1] == '\n' || s[|s| - 1] == '\r' {
      TrimmedHasNone(s[..|s| - 1]);
    }
  }

  lemma CutHasNone(s: CString, n: nat)
    requires OneNewline(s)
    ensures '\n' !in Trim(Prefix(s, n)) && |Trim(Prefix(s, n))| <= n
    ensures '\n' !in Trim(Upper(Prefix(s, n))) && |Trim(Upper(Prefix(s, n)))| <= n
  {
    TrimmedHasNone(Prefix(s, n));
    TrimmedHasNone(Upper(Prefix(s, n)));
  }

  // The arguments fit their buffers, contain no newline, and are present only where they belong.
  predicate Clean(c: Command) {
    && |c.arg1| < MAX_USERNAME_LEN && |c.arg2| < MAX_CHAT_LEN
    && (c.kind != Unknown ==> '\n' !in c.arg1 && '\n' !in c.arg2)
    && (c.arg1 != "" ==> c.kind == Info || c.kind == Status || c.kind == Msg || c.kind == Unknown)
    && (c.arg2 != "" ==> c.kind == Msg || c.kind == All)
  }

  lemma MessageClean(rest: CString)
    requires OneNewline(rest)
    ensures Clean(Message(rest))
  {
    var n := Cspan(rest, BLANKS);
    var text := SkipBlanks(rest[n..]);
    assert OneNewline(rest[n..]) && OneNewline(text);
    CutHasNone(text, MAX_CHAT_LEN - 1);
    if text != "" {
      assert '\n' !in rest[..n];
    }
  }

  lemma ArgumentsClean(word: string, rest: CString)
    requires OneNewline(rest)
    ensures Clean(Arguments(word, rest))
  {
    hide Trim, Upper, Prefix, Message;
    CutHasNone(rest, MAX_USERNAME_LEN - 1);
    CutHasNone(rest, MAX_CHAT_LEN - 1);
    MessageClean(rest);
  }

  /** The arguments of a typed command fit their buffers and contain no newline. */
  lemma UnderstoodClean(line: CString)
    requires OneNewline(line)
    ensures Clean(Understand(line))
  {
    var p := SkipBlanks(line);
    if p != "" && p[0] == '/' {
      var word := Prefix(p[1..][..Cspan(p[1..], WORD_ENDS)], MAX_WORD);
      var rest := SkipBlanks(p[1 + |word|..]);
      assert OneNewline(p) && OneNewline(p[1 + |word|..]) && OneNewline(rest);
      ArgumentsClean(word, rest);
    }
  }

  const MAX_FRAME: nat := 936

  lemma LineIsFrame(kind: CString, f1: Option<CString>, f2: Option<CString>, f3: Option<CString>)
    requires '\n' !in kind && '\n' !in Field(f1) && '\n' !in Field(f2) && '\n' !in Field(f3)
    ensures var line := Line(kind, f1, f2, f3);
            && |line| == |kind| + |Field(f1)| + |Field(f2)| + |Field(f3)| + 1
            && IndexOf(line, '\n') == |line| - 1
  {
    var body := kind + Field(f1) + Field(f2) + Field(f3);
    assert Line(kind, f1, f2, f3) == body + "\n";
    assert (body + "\n")[..|body|] == body;
    IndexIs(body + "\n", '\n', |body|);
  }

  lemma CleanFramesFit(cmd: Command)
    requires Clean(cmd) && Frame(cmd).Some?
    ensures |Frame(cmd).value| <= MAX_FRAME && IndexOf(Frame(cmd).value, '\n') == |Frame(cmd).value| - 1
  {
    match cmd.kind
    case List => LineIsFrame("LIST", None, None, None);
    case Quit => LineIsFrame("QUIT", None, None, None);
    case Info => LineIsFrame("INFO", Some(cmd.arg1), None, None);
    case Status => LineIsFrame("STATUS", Some(cmd.arg1), None, None);
    case Msg => LineIsFrame("MSG", Some(cmd.arg1), Some(cmd.arg2), None);
    case All => LineIsFrame("BROADCAST", Some(cmd.arg2), None, None);
  }

  /** Every line the client builds fits every buffer it meets, newline included, and
      is one frame: nothing is ever cut, and its only newline is the last character. */
  lemma FramesFit(line: CString)
    requires IsInput(line) && Frame(Understand(line)).Some?
    ensures var frame := Frame(Understand(line)).value;
            && |frame| <= MAX_FRAME
            && Framing.IsFrame(frame, MAX_MSG_LEN)
            && Prefix(frame, MAX_MSG_LEN - 1) == frame
  {
    UnderstoodClean(line);
    CleanFramesFit(Understand(line));
  }

  /* ----- the server understands what the client meant ----- */

  function ServerKind(kind: CommandType): MessageParser.CommandType {
    match kind
    case List => MessageParser.List
    case Info => MessageParser.Info
    case Status => MessageParser.Status
    case Msg => MessageParser.Msg
    case All => MessageParser.Broadcast
    case Quit => MessageParser.Quit
    case Help => MessageParser.Invalid
    case Unknown => MessageParser.Invalid
  }

  /** The message the server should end up with; the text of /all travels as its first argument. */
  function Meant(cmd: Command, frame: string): MessageParser.ParsedMessage {
    MessageParser.ParsedMessage(
      ServerKind(cmd.kind),
      if cmd.kind == All then cmd.arg2 else cmd.arg1,
      if cmd.kind == All then "" else cmd.arg2,
      frame)
  }

  predicate NeedsNoEscape(text: string) {
    '|' !in text && '\\' !in text
  }

  // The commands without arguments: LIST and QUIT.
  lemma WordIsUnderstood(cmd: Command)
    requires (cmd.kind == List || cmd.kind == Quit) && cmd.arg1 == cmd.arg2 == ""
    ensures var frame := Frame(cmd).value; MessageParser.Parse(frame) == MessageParser.Parsed(Meant(cmd, frame))
  {
    hide Line, MessageParser.Parse;
    Validation.ParsePlainWord(if cmd.kind == List then "LIST" else "QUIT");
  }

  // The commands with one argument.
  lemma OneIsUnderstood(cmd: Command)
    requires Clean(cmd) && Frame(cmd).Some? && (cmd.kind == Info || cmd.kind == Status || cmd.kind == All)
    requires NeedsNoEscape(cmd.arg1) && NeedsNoEscape(cmd.arg2)
    ensures var frame := Frame(cmd).value; MessageParser.Parse(frame) == MessageParser.Parsed(Meant(cmd, frame))
  {
    hide Line, MessageParser.Parse;
    match cmd.kind
    case Info => Validation.ParsePlainOne("INFO", cmd.arg1);
    case Status => Validation.ParsePlainOne("STATUS", cmd.arg1);
    case All => Validation.ParsePlainOne("BROADCAST", cmd.arg2);
  }

  lemma CleanIsUnderstood(cmd: Command)
    requires Clean(cmd) && Frame(cmd).Some? && NeedsNoEscape(cmd.arg1) && NeedsNoEscape(cmd.arg2)
    ensures var msg := Meant(cmd, Frame(cmd).value);
            MessageParser.Parse(Frame(cmd).value) == MessageParser.Parsed(msg) && Validation.Validate(msg)
  {
    hide Line, MessageParser.Parse;
    match cmd.kind
    case List => WordIsUnderstood(cmd);
    case Quit => WordIsUnderstood(cmd);
    case Msg => Validation.ParsePlainTwo("MSG", cmd.arg1, cmd.arg2);
    case _ => OneIsUnderstood(cmd);
  }

  /** Typing, building, parsing and validating: the server gets the command that was typed. */
  lemma ServerUnderstands(line: CString)
    requires IsInput(line) && Frame(Understand(line)).Some?
    requires NeedsNoEscape(Understand(line).arg1) && NeedsNoEscape(Understand(line).arg2)
    ensures var cmd := Understand(line);
            var frame := Frame(cmd).value;
            && MessageParser.Parse(frame) == MessageParser.Parsed(Meant(cmd, frame))
            && Validation.Validate(Meant(cmd, frame))
  {
    UnderstoodClean(line);
    CleanIsUnderstood(Understand(line));
  }

  /* ----- what the client refuses ----- */

  /** The client builds a frame exactly for the commands of the protocol that the server's
      validation would accept, apart from an INFO and a BROADCAST without argument. */
  lemma RefusedExactly(cmd: Command, frame: string)
    ensures Frame(cmd).Some? <==>
            && cmd.kind != Help && cmd.kind != Unknown
            && Validation.Validate(Meant(cmd, frame))
            && (cmd.kind == Info ==> cmd.arg1 != "")
            && (cmd.kind == All ==> cmd.arg2 != "")
  {
  }
}
