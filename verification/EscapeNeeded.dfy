// The client never escapes, the server always unescapes. Exactly when does the
// server still get what was typed?
module EscapeNeeded {
  import opened CStrings
  import opened ProtocolLine
  import opened MessageParser
  import ClientInput
  import Validation
  import opened ClientToServer

  // The characters of the fields and the separators between them.
  function Size(fields: seq<string>): nat {
    if fields == [] then 0
    else |fields[0]| + (if |fields| == 1 then 0 else 1 + Size(fields[1..]))
  }

  predicate AnyHas(fields: seq<string>, c: char) {
    exists k :: 0 <= k < |fields| && c in fields[k]
  }

  lemma SizeExtend(text: string, fields: seq<string>)
    requires |fields| > 0
    ensures Size(Extend(text, fields)) == |text| + Size(fields)
    ensures Size([""] + fields) == 1 + Size(fields)
  {
    assert Extend(text, fields)[1..] == fields[1..];
    assert ([""] + fields)[1..] == fields;
  }

  lemma HasExtend(text: string, fields: seq<string>, c: char)
    requires |fields| > 0
    ensures AnyHas(Extend(text, fields), c) <==> c in text || AnyHas(fields, c)
    ensures c !in "" && (AnyHas([""] + fields, c) <==> AnyHas(fields, c))
  {
    var e := Extend(text, fields);
    if c in text || c in fields[0] { assert c in e[0]; }
    assert forall k :: 1 <= k < |fields| ==> e[k] == fields[k];
    assert forall k :: 0 <= k < |fields| ==> ([""] + fields)[k + 1] == fields[k];
  }

  /** Decoding never adds characters; it leaves a line as it is, apart from the
      separators, or else loses characters or lets a newline in. */
  lemma {:induction false} DecodeLoses(s: string)
    requires '\n' !in s
    ensures var fields := Decode(s + "\n");
            && Size(fields) <= |s|
            && ('\\' in s ==> Size(fields) < |s| || AnyHas(fields, '\n'))
            && ('\\' !in s ==> !AnyHas(fields, '|'))
  {
    var line := s + "\n";
    if s == "" {
    } else {
      assert line[1..] == s[1..] + "\n";
      if s[0] == '|' {
        DecodeLoses(s[1..]);
        SizeExtend("", Decode(line[1..]));
        HasExtend("", Decode(line[1..]), '\n');
        HasExtend("", Decode(line[1..]), '|');
      } else if s[0] != '\\' {
        DecodeLoses(s[1..]);
        SizeExtend([s[0]], Decode(line[1..]));
        HasExtend([s[0]], Decode(line[1..]), '\n');
        HasExtend([s[0]], Decode(line[1..]), '|');
      } else if |s| == 1 {
        assert line[2..] == "" && [""][1..] == [] && "\n" + "" == "\n";
        assert Decode(line)[0] == "\n" && |Decode(line)| == 1;
      } else {
        assert line[2..] == s[2..] + "\n";
        DecodeLoses(s[2..]);
        SizeExtend([Unescaped(s[1])], Decode(line[2..]));
      }
    }
  }

  // No character of the line is lost and no newline gets in, so there were no escapes.
  lemma NothingLost(body: string, fields: seq<string>)
    requires '\n' !in body && Decode(body + "\n") == fields
    requires Size(fields) >= |body| && !AnyHas(fields, '\n')
    ensures Size(fields) == |body| && '\\' !in body && !AnyHas(fields, '|')
  {
    DecodeLoses(body);
  }

  lemma KindInjective(a: string, b: string)
    requires KindOf(a) == KindOf(b) != Invalid
    ensures a == b
  {
  }

  lemma SizeOfThree(a: string, b: string, c: string)
    ensures Size([a, b]) == |a| + 1 + |b| && Size([a, b, c]) == |a| + 1 + |b| + 1 + |c|
  {
    assert [a, b][1..] == [b] && [a, b, c][1..] == [b, c] && [b, c][1..] == [c];
    assert Size([b]) == |b| && Size([c]) == |c| && Size([b, c]) == |b| + 1 + |c|;
  }

  lemma OneArgumentPlain(kind: string, arg: string, fields: seq<string>)
    requires '\n' !in kind && '\n' !in arg
    requires Decode(kind + "|" + arg + "\n") == fields && (fields == [kind, arg] || fields == [kind, arg, ""])
    ensures NeedsNoEscape(arg)
  {
    var body := kind + "|" + arg;
    SizeOfThree(kind, arg, "");
    NothingLost(body, fields);
    assert arg == fields[1] && arg == body[|kind| + 1..];
  }

  lemma TwoArgumentsPlain(kind: string, arg1: string, arg2: string, fields: seq<string>)
    requires '\n' !in kind && '\n' !in arg1 && '\n' !in arg2
    requires Decode(kind + "|" + arg1 + "|" + arg2 + "\n") == fields == [kind, arg1, arg2]
    ensures NeedsNoEscape(arg1) && NeedsNoEscape(arg2)
  {
    hide Decode, Size;
    var body := kind + "|" + arg1 + "|" + arg2;
    SizeOfThree(kind, arg1, arg2);
    NothingLost(body, fields);
    assert arg1 == fields[1] && arg2 == fields[2];
    assert NeedsNoEscape(arg1) by { assert arg1 == body[|kind| + 1..|kind| + 1 + |arg1|]; }
    assert NeedsNoEscape(arg2) by { assert arg2 == body[|body| - |arg2|..]; }
  }

  // The fields behind a message whose kind and first argument are known.
  lemma FieldsOfOne(kind: CString, arg: CString)
    requires KindOf(kind) != Invalid && arg != "" && '\n' !in kind && '\n' !in arg
    requires var frame := Line(kind, Some(arg), None, None);
             Parse(frame) == Parsed(ParsedMessage(KindOf(kind), arg, "", frame))
    ensures NeedsNoEscape(arg)
  {
    var frame := Line(kind, Some(arg), None, None);
    var fields := Decode(frame);
    assert frame == kind + "|" + arg + "\n";
    KindInjective(fields[0], kind);
    OneArgumentPlain(kind, arg, fields);
  }

  lemma FieldsOfTwo(kind: CString, arg1: CString, arg2: CString)
    requires KindOf(kind) != Invalid && arg2 != "" && '\n' !in kind && '\n' !in arg1 && '\n' !in arg2
    requires var frame := Line(kind, Some(arg1), Some(arg2), None);
             Parse(frame) == Parsed(ParsedMessage(KindOf(kind), arg1, arg2, frame))
    ensures NeedsNoEscape(arg1) && NeedsNoEscape(arg2)
  {
    hide Decode;
    var frame := Line(kind, Some(arg1), Some(arg2), None);
    var fields := Decode(frame);
    Validation.LineOfTwo(kind, arg1, arg2);
    assert frame == kind + "|" + arg1 + "|" + arg2 + "\n";
    KindInjective(fields[0], kind);
    TwoArgumentsPlain(kind, arg1, arg2, fields);
  }

  predicate Understood(cmd: ClientInput.Command)
    requires ClientInput.Frame(cmd).Some?
  {
    Parse(ClientInput.Frame(cmd).value) == Parsed(Meant(cmd, ClientInput.Frame(cmd).value))
  }

  lemma InfoPlain(cmd: ClientInput.Command)
    requires Clean(cmd) && ClientInput.Frame(cmd).Some? && cmd.kind == ClientInput.Info && Understood(cmd)
    ensures NeedsNoEscape(cmd.arg1) && cmd.arg2 == ""
  {
    assert Meant(cmd, ClientInput.Frame(cmd).value) ==
           ParsedMessage(KindOf("INFO"), cmd.arg1, "", ClientInput.Frame(cmd).value);
    FieldsOfOne("INFO", cmd.arg1);
  }

  lemma AllPlain(cmd: ClientInput.Command)
    requires Clean(cmd) && ClientInput.Frame(cmd).Some? && cmd.kind == ClientInput.All && Understood(cmd)
    ensures NeedsNoEscape(cmd.arg2) && cmd.arg1 == ""
  {
    assert Meant(cmd, ClientInput.Frame(cmd).value) ==
           ParsedMessage(KindOf("BROADCAST"), cmd.arg2, "", ClientInput.Frame(cmd).value);
    FieldsOfOne("BROADCAST", cmd.arg2);
  }

  lemma MsgPlain(cmd: ClientInput.Command)
    requires Clean(cmd) && ClientInput.Frame(cmd).Some? && cmd.kind == ClientInput.Msg && Understood(cmd)
    ensures NeedsNoEscape(cmd.arg1) && NeedsNoEscape(cmd.arg2)
  {
    assert Meant(cmd, ClientInput.Frame(cmd).value) ==
           ParsedMessage(KindOf("MSG"), cmd.arg1, cmd.arg2, ClientInput.Frame(cmd).value);
    FieldsOfTwo("MSG", cmd.arg1, cmd.arg2);
  }

  lemma UnderstoodNeedsNoEscape(cmd: ClientInput.Command)
    requires Clean(cmd) && ClientInput.Frame(cmd).Some? && Understood(cmd)
    ensures NeedsNoEscape(cmd.arg1) && NeedsNoEscape(cmd.arg2)
  {
    hide Understood;
    match cmd.kind
    case Info => InfoPlain(cmd);
    case All => AllPlain(cmd);
    case Msg => MsgPlain(cmd);
    case _ =>
  }

  /** The server gets exactly what was typed if and only if nothing typed needs escaping. */
  lemma ServerUnderstandsExactly(line: CString)
    requires IsInput(line) && ClientInput.Frame(ClientInput.Understand(line)).Some?
    ensures var cmd := ClientInput.Understand(line);
            Understood(cmd) <==> NeedsNoEscape(cmd.arg1) && NeedsNoEscape(cmd.arg2)
  {
    UnderstoodClean(line);
    var cmd := ClientInput.Understand(line);
    if NeedsNoEscape(cmd.arg1) && NeedsNoEscape(cmd.arg2) {
      CleanIsUnderstood(cmd);
    } else if Understood(cmd) {
      UnderstoodNeedsNoEscape(cmd);
    }
  }
}
