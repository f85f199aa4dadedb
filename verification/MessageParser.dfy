// The server's parser (src/common/protocol.c, parse_message): fields separated
// by '|', with '\' escapes, up to the first newline outside an escape.
module MessageParser {
  import opened CStrings
  import opened ProtocolLine

  datatype CommandType = Register | List | Info | Status | Msg | Broadcast | Quit | Invalid

  datatype ParsedMessage = ParsedMessage(kind: CommandType, arg1: string, arg2: string, raw: string)

  // Undefined: the parser terminates a fourth field, outside its three.
  datatype Outcome = Undefined | Parsed(message: ParsedMessage)

  function KindOf(word: string): CommandType {
    if word == "REGISTER" then Register
    else if word == "LIST" then List
    else if word == "INFO" then Info
    else if word == "STATUS" then Status
    else if word == "MSG" then Msg
    else if word == "BROADCAST" then Broadcast
    else if word == "QUIT" then Quit
    else Invalid
  }

  /** A type is that of its own word, and any other word is invalid. */
  lemma KindExactly(word: string)
    ensures KindOf(word) == Register <==> word == "REGISTER"
    ensures KindOf(word) == List <==> word == "LIST"
    ensures KindOf(word) == Info <==> word == "INFO"
    ensures KindOf(word) == Status <==> word == "STATUS"
    ensures KindOf(word) == Msg <==> word == "MSG"
    ensures KindOf(word) == Broadcast <==> word == "BROADCAST"
    ensures KindOf(word) == Quit <==> word == "QUIT"
  {
  }

  /* ----- what a line means ----- */

  /** The fields of a line: split at unescaped '|', with escapes decoded. */
  function Decode(line: string): (fields: seq<string>)
    ensures |fields| > 0
  {
    if line == "" || line[0] == '\n' then [""]
    else if line[0] == '|' then [""] + Decode(line[1..])
    else if line[0] != '\\' then Extend([line[0]], Decode(line[1..]))
    else if |line| == 1 then [""]
    else Extend([Unescaped(line[1])], Decode(line[2..]))
  }

  function Unescaped(c: char): char {
    if c == 'n' then '\n' else c
  }

  // The text belongs to the first field.
  function Extend(text: string, fields: seq<string>): seq<string>
    requires |fields| > 0
  {
    [text + fields[0]] + fields[1..]
  }

  function FieldAt(fields: seq<string>, k: nat): string {
    if k < |fields| then fields[k] else ""
  }

  function Parse(line: string): Outcome {
    var fields := Decode(line);
    if |fields| > 3 then Undefined
    else Parsed(ParsedMessage(KindOf(fields[0]), FieldAt(fields, 1), FieldAt(fields, 2), line))
  }

  /** How many separators of a line are neither escaped nor behind its first unescaped newline. */
  function Separators(line: string): nat {
    if line == "" || line[0] == '\n' then 0
    else if line[0] == '|' then 1 + Separators(line[1..])
    else if line[0] != '\\' then Separators(line[1..])
    else if |line| == 1 then 0
    else Separators(line[2..])
  }

  lemma {:induction false} FieldsAreSeparated(line: string)
    ensures |Decode(line)| == 1 + Separators(line)
  {
    if line == "" || line[0] == '\n' {
    } else if line[0] != '\\' {
      FieldsAreSeparated(line[1..]);
    } else if |line| > 1 {
      FieldsAreSeparated(line[2..]);
    }
  }

  /** The parser writes outside its fields exactly for the lines with a third separator. */
  lemma UndefinedExactly(line: string)
    ensures Parse(line) == Undefined <==> Separators(line) >= 3
  {
    FieldsAreSeparated(line);
  }

  // Without escapes every separator counts.
  lemma {:induction false} SeparatorsOfPlain(text: string, rest: string)
    requires '\\' !in text && '\n' !in text
    ensures Separators(text + rest) == Count(text, '|') + Separators(rest)
  {
    if text == "" {
      assert text + rest == rest;
    } else {
      assert (text + rest)[1..] == text[1..] + rest;
      SeparatorsOfPlain(text[1..], rest);
    }
  }

  /* ----- parse_message ----- */

  lemma ExtendTwice(a: string, b: string, fields: seq<string>)
    requires |fields| > 0
    ensures Extend(a, Extend(b, fields)) == Extend(a + b, fields)
    ensures Extend("", fields) == fields
  {
    assert a + (b + fields[0]) == a + b + fields[0];
    assert Extend(b, fields)[1..] == fields[1..];
    assert "" + fields[0] == fields[0] && [fields[0]] + fields[1..] == fields;
  }

  // One round of the loop: the field being filled, `cur`, and what is still to read.
  lemma DecodeRound(line: string, i: nat, cur: string)
    requires i < |line| && line[i] != '\n'
    ensures var now := Extend(cur, Decode(line[i..]));
            if line[i] == '|' then now == [cur] + Decode(line[i + 1..])
            else if line[i] != '\\' then now == Extend(cur + [line[i]], Decode(line[i + 1..]))
            else if i + 1 == |line| then now == [cur]
            else now == Extend(cur + [Unescaped(line[i + 1])], Decode(line[i + 2..]))
  {
    var rest := line[i..];
    assert rest[1..] == line[i + 1..];
    if line[i] == '|' {
      assert ([""] + Decode(line[i + 1..]))[1..] == Decode(line[i + 1..]) && cur + "" == cur;
    } else if line[i] != '\\' {
      ExtendTwice(cur, [line[i]], Decode(line[i + 1..]));
    } else if i + 1 == |line| {
      assert |rest| == 1 && cur + "" == cur;
    } else {
      assert rest[2..] == line[i + 2..];
      ExtendTwice(cur, [Unescaped(line[i + 1])], Decode(line[i + 2..]));
    }
  }

  lemma DecodeEnd(line: string, i: nat, cur: string)
    requires i == |line| || (i < |line| && line[i] == '\n')
    ensures Extend(cur, Decode(line[i..])) == [cur]
  {
    assert cur + "" == cur;
  }

  /** The fields, read from left to right as the loop does: `texts` are finished, `cur` is being filled. */
  function Scan(line: string, i: nat, texts: seq<string>, cur: string): seq<string>
    requires i <= |line|
    decreases |line| - i
  {
    if i == |line| || line[i] == '\n' then texts + [cur]
    else if line[i] == '|' then Scan(line, i + 1, texts + [cur], "")
    else if line[i] != '\\' then Scan(line, i + 1, texts, cur + [line[i]])
    else if i + 1 == |line| then texts + [cur]
    else Scan(line, i + 2, texts, cur + [Unescaped(line[i + 1])])
  }

  lemma {:induction false} ScanIsDecode(line: string, i: nat, texts: seq<string>, cur: string)
    requires i <= |line|
    ensures Scan(line, i, texts, cur) == texts + Extend(cur, Decode(line[i..]))
    decreases |line| - i
  {
    hide Decode, Extend;
    if i == |line| || line[i] == '\n' {
      DecodeEnd(line, i, cur);
    } else {
      DecodeRound(line, i, cur);
      if line[i] == '|' {
        ScanIsDecode(line, i + 1, texts + [cur], "");
        ExtendTwice("", "", Decode(line[i + 1..]));
        assert texts + ([cur] + Decode(line[i + 1..])) == texts + [cur] + Decode(line[i + 1..]);
      } else if line[i] != '\\' {
        ScanIsDecode(line, i + 1, texts, cur + [line[i]]);
      } else if i + 1 < |line| {
        ScanIsDecode(line, i + 2, texts, cur + [Unescaped(line[i + 1])]);
      }
    }
  }

  lemma {:induction false} ScanGrows(line: string, i: nat, texts: seq<string>, cur: string)
    requires i <= |line|
    ensures |Scan(line, i, texts, cur)| > |texts|
    decreases |line| - i
  {
    ScanIsDecode(line, i, texts, cur);
  }

  // fields[k] holds `text` as a C string.
  ghost predicate HoldsText(fields: array2<char>, k: nat, text: string)
    reads fields
  {
    && k < fields.Length0 && |text| < fields.Length1
    && (forall j :: 0 <= j < |text| ==> fields[k, j] == text[j] != NUL)
    && fields[k, |text|] == NUL
  }

  // The first f fields hold `texts`, fields[f] starts with `cur`, the others are empty.
  ghost predicate Filling(fields: array2<char>, f: nat, c: nat, texts: seq<string>, cur: string)
    reads fields
  {
    && fields.Length0 == 3 && fields.Length1 == MAX_MSG_LEN
    && f == |texts| < 3 && c == |cur| < MAX_MSG_LEN
    && (forall k :: 0 <= k < 3 && k != f ==> HoldsText(fields, k, FieldAt(texts, k)))
    && (forall j :: 0 <= j < c ==> fields[f, j] == cur[j] != NUL)
  }

  // Appends one character to the current field.
  method PutChar(fields: array2<char>, f: nat, c: nat, ch: char, ghost texts: seq<string>, ghost cur: string)
    requires Filling(fields, f, c, texts, cur)
    requires c + 1 < MAX_MSG_LEN && ch != NUL
    modifies fields
    ensures Filling(fields, f, c + 1, texts, cur + [ch])
  {
    fields[f, c] := ch;
    forall k | 0 <= k < 3 && k != f ensures HoldsText(fields, k, FieldAt(texts, k)) {
      assert old(HoldsText(fields, k, FieldAt(texts, k)));
    }
  }

  // Terminates the current field.
  method EndField(fields: array2<char>, f: nat, c: nat, ghost texts: seq<string>, ghost cur: string)
    requires Filling(fields, f, c, texts, cur)
    modifies fields
    ensures fields.Length0 == 3 && forall k :: 0 <= k < 3 ==> HoldsText(fields, k, FieldAt(texts + [cur], k))
    ensures f + 1 < 3 ==> Filling(fields, f + 1, 0, texts + [cur], "")
  {
    fields[f, c] := NUL;
    forall k | 0 <= k < 3 ensures HoldsText(fields, k, FieldAt(texts + [cur], k)) {
      if k != f { assert old(HoldsText(fields, k, FieldAt(texts, k))); }
    }
  }

  // The loop of parse_message. `f` is the field it ends in; 3 means that the
  // terminator after the loop would be written outside the fields.
  method SplitFields(line: CString, fields: array2<char>) returns (f: nat, ghost texts: seq<string>)
    requires |line| < MAX_MSG_LEN && Filling(fields, 0, 0, [], "")
    modifies fields
    ensures f <= 3 && (f == 3 <==> |Decode(line)| > 3)
    ensures f < 3 ==> texts == Decode(line)
    ensures f < 3 ==> forall k :: 0 <= k < 3 ==> HoldsText(fields, k, FieldAt(texts, k))
  {
    var c := 0;
    ghost var cur := "";
    f, texts := 0, [];
    var i := 0;
    ScanIsDecode(line, 0, [], "");
    ExtendTwice("", "", Decode(line));
    assert line[0..] == line && [] + Decode(line) == Decode(line);
    while i < |line| && line[i] != '\n'
      invariant 0 <= c <= i <= |line|
      invariant Filling(fields, f, c, texts, cur)
      invariant Scan(line, i, texts, cur) == Decode(line)
      decreases |line| - i
    {
      if line[i] == '\\' {
        i := i + 1;
        if i == |line| { break; }
        PutChar(fields, f, c, Unescaped(line[i]), texts, cur);
        cur, c := cur + [Unescaped(line[i])], c + 1;
        assert Scan(line, i + 1, texts, cur) == Decode(line);
      } else if line[i] == '|' {
        EndField(fields, f, c, texts, cur);
        texts, cur := texts + [cur], "";
        f, c := f + 1, 0;
        assert Scan(line, i + 1, texts, cur) == Decode(line);
        if f >= 3 {
          ScanGrows(line, i + 1, texts, cur);
          return;
        }
      } else {
        if c < MAX_MSG_LEN - 1 {
          PutChar(fields, f, c, line[i], texts, cur);
          cur, c := cur + [line[i]], c + 1;
          assert Scan(line, i + 1, texts, cur) == Decode(line);
        }
      }
      i := i + 1;
    }
    EndField(fields, f, c, texts, cur);
    texts := texts + [cur];
  }

  // Reads a field back as a string.
  method FieldText(fields: array2<char>, k: nat, ghost text: string) returns (copy: CString)
    requires HoldsText(fields, k, text)
    ensures copy == text
  {
    copy := "";
    var j := 0;
    while fields[k, j] != NUL
      invariant 0 <= j <= |text| && copy == text[..j]
      decreases |text| - j
    {
      copy := copy + [fields[k, j]];
      j := j + 1;
    }
  }

  method ParseMessage(line: CString) returns (outcome: Outcome, result: int)
    requires |line| < MAX_MSG_LEN
    ensures outcome == Parse(line)
    ensures outcome == Undefined <==> Separators(line) >= 3
    ensures outcome.Parsed? ==> result == if outcome.message.kind == Invalid then -1 else 0
  {
    UndefinedExactly(line);
    var fields := new char[3, MAX_MSG_LEN]((_, _) => NUL);
    var f; ghost var texts;
    f, texts := SplitFields(line, fields);
    if f >= 3 {
      return Undefined, -1;
    }
    var word := FieldText(fields, 0, FieldAt(texts, 0));
    var arg1 := FieldText(fields, 1, FieldAt(texts, 1));
    var arg2 := FieldText(fields, 2, FieldAt(texts, 2));
    outcome := Parsed(ParsedMessage(KindOf(word), arg1, arg2, line));
    result := if KindOf(word) == Invalid then -1 else 0;
  }
}
