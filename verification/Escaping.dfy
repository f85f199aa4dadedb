// The escaping that parse_message undoes, and lines that need none.
module Escaping {
  import opened CStrings
  import opened MessageParser

  function EscapedChar(c: char): string {
    if c == '\n' then "\\n" else if c == '|' then "\\|" else if c == '\\' then "\\\\" else [c]
  }

  function Escape(text: string): string {
    if text == "" then "" else EscapedChar(text[0]) + Escape(text[1..])
  }

  function EscapeAll(fields: seq<string>): seq<string> {
    seq(|fields|, k requires 0 <= k < |fields| => Escape(fields[k]))
  }

  lemma DecodeEscapedChar(c: char, rest: string)
    ensures Decode(EscapedChar(c) + rest) == Extend([c], Decode(rest))
  {
    var e := EscapedChar(c);
    assert |e| == 1 ==> (e + rest)[1..] == rest;
    assert |e| == 2 ==> (e + rest)[2..] == rest;
  }

  lemma {:induction false} DecodeEscaped(text: string, rest: string)
    ensures Decode(Escape(text) + rest) == Extend(text, Decode(rest))
  {
    if text == "" {
      assert Escape(text) + rest == rest;
      ExtendTwice("", "", Decode(rest));
    } else {
      DecodeEscaped(text[1..], rest);
      DecodeEscapedChar(text[0], Escape(text[1..]) + rest);
      assert Escape(text) + rest == EscapedChar(text[0]) + (Escape(text[1..]) + rest);
      ExtendTwice([text[0]], text[1..], Decode(rest));
      assert [text[0]] + text[1..] == text;
    }
  }

  lemma DecodeField(field: string, rest: string)
    ensures Decode(Escape(field) + (['|'] + rest)) == [field] + Decode(rest)
  {
    var tail := ['|'] + rest;
    assert tail[1..] == rest;
    DecodeEscaped(field, tail);
    assert field + "" == field && ([""] + Decode(rest))[1..] == Decode(rest);
  }

  lemma DecodeLastField(field: string, end: string)
    requires end == "" || end[0] == '\n'
    ensures Decode(Escape(field) + end) == [field]
  {
    DecodeEscaped(field, end);
    assert field + "" == field;
  }

  /** Splitting at '|' and decoding recovers any fields that were escaped and joined. */
  lemma {:induction false} DecodeJoin(fields: seq<string>, end: string)
    requires fields != [] && (end == "" || end[0] == '\n')
    ensures Decode(Join(EscapeAll(fields), '|') + end) == fields
  {
    if |fields| == 1 {
      DecodeLastField(fields[0], end);
    } else {
      var more := Join(EscapeAll(fields[1..]), '|');
      assert EscapeAll(fields)[1..] == EscapeAll(fields[1..]);
      assert Escape(fields[0]) + ['|'] + more + end == Escape(fields[0]) + (['|'] + (more + end));
      DecodeJoin(fields[1..], end);
      DecodeField(fields[0], more + end);
    }
  }

  /** parse_message is a left inverse of escaping and joining, for any three texts. */
  lemma ParseInvertsEscaping(word: string, arg1: string, arg2: string, end: string)
    requires end == "" || end == "\n"
    ensures var line := Escape(word) + "|" + Escape(arg1) + "|" + Escape(arg2) + end;
            Parse(line) == Parsed(ParsedMessage(KindOf(word), arg1, arg2, line))
  {
    hide Decode, Escape;
    var line1 := Escape(arg1) + (['|'] + (Escape(arg2) + end));
    Regroup(Escape(word) + "|" + Escape(arg1), "|", Escape(arg2), end);
    Regroup(Escape(word), "|", Escape(arg1), ['|'] + (Escape(arg2) + end));
    DecodeLastField(arg2, end);
    DecodeField(arg1, Escape(arg2) + end);
    DecodeField(word, line1);
  }

  /* ----- every way to write a text ----- */

  // A backslash may stand before any character but 'n'; it must before those with a meaning.
  function CodedChar(c: char, marked: bool): string {
    if marked && c != 'n' then ['\\', c] else EscapedChar(c)
  }

  function Coded(text: string, marks: seq<bool>): string
    requires |marks| == |text|
  {
    if text == "" then "" else CodedChar(text[0], marks[0]) + Coded(text[1..], marks[1..])
  }

  lemma DecodeCodedChar(c: char, marked: bool, rest: string)
    ensures Decode(CodedChar(c, marked) + rest) == Extend([c], Decode(rest))
  {
    var e := CodedChar(c, marked);
    assert |e| == 1 ==> (e + rest)[1..] == rest;
    assert |e| == 2 ==> (e + rest)[2..] == rest;
  }

  /** However a text is written, with a needless backslash before any of its characters or
      without, it is decoded to itself. */
  lemma {:induction false} DecodeCoded(text: string, marks: seq<bool>, rest: string)
    requires |marks| == |text|
    ensures Decode(Coded(text, marks) + rest) == Extend(text, Decode(rest))
  {
    if text == "" {
      assert Coded(text, marks) + rest == rest;
      ExtendTwice("", "", Decode(rest));
    } else {
      var coded := Coded(text[1..], marks[1..]);
      DecodeCoded(text[1..], marks[1..], rest);
      DecodeCodedChar(text[0], marks[0], coded + rest);
      assert Coded(text, marks) + rest == CodedChar(text[0], marks[0]) + (coded + rest);
      ExtendTwice([text[0]], text[1..], Decode(rest));
      assert [text[0]] + text[1..] == text;
    }
  }

  /** A lone backslash at the end of a line is dropped. */
  lemma DecodeDangling(text: string)
    ensures Decode(Escape(text) + "\\") == [text]
  {
    DecodeEscaped(text, "\\");
    assert text + "" == text;
  }

  // A text that escaping leaves alone.
  predicate IsPlain(text: string) {
    '|' !in text && '\\' !in text && '\n' !in text
  }

  lemma {:induction false} EscapePlain(text: string)
    requires IsPlain(text)
    ensures Escape(text) == text
  {
    if text == "" {
    } else {
      EscapePlain(text[1..]);
      assert text == [text[0]] + text[1..];
    }
  }
}
