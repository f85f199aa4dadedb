// What a user types and what parse_command makes of it, command by command: any blanks
// before the slash and between the arguments, any line end, any length.
module Typing {
  import opened CStrings
  import opened ProtocolLine
  import opened ClientInput
  import opened Validation

  predicate IsBlankChar(c: char) {
    c == ' ' || c == '\t'
  }

  predicate IsEndChar(c: char) {
    c == '\n' || c == '\r'
  }

  predicate IsBlank(s: string) {
    forall k :: 0 <= k < |s| ==> IsBlankChar(s[k])
  }

  // What trim_newline takes off: "\n", "\r\n", or nothing at the end of the input.
  predicate IsLineEnd(s: string) {
    forall k :: 0 <= k < |s| ==> IsEndChar(s[k])
  }

  // An argument that runs to the end of the line.
  predicate IsArgument(text: string) {
    text != "" && !IsBlankChar(text[0]) && !IsEndChar(text[|text| - 1])
  }

  // One word: what is between blanks.
  predicate IsWord(word: string) {
    word != "" && forall k :: 0 <= k < |word| ==> !IsBlankChar(word[k])
  }

  // A command word, up to a blank or the line end.
  predicate IsCommandWord(word: string, tail: string) {
    && (forall k :: 0 <= k < |word| ==> !IsBlankChar(word[k]) && !IsEndChar(word[k]))
    && (tail == "" || IsBlankChar(tail[0]) || IsEndChar(tail[0]))
  }

  function Typed(blanks: CString, word: CString, tail: CString): CString {
    blanks + (("/" + word) + tail)
  }

  /* ----- blanks and line ends ----- */

  lemma SpanIs(s: string, accept: string, n: nat)
    requires n <= |s| && (forall k :: 0 <= k < n ==> s[k] in accept) && (n < |s| ==> s[n] !in accept)
    ensures Span(s, accept) == n
  {
  }

  lemma CspanIs(s: string, reject: string, n: nat)
    requires n <= |s| && (forall k :: 0 <= k < n ==> s[k] !in reject) && (n < |s| ==> s[n] in reject)
    ensures Cspan(s, reject) == n
  {
  }

  lemma BlanksSkipped(blanks: CString, rest: CString)
    requires IsBlank(blanks) && (rest == "" || !IsBlankChar(rest[0]))
    ensures SkipBlanks(blanks + rest) == rest
  {
    SpanIs(blanks + rest, BLANKS, |blanks|);
    assert (blanks + rest)[|blanks|..] == rest;
  }

  lemma {:induction false} TrimExact(text: CString, end: CString)
    requires IsLineEnd(end) && (text == "" || !IsEndChar(text[|text| - 1]))
    ensures Trim(text + end) == text
  {
    if end == "" {
      assert text + end == text;
    } else {
      var s := text + end;
      assert s[|s| - 1] == end[|end| - 1];
      assert s[..|s| - 1] == text + end[..|end| - 1];
      TrimExact(text, end[..|end| - 1]);
    }
  }

  lemma PrefixBehind(text: CString, end: CString, n: nat)
    requires |text| <= n
    ensures Prefix(text + end, n) == text + Prefix(end, n - |text|)
    ensures IsLineEnd(end) ==> IsLineEnd(Prefix(end, n - |text|))
  {
  }

  // A text that fits loses its line end and nothing else.
  lemma CutTrimmed(text: CString, end: CString, n: nat)
    requires IsArgument(text) && IsLineEnd(end) && |text| <= n
    ensures Trim(Prefix(text + end, n)) == text
  {
    PrefixBehind(text, end, n);
    TrimExact(text, Prefix(end, n - |text|));
  }

  /* ----- the command word ----- */

  lemma WordEnds(word: CString, tail: CString)
    requires IsCommandWord(word, tail)
    ensures Cspan(word + tail, WORD_ENDS) == |word| && (word + tail)[..|word|] == word
  {
    assert tail != "" ==> (word + tail)[|word|] == tail[0];
    CspanIs(word + tail, WORD_ENDS, |word|);
  }

  // The word is cut to 31 characters, and whatever it loses stands in front of the arguments.
  function Lost(word: CString): CString {
    if |word| <= MAX_WORD then "" else word[MAX_WORD..]
  }

  lemma CommandFound(blanks: CString, word: CString, tail: CString)
    requires IsBlank(blanks) && IsCommandWord(word, tail)
    ensures Understand(Typed(blanks, word, tail)) == Arguments(Prefix(word, MAX_WORD), SkipBlanks(Lost(word) + tail))
  {
    hide Span, Cspan, Arguments, SkipBlanks;
    var p := ("/" + word) + tail;
    var kept := Prefix(word, MAX_WORD);
    BlanksSkipped(blanks, p);
    WordEnds(word, tail);
    assert p[0] == '/' && p[1..] == word + tail && word == kept + Lost(word);
    assert p[1..][..Cspan(p[1..], WORD_ENDS)] == word;
    assert p[1 + |kept|..] == Lost(word) + tail;
  }

  lemma ShortFound(blanks: CString, word: CString, tail: CString)
    requires IsBlank(blanks) && IsCommandWord(word, tail) && |word| <= MAX_WORD
    ensures Understand(Typed(blanks, word, tail)) == Arguments(word, SkipBlanks(tail))
  {
    hide Understand, Arguments, SkipBlanks;
    CommandFound(blanks, word, tail);
    assert "" + tail == tail;
  }

  lemma ArgumentFound(blanks: CString, word: CString, between: CString, rest: CString)
    requires IsBlank(blanks) && IsBlank(between) && between != "" && (rest == "" || !IsBlankChar(rest[0]))
    requires |word| <= MAX_WORD && forall k :: 0 <= k < |word| ==> !IsBlankChar(word[k]) && !IsEndChar(word[k])
    ensures Understand(Typed(blanks, word, between + rest)) == Arguments(word, rest)
  {
    hide Understand, Arguments, SkipBlanks;
    assert (between + rest)[0] == between[0] && IsBlankChar(between[0]);
    ShortFound(blanks, word, between + rest);
    BlanksSkipped(between, rest);
  }

  /* ----- the commands ----- */

  /** The commands without arguments, whatever follows them on the line. */
  lemma NoArgumentTyped(blanks: CString, word: CString, tail: CString)
    requires IsBlank(blanks) && (tail == "" || IsBlankChar(tail[0]) || IsEndChar(tail[0]))
    ensures word == "list" ==> Understand(Typed(blanks, word, tail)) == Command(List, "", "")
    ensures word == "help" ==> Understand(Typed(blanks, word, tail)) == Command(Help, "", "")
    ensures word == "quit" ==> Understand(Typed(blanks, word, tail)) == Command(Quit, "", "")
  {
    hide Understand, SkipBlanks;
    if word == "list" || word == "help" || word == "quit" { ShortFound(blanks, word, tail); }
  }

  /** The user asked for is the rest of the line, up to 31 characters. */
  lemma InfoTyped(blanks: CString, between: CString, text: CString, end: CString)
    requires IsBlank(blanks) && IsBlank(between) && between != "" && IsArgument(text) && IsLineEnd(end)
    ensures var line := Typed(blanks, "info", between + (text + end));
            && Understand(line) == Command(Info, Trim(Prefix(text + end, MAX_USERNAME_LEN - 1)), "")
            && (|text| <= 31 ==> Understand(line) == Command(Info, text, ""))
  {
    hide Understand, Trim;
    assert (text + end)[0] == text[0];
    ArgumentFound(blanks, "info", between, text + end);
    if |text| < MAX_USERNAME_LEN { CutTrimmed(text, end, MAX_USERNAME_LEN - 1); }
  }

  /** The text for everybody is the rest of the line, up to 899 characters. */
  lemma AllTyped(blanks: CString, between: CString, text: CString, end: CString)
    requires IsBlank(blanks) && IsBlank(between) && between != "" && IsArgument(text) && IsLineEnd(end)
    ensures var line := Typed(blanks, "all", between + (text + end));
            && Understand(line) == Command(All, "", Trim(Prefix(text + end, MAX_CHAT_LEN - 1)))
            && (|text| <= 899 ==> Understand(line) == Command(All, "", text))
  {
    hide Understand, Trim;
    assert (text + end)[0] == text[0];
    ArgumentFound(blanks, "all", between, text + end);
    if |text| < MAX_CHAT_LEN { CutTrimmed(text, end, MAX_CHAT_LEN - 1); }
  }

  lemma MessageSplit(dest: CString, between: CString, text: CString, end: CString)
    requires IsWord(dest) && IsBlank(between) && between != "" && IsArgument(text) && IsLineEnd(end)
    ensures Message(dest + (between + (text + end))) ==
            Command(Msg, Prefix(dest, MAX_USERNAME_LEN - 1), Trim(Prefix(text + end, MAX_CHAT_LEN - 1)))
  {
    hide Span, Cspan, Trim;
    var typed := text + end;
    var rest := dest + (between + typed);
    assert IsBlankChar(between[0]) && rest[|dest|] == between[0];
    assert forall k :: 0 <= k < |dest| ==> rest[k] == dest[k];
    CspanIs(rest, BLANKS, |dest|);
    assert rest[..|dest|] == dest && rest[|dest|..] == between + typed;
    assert typed[0] == text[0];
    BlanksSkipped(between, typed);
  }

  /** A private message: one word, up to 31 characters, and the rest of the line, up to 899. */
  lemma MsgTyped(blanks: CString, b1: CString, dest: CString, b2: CString, text: CString, end: CString)
    requires IsBlank(blanks) && IsBlank(b1) && b1 != "" && IsBlank(b2) && b2 != ""
    requires IsWord(dest) && IsArgument(text) && IsLineEnd(end)
    ensures var line := Typed(blanks, "msg", b1 + (dest + (b2 + (text + end))));
            && Understand(line) ==
               Command(Msg, Prefix(dest, MAX_USERNAME_LEN - 1), Trim(Prefix(text + end, MAX_CHAT_LEN - 1)))
            && (|dest| <= 31 && |text| <= 899 ==> Understand(line) == Command(Msg, dest, text))
  {
    hide Understand, Message, Trim;
    var rest := dest + (b2 + (text + end));
    assert rest[0] == dest[0];
    ArgumentFound(blanks, "msg", b1, rest);
    MessageSplit(dest, b2, text, end);
    if |text| < MAX_CHAT_LEN { CutTrimmed(text, end, MAX_CHAT_LEN - 1); }
  }

  /** A private message without a text is not understood. */
  lemma MsgWithoutText(blanks: CString, b1: CString, dest: CString, b2: CString)
    requires IsBlank(blanks) && IsBlank(b1) && b1 != "" && IsBlank(b2) && IsWord(dest)
    ensures Understand(Typed(blanks, "msg", b1 + (dest + b2))) == Command(Unknown, Prefix(dest, MAX_USERNAME_LEN - 1), "")
  {
    hide Understand, Span, Cspan;
    var rest := dest + b2;
    assert rest[0] == dest[0];
    ArgumentFound(blanks, "msg", b1, rest);
    assert forall k :: 0 <= k < |dest| ==> rest[k] == dest[k];
    assert b2 != "" ==> rest[|dest|] == b2[0];
    CspanIs(rest, BLANKS, |dest|);
    assert rest[..|dest|] == dest && rest[|dest|..] == b2;
    BlanksSkipped(b2, "");
    assert b2 + "" == b2;
  }

  /* ----- /status ----- */

  // The capitals in any mixture of upper and lower case.
  predicate Spells(word: string, capitals: string) {
    && |word| == |capitals|
    && forall k :: 0 <= k < |word| ==>
         && 'A' <= capitals[k] <= 'Z'
         && (word[k] == capitals[k] || word[k] as int == capitals[k] as int - 'A' as int + 'a' as int)
  }

  /** The small letters become the capitals, and nothing else changes. */
  lemma CapitalOf(c: char)
    ensures forall k :: 0 <= k < 26 && c == SMALL_LETTERS[k] ==> ToUpper(c) == CAPITALS[k]
    ensures c !in SMALL_LETTERS ==> ToUpper(c) == c
  {
    SmallLetter(c);
  }

  lemma UpperAppend(a: CString, b: CString)
    ensures Upper(a + b) == Upper(a) + Upper(b)
  {
    hide Upper;
    forall k | 0 <= k < |a| + |b| ensures Upper(a + b)[k] == (Upper(a) + Upper(b))[k] {
      if k < |a| {
        assert (a + b)[k] == a[k];
      } else {
        assert (a + b)[k] == b[k - |a|];
      }
    }
  }

  lemma UpperOfLineEnd(end: CString)
    requires IsLineEnd(end)
    ensures Upper(end) == end
  {
  }

  lemma UpperEndsAlike(text: CString)
    requires IsArgument(text)
    ensures Upper(text) != "" && !IsEndChar(Upper(text)[|text| - 1])
  {
    hide Upper;
    assert Upper(text)[|text| - 1] == ToUpper(text[|text| - 1]);
  }

  lemma UpperOfBoth(text: CString, kept: CString)
    requires IsArgument(text) && IsLineEnd(kept)
    ensures Trim(Upper(text + kept)) == Upper(text)
  {
    hide Trim, Upper, IsArgument, IsLineEnd;
    UpperAppend(text, kept);
    UpperOfLineEnd(kept);
    UpperEndsAlike(text);
    TrimExact(Upper(text), kept);
  }

  // In upper case a word that fits loses its line end and nothing else.
  lemma UpperTrimmed(text: CString, end: CString, n: nat)
    requires IsArgument(text) && IsLineEnd(end) && |text| <= n
    ensures Trim(Upper(Prefix(text + end, n))) == Upper(text)
  {
    hide Trim, Upper, Prefix, IsArgument, IsLineEnd;
    PrefixBehind(text, end, n);
    UpperOfBoth(text, Prefix(end, n - |text|));
  }

  lemma StatusFound(blanks: CString, between: CString, rest: CString)
    requires IsBlank(blanks) && IsBlank(between) && between != "" && rest != "" && !IsBlankChar(rest[0])
    ensures Understand(Typed(blanks, "status", between + rest)) ==
            Command(Status, Trim(Upper(Prefix(rest, MAX_USERNAME_LEN - 1))), "")
  {
    hide Understand, Trim, Upper, Prefix;
    ArgumentFound(blanks, "status", between, rest);
  }

  /** The status is the rest of the line in upper case. */
  lemma StatusTyped(blanks: CString, between: CString, text: CString, end: CString)
    requires IsBlank(blanks) && IsBlank(between) && between != "" && IsArgument(text) && IsLineEnd(end)
    requires |text| < MAX_USERNAME_LEN
    ensures Understand(Typed(blanks, "status", between + (text + end))) == Command(Status, Upper(text), "")
  {
    hide Understand, Trim, Upper, Prefix;
    assert (text + end)[0] == text[0];
    StatusFound(blanks, between, text + end);
    UpperTrimmed(text, end, MAX_USERNAME_LEN - 1);
  }

  /** A status is understood in any mixture of cases. */
  lemma SpelledStatusTyped(blanks: CString, between: CString, word: CString, capitals: CString, end: CString)
    requires IsBlank(blanks) && IsBlank(between) && between != "" && IsLineEnd(end)
    requires Spells(word, capitals) && 0 < |word| < MAX_USERNAME_LEN
    ensures Understand(Typed(blanks, "status", between + (word + end))) == Command(Status, capitals, "")
  {
    hide Understand, Upper;
    assert forall k :: 0 <= k < |word| ==> Upper(word)[k] == capitals[k];
    assert Upper(word) == capitals;
    StatusTyped(blanks, between, word, end);
  }

  /* ----- what is not understood ----- */

  const COMMANDS: seq<string> := ["list", "help", "quit", "info", "status", "msg", "all"]

  /** A word that is no command. */
  lemma OtherWordTyped(blanks: CString, word: CString, tail: CString)
    requires IsBlank(blanks) && IsCommandWord(word, tail) && word !in COMMANDS
    ensures Understand(Typed(blanks, word, tail)) == Command(Unknown, "", "")
  {
    hide Understand, SkipBlanks, Message;
    CommandFound(blanks, word, tail);
    if |word| <= MAX_WORD {
      assert COMMANDS[0] == "list" && COMMANDS[1] == "help" && COMMANDS[2] == "quit" && COMMANDS[3] == "info";
      assert COMMANDS[4] == "status" && COMMANDS[5] == "msg" && COMMANDS[6] == "all";
    }
  }

  /** A command whose arguments are missing. */
  lemma ArgumentMissing(blanks: CString, word: CString, between: CString)
    requires IsBlank(blanks) && IsBlank(between)
    requires word == "info" || word == "status" || word == "msg" || word == "all"
    ensures Understand(Typed(blanks, word, between)) == Command(Unknown, "", "")
  {
    hide Understand;
    ShortFound(blanks, word, between);
    BlanksSkipped(between, "");
    assert between + "" == between;
  }

  /** A line that does not begin with a slash. */
  lemma NoCommandTyped(blanks: CString, rest: CString)
    requires IsBlank(blanks) && (rest == "" || (!IsBlankChar(rest[0]) && rest[0] != '/'))
    ensures Understand(blanks + rest) == Command(Unknown, "", "")
  {
    hide Span, Cspan, Arguments, SkipBlanks;
    BlanksSkipped(blanks, rest);
  }
}
