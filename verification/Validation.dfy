// src/common/validation.c, and the client's own check of a user name
// (src/client/main_client.c).
module Validation {
  import opened CStrings
  import opened ProtocolLine
  import opened MessageParser
  import opened Escaping

  predicate IsAlnum(c: char) {
    'A' <= c <= 'Z' || 'a' <= c <= 'z' || '0' <= c <= '9'
  }

  predicate NameChar(c: char) {
    IsAlnum(c) || c == '_'
  }

  predicate ValidName(name: string) {
    0 < |name| <= MAX_USERNAME_LEN && forall k :: 0 <= k < |name| ==> NameChar(name[k])
  }

  const CAPITALS := "ABCDEFGHIJKLMNOPQRSTUVWXYZ"
  const SMALL_LETTERS := "abcdefghijklmnopqrstuvwxyz"
  const DIGITS := "0123456789"

  lemma InAlphabet(letters: string, first: char, c: char)
    requires forall k :: 0 <= k < |letters| ==> letters[k] as int == first as int + k
    ensures c in letters <==> first as int <= c as int < first as int + |letters|
  {
    if first as int <= c as int < first as int + |letters| {
      assert letters[c as int - first as int] == c;
    }
  }

  lemma Capital(c: char)
    ensures c in CAPITALS <==> 'A' <= c <= 'Z'
  {
    InAlphabet(CAPITALS, 'A', c);
  }

  lemma SmallLetter(c: char)
    ensures c in SMALL_LETTERS <==> 'a' <= c <= 'z'
  {
    InAlphabet(SMALL_LETTERS, 'a', c);
  }

  lemma Digit(c: char)
    ensures c in DIGITS <==> '0' <= c <= '9'
  {
    InAlphabet(DIGITS, '0', c);
  }

  /** The characters of a name: the letters, the digits and the underscore. */
  lemma NameCharsAre(c: char)
    ensures NameChar(c) <==> c in CAPITALS || c in SMALL_LETTERS || c in DIGITS || c == '_'
  {
    Capital(c);
    SmallLetter(c);
    Digit(c);
  }

  // src/common/validation.c: measure first, then look at every character
  method IsValidUsername(u: CString) returns (valid: bool)
    ensures valid == ValidName(u)
  {
    var len := |u|;
    if len == 0 || len > MAX_USERNAME_LEN { return false; }
    var i := 0;
    while i < len
      invariant 0 <= i <= len
      invariant forall k :: 0 <= k < i ==> NameChar(u[k])
    {
      if !IsAlnum(u[i]) && u[i] != '_' { return false; }
      i := i + 1;
    }
    return true;
  }

  // src/client/main_client.c: count while looking at the characters
  method ValidateUsername(username: CString) returns (valid: bool)
    ensures valid == ValidName(username)
  {
    if username == "" { return false; }
    var len := 0;
    while len < |username|
      invariant 0 <= len <= |username| && len <= MAX_USERNAME_LEN
      invariant forall k :: 0 <= k < len ==> NameChar(username[k])
    {
      if len >= MAX_USERNAME_LEN { return false; }
      var c := username[len];
      var ok := ('A' <= c && c <= 'Z') || ('a' <= c && c <= 'z') || ('0' <= c && c <= '9') || c == '_';
      if !ok { return false; }
      len := len + 1;
    }
    return len > 0;
  }

  predicate ValidStatus(s: string) {
    s == "ACTIVO" || s == "OCUPADO" || s == "INACTIVO"
  }

  // validate_message
  predicate Validate(msg: ParsedMessage) {
    match msg.kind
    case Register => ValidName(msg.arg1)
    case Status => ValidStatus(msg.arg1)
    case Msg => |msg.arg1| > 0 && |msg.arg2| > 0
    case _ => true
  }

  /** A line of plain fields is parsed into these fields. */
  lemma ParsePlainOne(kind: CString, f1: CString)
    requires IsPlain(kind) && IsPlain(f1)
    ensures var line := Line(kind, Some(f1), None, None);
            Parse(line) == Parsed(ParsedMessage(KindOf(kind), f1, "", line))
  {
    EscapePlain(kind);
    EscapePlain(f1);
    DecodeLastField(f1, "\n");
    DecodeField(kind, f1 + "\n");
    assert Line(kind, Some(f1), None, None) == kind + (['|'] + (f1 + "\n"));
  }

  lemma LineOfTwo(kind: CString, f1: CString, f2: CString)
    ensures Line(kind, Some(f1), Some(f2), None) == kind + (['|'] + (f1 + (['|'] + (f2 + "\n"))))
  {
    var a := kind + ("|" + f1);
    assert a + ("|" + f2) + "" == a + ("|" + f2);
    Regroup(a, "|", f2, "\n");
    Regroup(kind, "|", f1, ['|'] + (f2 + "\n"));
  }

  lemma ParsePlainTwo(kind: CString, f1: CString, f2: CString)
    requires IsPlain(kind) && IsPlain(f1) && IsPlain(f2)
    ensures var line := Line(kind, Some(f1), Some(f2), None);
            Parse(line) == Parsed(ParsedMessage(KindOf(kind), f1, f2, line))
  {
    EscapePlain(kind);
    EscapePlain(f1);
    EscapePlain(f2);
    var tail := f1 + (['|'] + (f2 + "\n"));
    DecodeLastField(f2, "\n");
    DecodeField(f1, f2 + "\n");
    DecodeField(kind, tail);
    LineOfTwo(kind, f1, f2);
  }

  lemma ParsePlainWord(kind: CString)
    requires IsPlain(kind)
    ensures var line := Line(kind, None, None, None);
            Parse(line) == Parsed(ParsedMessage(KindOf(kind), "", "", line))
  {
    EscapePlain(kind);
    DecodeLastField(kind, "\n");
    assert Line(kind, None, None, None) == kind + "\n";
  }

  /** A name that needs no escapes is parsed unchanged, and accepted exactly if the client's
      check accepts it; then it also fits. */
  lemma RegisterTransparent(name: CString)
    requires IsPlain(name)
    ensures var line := Line("REGISTER", Some(name), None, None);
            var msg := ParsedMessage(Register, name, "", line);
            && Parse(line) == Parsed(msg)
            && (Validate(msg) <==> ValidName(name))
            && (ValidName(name) ==> |line| < MAX_MSG_LEN)
  {
    ParsePlainOne("REGISTER", name);
  }

  /** Names that both checks accept need no escapes. */
  lemma ValidNamesArePlain(name: string)
    requires ValidName(name)
    ensures IsPlain(name) && NUL !in name && ';' !in name
  {
  }
}
