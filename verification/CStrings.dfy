// C strings and the library calls of <string.h> and <stdio.h> that the program
// relies on, as functions. One `char` stands for one C char.
module CStrings {

  const NUL: char := '\0'

  type CString = s: string | NUL !in s

  /** Concatenation can be regrouped. */
  lemma Regroup(w: string, x: string, y: string, z: string)
    ensures w + x + y + z == w + (x + (y + z)) == w + (x + y + z) == w + (x + y) + z
  {
    assert w + x + y + z == w + x + (y + z) && x + y + z == x + (y + z);
    assert w + (x + y) == w + x + y;
  }

  /** At most the first `n` characters. */
  function Prefix(s: string, n: nat): (r: string)
    ensures |r| == if |s| <= n then |s| else n
    ensures r <= s
    ensures NUL !in s ==> NUL !in r
  {
    if |s| <= n then s else s[..n]
  }

  /** The position of the first `c`, or the length: strchr, and strcspn with one character. */
  function IndexOf(s: string, c: char): (i: nat)
    ensures i <= |s|
    ensures forall k :: 0 <= k < i ==> s[k] != c
    ensures i < |s| ==> s[i] == c
  {
    IndexFrom(s, c, 0)
  }

  function IndexFrom(s: string, c: char, from: nat): (i: nat)
    requires from <= |s|
    ensures from <= i <= |s|
    ensures forall k :: from <= k < i ==> s[k] != c
    ensures i < |s| ==> s[i] == c
    decreases |s| - from
  {
    if from == |s| || s[from] == c then from else IndexFrom(s, c, from + 1)
  }

  lemma IndexIs(s: string, c: char, i: nat)
    requires i <= |s| && (forall k :: 0 <= k < i ==> s[k] != c) && (i < |s| ==> s[i] == c)
    ensures IndexOf(s, c) == i
  {
  }

  /** The string at the start of a buffer: everything before the first NUL. */
  function CStr(buffer: seq<char>): (s: CString)
  {
    buffer[..IndexOf(buffer, NUL)]
  }

  lemma CStrIs(buffer: seq<char>, s: CString)
    requires |s| < |buffer| && buffer[..|s|] == s && buffer[|s|] == NUL
    ensures CStr(buffer) == s && IndexOf(buffer, NUL) == |s|
  {
    IndexIs(buffer, NUL, |s|);
  }

  lemma CStrEnds(buffer: seq<char>)
    requires NUL in buffer
    ensures var n := |CStr(buffer)|; n < |buffer| && buffer[..n] == CStr(buffer) && buffer[n] == NUL
  {
  }

  lemma CStrSuffix(buffer: seq<char>, m: nat)
    requires NUL in buffer && m <= |CStr(buffer)|
    ensures NUL in buffer[m..] && CStr(buffer[m..]) == CStr(buffer)[m..]
  {
    var s := CStr(buffer)[m..];
    assert buffer[m..][..|s|] == s && buffer[m..][|s|] == NUL;
    CStrIs(buffer[m..], s);
  }

  // The string that starts at `from` and ends at the NUL at `to`.
  lemma CStrAt(buffer: seq<char>, from: nat, to: nat)
    requires from <= to < |buffer| && NUL !in buffer[from..to] && buffer[to] == NUL
    ensures NUL in buffer[from..] && CStr(buffer[from..]) == buffer[from..to]
  {
    assert buffer[from..][..to - from] == buffer[from..to] && buffer[from..][to - from] == NUL;
    CStrIs(buffer[from..], buffer[from..to]);
  }

  /** What strncpy writes: the characters of `s`, then NULs up to `n`. */
  function Padded(s: string, n: nat): (r: string)
    ensures |r| == n
    ensures forall k :: 0 <= k < n ==> r[k] == if k < |s| then s[k] else NUL
  {
    Prefix(s, n) + seq(n - |Prefix(s, n)|, _ => NUL)
  }

  /** What snprintf writes into `n` bytes: as much of the text as fits, and a NUL. */
  function Terminated(s: string, n: nat): (r: string)
    requires 0 < n
    ensures |r| <= n
  {
    Prefix(s, n - 1) + [NUL]
  }

  /** A string up to its first newline. */
  function UpToNewline(s: string): string {
    s[..IndexOf(s, '\n')]
  }

  /* ----- counting ----- */

  function Count(s: string, c: char): nat {
    if s == "" then 0 else (if s[0] == c then 1 else 0) + Count(s[1..], c)
  }

  lemma {:induction false} CountAppend(a: string, b: string, c: char)
    ensures Count(a + b, c) == Count(a, c) + Count(b, c)
  {
    if a == "" {
      assert a + b == b;
    } else {
      assert (a + b)[1..] == a[1..] + b;
      CountAppend(a[1..], b, c);
    }
  }

  lemma {:induction false} CountNone(s: string, c: char)
    ensures Count(s, c) == 0 <==> c !in s
  {
    if s == "" {
    } else {
      CountNone(s[1..], c);
      assert c in s <==> s[0] == c || c in s[1..];
    }
  }

  /* ----- fields and tokens ----- */

  /** The fields of `s` between occurrences of `d`, empty ones included. */
  function Split(s: string, d: char): (fields: seq<string>)
    ensures |fields| > 0
    decreases |s|
  {
    var i := IndexOf(s, d);
    if i == |s| then [s] else [s[..i]] + Split(s[i + 1..], d)
  }

  function Join(fields: seq<string>, d: char): string {
    if fields == [] then ""
    else if |fields| == 1 then fields[0]
    else fields[0] + [d] + Join(fields[1..], d)
  }

  function NonEmpty(fields: seq<string>): seq<string> {
    if fields == [] then []
    else (if fields[0] == "" then [] else [fields[0]]) + NonEmpty(fields[1..])
  }

  // The number of delimiters at the start of `s`.
  function Leading(s: string, d: char): (n: nat)
    ensures n <= |s| && (n < |s| ==> s[n] != d)
    ensures forall k :: 0 <= k < n ==> s[k] == d
  {
    LeadingFrom(s, d, 0)
  }

  function LeadingFrom(s: string, d: char, from: nat): (n: nat)
    requires from <= |s|
    ensures from <= n <= |s|
    ensures forall k :: from <= k < n ==> s[k] == d
    ensures n < |s| ==> s[n] != d
    decreases |s| - from
  {
    if from == |s| || s[from] != d then from else LeadingFrom(s, d, from + 1)
  }

  /** What repeated calls of strtok return: skip delimiters, take up to the next one, go on behind it. */
  function Tokens(s: string, d: char): seq<string>
    decreases |s|
  {
    var word := s[Leading(s, d)..];
    var n := IndexOf(word, d);
    if word == "" then []
    else [word[..n]] + if n < |word| then Tokens(word[n + 1..], d) else []
  }

  lemma TokensStep(s: string, d: char, word: string, n: nat)
    requires word == s[Leading(s, d)..] && word != "" && n == IndexOf(word, d)
    ensures Tokens(s, d) == [word[..n]] + if n < |word| then Tokens(word[n + 1..], d) else []
  {
  }

  lemma NoTokens(s: string, d: char)
    requires Leading(s, d) == |s|
    ensures Tokens(s, d) == []
  {
  }

  lemma TokensAfterDelimiter(s: string, d: char)
    requires s != "" && s[0] == d
    ensures Tokens(s, d) == Tokens(s[1..], d)
  {
    assert s[Leading(s, d)..] == s[1..][Leading(s[1..], d)..];
  }

  lemma SplitStep(s: string, d: char, n: nat)
    requires n == IndexOf(s, d)
    ensures Split(s, d) == if n == |s| then [s] else [s[..n]] + Split(s[n + 1..], d)
  {
  }

  lemma NonEmptyStep(field: string, fields: seq<string>)
    ensures NonEmpty([field] + fields) == (if field == "" then [] else [field]) + NonEmpty(fields)
  {
    assert ([field] + fields)[1..] == fields;
  }

  /** The tokens are the nonempty fields, in order. */
  lemma {:induction false} TokensAreFields(s: string, d: char)
    ensures Tokens(s, d) == NonEmpty(Split(s, d))
    decreases |s|
  {
    hide Tokens, Split, NonEmpty;
    var n := IndexOf(s, d);
    SplitStep(s, d, n);
    NonEmptyStep(s[..n], if n < |s| then Split(s[n + 1..], d) else []);
    assert [s] == [s] + [] && NonEmpty([]) == [] by { NoFields(); }
    if n < |s| { TokensAreFields(s[n + 1..], d); }
    if s == "" {
      NoTokens(s, d);
    } else if n == 0 {
      TokensAfterDelimiter(s, d);
    } else {
      assert s[0..] == s && s[..|s|] == s;
      TokensStep(s, d, s, n);
    }
  }

  lemma {:induction false} SplitHasNone(s: string, d: char)
    ensures forall k :: 0 <= k < |Split(s, d)| ==> d !in Split(s, d)[k]
    decreases |s|
  {
    var n := IndexOf(s, d);
    assert d !in s[..n];
    if n < |s| {
      SplitHasNone(s[n + 1..], d);
    } else {
      assert s[..n] == s;
    }
  }

  lemma {:induction false} NonEmptyKeeps(fields: seq<string>, d: char)
    requires forall k :: 0 <= k < |fields| ==> d !in fields[k]
    ensures forall k :: 0 <= k < |NonEmpty(fields)| ==> d !in NonEmpty(fields)[k]
  {
    if fields == [] {
    } else {
      NonEmptyKeeps(fields[1..], d);
    }
  }

  /** A token never contains the delimiter. */
  lemma TokensHaveNone(s: string, d: char)
    ensures forall k :: 0 <= k < |Tokens(s, d)| ==> d !in Tokens(s, d)[k]
  {
    TokensAreFields(s, d);
    SplitHasNone(s, d);
    NonEmptyKeeps(Split(s, d), d);
  }

  lemma NoFields()
    ensures NonEmpty([]) == []
  {
  }

  lemma {:induction false} SplitJoin(fields: seq<string>, d: char)
    requires fields != [] && forall k :: 0 <= k < |fields| ==> d !in fields[k]
    ensures Split(Join(fields, d), d) == fields
  {
    var s := Join(fields, d);
    if |fields| == 1 {
      IndexIs(s, d, |s|);
      assert d !in fields[0];
    } else {
      var f := fields[0];
      assert d !in f;
      assert s[..|f|] == f && s[|f|] == d && s[|f| + 1..] == Join(fields[1..], d);
      IndexIs(s, d, |f|);
      SplitJoin(fields[1..], d);
    }
  }

  lemma {:induction false} NonEmptyAll(fields: seq<string>)
    requires "" !in fields
    ensures NonEmpty(fields) == fields
  {
    if fields == [] {
    } else {
      NonEmptyAll(fields[1..]);
    }
  }

  /** strtok recovers nonempty fields that were joined by its delimiter. */
  lemma TokensJoin(fields: seq<string>, d: char)
    requires forall k :: 0 <= k < |fields| ==> d !in fields[k] && fields[k] != ""
    ensures Tokens(Join(fields, d), d) == fields
  {
    TokensAreFields(Join(fields, d), d);
    if fields == [] {
      assert Split("", d) == [""] && [""][1..] == [];
    } else {
      SplitJoin(fields, d);
      NonEmptyAll(fields);
    }
  }

  lemma JoinEmpty(fields: seq<string>, d: char)
    requires "" !in fields
    ensures Join(fields, d) == "" <==> fields == []
  {
  }

  lemma {:induction false} JoinAppend(fields: seq<string>, last: string, d: char)
    requires fields != []
    ensures Join(fields + [last], d) == Join(fields, d) + [d] + last
  {
    if |fields| == 1 {
      assert (fields + [last])[1..] == [last];
    } else {
      assert (fields + [last])[1..] == fields[1..] + [last];
      JoinAppend(fields[1..], last, d);
    }
  }

  lemma {:induction false} JoinPrefix(fields: seq<string>, more: seq<string>, d: char)
    ensures Join(fields, d) <= Join(fields + more, d)
  {
    if fields == [] {
    } else if |fields| == 1 {
      assert (fields + more)[0] == fields[0] && (more == [] ==> fields + more == fields);
    } else {
      assert (fields + more)[1..] == fields[1..] + more;
      JoinPrefix(fields[1..], more, d);
    }
  }

  lemma JoinNext(fields: seq<string>, next: string, d: char)
    ensures Join(fields + [next], d) == Join(fields, d) + (if fields == [] then "" else [d]) + next
  {
    if fields != [] { JoinAppend(fields, next, d); }
  }
}
