// The list of users from the session table to the screen: sessions_list_usernames,
// build_list_ok, proto_parse_type and ui_print_list (src/client/ui.c).
module UserList {
  import opened CStrings
  import opened CBuffers
  import opened ProtocolLine
  import opened Replies
  import opened Dispatch
  import Sessions
  import Validation

  // Every token is shown up to its first newline.
  function Rows(tokens: seq<string>): seq<string> {
    if tokens == [] then [] else [UpToNewline(tokens[0])] + Rows(tokens[1..])
  }

  /** What the screen shows: the count in the heading, then one name a line. */
  function Listing(users: CString): (nat, seq<string>) {
    var buf := Prefix(users, MAX_MSG_LEN - 1);
    (if buf == "" then 0 else 1 + Count(buf, ';'), Rows(Tokens(buf, ';')))
  }

  /* ----- ui_print_list ----- */

  // One more than the number of semicolons, or zero for the empty string.
  method CountSemicolons(buf: array<char>) returns (count: nat)
    requires NUL in buf[..]
    ensures count == if CStr(buf[..]) == "" then 0 else 1 + Count(CStr(buf[..]), ';')
  {
    hide CStr, IndexOf;
    count := 1;
    var p := 0;
    ghost var text := CStr(buf[..]);
    CStrEnds(buf[..]);
    assert text[0..] == text;
    while buf[p] != NUL
      invariant 0 <= p <= |text|
      invariant count + Count(text[p..], ';') == 1 + Count(text, ';')
      decreases |text| - p
    {
      assert buf[p] == buf[..][p] == text[p];
      assert text[p..][0] == text[p] && text[p..][1..] == text[p + 1..];
      if buf[p] == ';' { count := count + 1; }
      p := p + 1;
    }
    if buf[0] == NUL { count := 0; }
    assert text != "" ==> buf[..][0] == text[0];
  }

  // Cuts the token that strtok has just returned at its first newline, in place.
  method CutToken(tk: StrTok, tok: nat) returns (row: CString)
    requires tk.Valid() && tok < tk.buf.Length && NUL in tk.buf[tok..]
    requires tok + |CStr(tk.buf[tok..])| <= tk.pos
    modifies tk.buf
    ensures tk.Valid() && tk.Rest() == old(tk.Rest())
    ensures row == UpToNewline(old(CStr(tk.buf[tok..])))
  {
    var text := CStr(tk.buf[tok..]);
    var i := IndexOf(text, '\n');
    ghost var rest := tk.buf[tk.pos..];
    assert i == |text| ==> tk.buf[tok..][i] == NUL;
    assert tok + i == tk.pos ==> rest[0] == NUL;
    tk.buf[tok + i] := NUL;
    assert tk.buf[tk.pos..] == rest;
    assert tk.buf[tok..][..i] == text[..i] && tk.buf[tok..][i] == NUL;
    CStrIs(tk.buf[tok..], text[..i]);
    row := CStr(tk.buf[tok..]);
  }

  lemma RowsNext(shown: seq<string>, text: string, rest: seq<string>)
    ensures shown + Rows([text] + rest) == (shown + [UpToNewline(text)]) + Rows(rest)
  {
    assert ([text] + rest)[1..] == rest;
  }

  method UiPrintList(usersRaw: CString) returns (count: nat, shown: seq<string>)
    ensures (count, shown) == Listing(usersRaw)
  {
    hide Tokens, IndexOf, CStr, Prefix, Count, Rows, UpToNewline;
    var buf := new char[MAX_MSG_LEN];
    CopyString(buf, usersRaw, MAX_MSG_LEN - 1);
    count := CountSemicolons(buf);
    CopyString(buf, usersRaw, MAX_MSG_LEN - 1);
    shown := PrintRows(buf);
  }

  // Prints one row for every token.
  method PrintRows(buf: array<char>) returns (shown: seq<string>)
    requires NUL in buf[..]
    modifies buf
    ensures shown == Rows(old(Tokens(CStr(buf[..]), ';')))
  {
    hide Tokens, IndexOf, CStr, Rows, UpToNewline;
    assert buf[0..] == buf[..];
    ghost var tokens := Tokens(CStr(buf[..]), ';');
    var tk := new StrTok();
    tk.Begin(buf, 0);
    shown := [];
    var tok := tk.Next(';');
    ghost var left := tokens;   // the token at tok and those strtok has still to return
    while tok != -1
      invariant tk.Valid() && tk.buf == buf && -1 <= tok < buf.Length
      invariant tok == -1 <==> left == []
      invariant tok != -1 ==>
        && NUL in buf[tok..] && tok + |CStr(buf[tok..])| <= tk.pos
        && left == [CStr(buf[tok..])] + Tokens(tk.Rest(), ';')
      invariant shown + Rows(left) == Rows(tokens)
      decreases |left|
    {
      left := Tokens(tk.Rest(), ';');
      RowsNext(shown, CStr(buf[tok..]), left);
      var row := CutToken(tk, tok);
      shown := shown + [row];
      tok := tk.Next(';');
    }
    NoRows();
  }

  lemma NoRows()
    ensures Rows([]) == []
  {
  }

  /* ----- the heading agrees with the rows ----- */

  lemma {:induction false} SplitCount(s: string, d: char)
    ensures |Split(s, d)| == 1 + Count(s, d)
    decreases |s|
  {
    var n := IndexOf(s, d);
    CountNone(s[..n], d);
    if n < |s| {
      assert s == s[..n] + s[n..] && s[n..][1..] == s[n + 1..];
      CountAppend(s[..n], s[n..], d);
      SplitCount(s[n + 1..], d);
    } else {
      assert s[..n] == s;
    }
  }

  lemma {:induction false} NonEmptyLength(fields: seq<string>)
    ensures |NonEmpty(fields)| <= |fields|
    ensures |NonEmpty(fields)| == |fields| <==> "" !in fields
  {
    if fields == [] {
    } else {
      NonEmptyLength(fields[1..]);
    }
  }

  lemma {:induction false} RowsLength(tokens: seq<string>)
    ensures |Rows(tokens)| == |tokens|
  {
    if tokens == [] {
    } else {
      RowsLength(tokens[1..]);
    }
  }

  /** The heading counts the rows exactly if no name between the semicolons is empty. */
  lemma HeadingCountsRows(users: CString)
    ensures var buf := Prefix(users, MAX_MSG_LEN - 1);
            Listing(users).0 == |Listing(users).1| <==> buf == "" || "" !in Split(buf, ';')
  {
    var buf := Prefix(users, MAX_MSG_LEN - 1);
    hide Tokens, Prefix, Split, Rows, Count, NonEmpty, IndexOf;
    RowsLength(Tokens(buf, ';'));
    if buf == "" {
      NoTokens(buf, ';');
      assert |Listing(users).1| == 0;
    } else {
      var fields := Split(buf, ';');
      SplitCount(buf, ';');
      TokensAreFields(buf, ';');
      NonEmptyLength(fields);
      assert Listing(users).0 == |fields| && |Listing(users).1| == |NonEmpty(fields)|;
    }
  }

  /* ----- the round trip ----- */

  lemma {:induction false} RowsOfNames(names: seq<string>)
    requires forall k :: 0 <= k < |names| ==> '\n' !in names[k]
    ensures Rows(names) == names
  {
    if names == [] {
      NoRows();
    } else {
      assert '\n' !in names[0];
      IndexIs(names[0], '\n', |names[0]|);
      RowsOfNames(names[1..]);
      assert UpToNewline(names[0]) == names[0] && names == [names[0]] + names[1..];
    }
  }

  lemma {:induction false} JoinHasNone(names: seq<string>, c: char)
    requires c != ';' && forall k :: 0 <= k < |names| ==> c !in names[k]
    ensures c !in Join(names, ';')
  {
    if names == [] {
    } else {
      assert c !in names[0];
      JoinHasNone(names[1..], c);
    }
  }

  // A semicolon in a name adds to those between the names.
  lemma {:induction false} JoinCount(names: seq<string>, d: char)
    requires names != []
    ensures Count(Join(names, d), d) >= |names| - 1
    ensures Count(Join(names, d), d) == |names| - 1 <==> forall k :: 0 <= k < |names| ==> d !in names[k]
  {
    CountNone(names[0], d);
    if |names| > 1 {
      var rest := Join(names[1..], d);
      JoinCount(names[1..], d);
      assert Join(names, d) == names[0] + ([d] + rest) && ([d] + rest)[1..] == rest;
      CountAppend(names[0], [d] + rest, d);
      assert forall k :: 1 <= k < |names| ==> names[k] == names[1..][k - 1];
    }
  }

  // Nonempty names without newlines are listed as they are exactly if none has a semicolon.
  lemma JoinedNames(names: seq<string>)
    requires forall k :: 0 <= k < |names| ==> names[k] != "" && '\n' !in names[k]
    requires |Join(names, ';')| < MAX_MSG_LEN && NUL !in Join(names, ';')
    ensures Listing(Join(names, ';')) == (|names|, names) <==> forall k :: 0 <= k < |names| ==> ';' !in names[k]
  {
    var joined: CString := Join(names, ';');
    hide Tokens, Split, Rows, Count, IndexOf, Join;
    JoinEmpty(names, ';');
    if names != [] { JoinCount(names, ';'); }
    if forall k :: 0 <= k < |names| ==> ';' !in names[k] {
      TokensJoin(names, ';');
      RowsOfNames(names);
    }
  }

  const MAX_LIST: nat := 1014

  lemma ListShown(joined: CString)
    requires '\n' !in joined && |joined| <= MAX_LIST
    ensures Display(ListOkLine(joined)) == Users(joined)
  {
    hide Display, IndexOf;
    Arrives("LIST_OK", joined, None, None);
    assert joined + "" + "" == joined;
    CutText(joined, MAX_MSG_LEN - 1);
  }

  // A list that fits arrives as it was sent, and shows its names exactly if none has a semicolon.
  lemma NamesListed(names: seq<string>, joined: CString)
    requires joined == Join(names, ';') && |joined| <= MAX_LIST
    requires forall k :: 0 <= k < |names| ==> names[k] != "" && '\n' !in names[k]
    ensures '\n' !in joined && Display(ListOkLine(joined)) == Users(joined)
    ensures Listing(joined) == (|names|, names) <==> forall k :: 0 <= k < |names| ==> ';' !in names[k]
  {
    hide Display, Listing, Join;
    JoinedNames(names);
    JoinHasNone(names, '\n');
    ListShown(joined);
  }

  /** Building, sending, parsing and printing the list of a table's users shows exactly the
      registered names in slot order, under a heading with their number, if and only if no
      name has a semicolon; valid names have none. */
  lemma ListRoundTrip(table: Sessions.Table, out: CString)
    requires out == Prefix(Join(Sessions.Names(table), ';'), MAX_MSG_LEN - 1)   // SessionTable.ListUsernames
    requires forall k :: 0 <= k < |Sessions.Names(table)| ==> '\n' !in Sessions.Names(table)[k]
    requires |Join(Sessions.Names(table), ';')| <= MAX_LIST
    ensures Display(ListOkLine(out)) == Users(out)
    ensures Listing(out) == (|Sessions.Names(table)|, Sessions.Names(table)) <==>
            forall k :: 0 <= k < |Sessions.Names(table)| ==> ';' !in Sessions.Names(table)[k]
    ensures (forall k :: 0 <= k < |Sessions.Names(table)| ==> Validation.ValidName(Sessions.Names(table)[k])) ==>
              Listing(out) == (|Sessions.Names(table)|, Sessions.Names(table))
  {
    NamesListed(Sessions.Names(table), out);
  }
}
