// The client's half of a registration: the fields of REGISTER_OK
// (src/client/main_client.c, client_register).
module Registration {
  import opened CStrings
  import opened CBuffers
  import opened ProtocolLine
  import opened Replies
  import opened Dispatch

  // What a field of ClientState holds afterwards: token k cut to fit, or what it held before.
  function Kept(tokens: seq<string>, k: nat, n: nat, before: string): string {
    if k < |tokens| then Prefix(tokens[k], n) else before
  }

  // The status is the third token up to a newline.
  function KeptStatus(tokens: seq<string>, before: string): string {
    if |tokens| > 2 then Prefix(UpToNewline(tokens[2]), 15) else before
  }

  // Fills all but the last byte of a field, which is NUL already.
  method CopyIntoField(field: array<char>, text: CString)
    requires field.Length > 0 && field[field.Length - 1] == NUL
    modifies field
    ensures CStr(field[..]) == Prefix(text, field.Length - 1)
  {
    Strncpy(field, 0, text, field.Length - 1);
    CStrIs(field[..], Prefix(text, field.Length - 1));
  }

  // Stores the next token, if there is one.
  method CopyToken(tk: StrTok, field: array<char>)
    requires tk.Valid() && tk.buf != field && field.Length > 0 && field[field.Length - 1] == NUL
    modifies tk, tk.buf, field
    ensures tk.Valid() && tk.buf == old(tk.buf)
    ensures var tokens := Tokens(old(tk.Rest()), '|');
            && CStr(field[..]) == Kept(tokens, 0, field.Length - 1, old(CStr(field[..])))
            && Tokens(tk.Rest(), '|') == if tokens == [] then [] else tokens[1..]
  {
    hide Tokens, IndexOf;
    var tok := tk.Next('|');
    if tok != -1 {
      CopyIntoField(field, CStr(tk.buf[tok..]));
    }
  }

  // The fields of ClientState, as strings: username, my_ip, my_status.
  datatype Identity = Identity(username: string, ip: string, status: string)

  function Registered(before: Identity, rest: Option<CString>): Identity {
    var tokens := FieldTokens(rest);
    Identity(Kept(tokens, 0, MAX_USERNAME_LEN - 1, before.username), Kept(tokens, 1, 63, before.ip),
             KeptStatus(tokens, before.status))
  }

  // The branch for REGISTER_OK; -1 stands for a line without fields
  method ParseRegisterOk(buf: array<char>, rest: int, username: array<char>, myIp: array<char>, myStatus: array<char>)
    requires -1 <= rest < buf.Length && (rest >= 0 ==> NUL in buf[rest..])
    requires username.Length == MAX_USERNAME_LEN && myIp.Length == 64 && myStatus.Length == 16
    requires buf != username && buf != myIp && buf != myStatus
    requires username != myIp && username != myStatus && myIp != myStatus
    requires username[MAX_USERNAME_LEN - 1] == NUL && myIp[63] == NUL && myStatus[15] == NUL
    modifies buf, username, myIp, myStatus
    ensures Identity(CStr(username[..]), CStr(myIp[..]), CStr(myStatus[..])) ==
            Registered(Identity(old(CStr(username[..])), old(CStr(myIp[..])), old(CStr(myStatus[..]))),
                       if rest == -1 then None else Some(old(CStr(buf[rest..]))))
  {
    hide Tokens, IndexOf, CStr, Prefix;
    if rest == -1 { return; }
    var tk := new StrTok();
    tk.Begin(buf, rest);
    CopyToken(tk, username);
    CopyToken(tk, myIp);
    var tok := tk.Next('|');
    if tok != -1 {
      CopyIntoField(myStatus, UpToNewline(CStr(buf[tok..])));
    }
  }

  /** The client stores name, address and status, each cut to its field: of a name of 32
      characters, which both checks accept, the first 31. */
  lemma RegisterOkRoundTrip(user: CString, ip: CString, before: Identity)
    requires IsToken(user) && IsToken(ip)
    ensures var (kind, rest) := ParseType(RegisterOkLine(user, ip));
            && kind == "REGISTER_OK"
            && Registered(before, rest) == Identity(Prefix(user, MAX_USERNAME_LEN - 1), Prefix(ip, 63), "ACTIVO")
            && (Registered(before, rest).username == user <==> |user| < MAX_USERNAME_LEN)
  {
    hide Tokens, ParseType;
    ParseTypeOfLine("REGISTER_OK", user, Some(ip), Some("ACTIVO"));
    TokensOfThree(user, ip, "ACTIVO");
    IndexIs("ACTIVO", '\n', 6);
  }

  /** Fields that are missing leave what the client had before. */
  lemma MissingFieldsKept(user: CString, ip: CString, before: Identity)
    requires IsToken(user) && IsToken(ip)
    ensures Registered(before, None) == before
    ensures Registered(before, Some(user)) == before.(username := Prefix(user, MAX_USERNAME_LEN - 1))
    ensures Registered(before, Some(user + Field(Some(ip)) + Field(None))) ==
            before.(username := Prefix(user, MAX_USERNAME_LEN - 1), ip := Prefix(ip, 63))
  {
    hide Tokens;
    TokensOfOne(user);
    TokensOfTwo(user, ip);
  }
}
