// The table of client sessions: the records of include/session.h and, as
// functions on the table's contents, what each critical section of
// src/server/session_manager.c computes.
module Sessions {
  import opened CStrings
  import opened Search

  datatype Status = Activo | Ocupado | Inactivo

  datatype Address = Address(ip: nat, port: nat)

  datatype Session = Session(
    sockfd: int,
    addr: Address,
    threadId: nat,        // 0 when no thread id has been stored
    username: CString,
    status: Status,
    lastActivity: int,
    registered: bool,
    active: bool)

  type Table = seq<Session>

  const NO_ADDRESS := Address(0, 0)

  // A slot after sessions_init, and a slot after its session has been removed.
  const CLEARED := Session(-1, NO_ADDRESS, 0, "", Activo, 0, false, false)
  const VACATED := CLEARED.(status := Inactivo)

  // The record the accept loop fills before it asks for a slot.
  function NewSession(fd: int, addr: Address, now: int): Session {
    Session(fd, addr, 0, "", Activo, now, false, true)
  }

  /* ----- searching ----- */

  function IsFree(): Session -> bool {
    (s: Session) => !s.active
  }

  function Holds(fd: int): Session -> bool {
    (s: Session) => s.active && s.sockfd == fd
  }

  function IsNamed(name: CString): Session -> bool {
    (s: Session) => s.active && s.registered && s.username == name
  }

  /* ----- critical sections ----- */

  function Add(table: Table, record: Session): Table {
    var i := FirstIndex(table, IsFree());
    if i < |table| then table[i := record.(active := true)] else table
  }

  function Remove(table: Table, fd: int): Table {
    var i := FirstIndex(table, Holds(fd));
    if i < |table| then table[i := VACATED] else table
  }

  /** What the second critical section of update_session_activity does to a slot. */
  function Refreshed(s: Session, now: int): Session {
    if !s.active then s
    else s.(lastActivity := now, status := if s.status == Inactivo then Activo else s.status)
  }

  /** One indivisible activity update of the session that holds `fd`. */
  function Touch(table: Table, fd: int, now: int): Table {
    var i := FirstIndex(table, Holds(fd));
    if i < |table| then table[i := Refreshed(table[i], now)] else table
  }

  /** A record that is added, whatever its own flag says, is the active session that a lookup
      of its descriptor finds, and removing that descriptor empties its slot again; a full
      table takes no record, and a removal that finds nothing changes nothing. */
  lemma AddFindRemove(table: Table, record: Session, fd: int)
    ensures FirstIndex(table, IsFree()) == |table| ==> Add(table, record) == table
    ensures FirstIndex(table, Holds(fd)) == |table| ==> Remove(table, fd) == table
    ensures var i := FirstIndex(table, IsFree());
            var added := Add(table, record);
            i < |table| && FirstIndex(table, Holds(record.sockfd)) == |table| ==>
              && added == table[i := record.(active := true)]
              && FirstIndex(added, Holds(record.sockfd)) == i
              && Remove(added, record.sockfd) == table[i := Session(-1, Address(0, 0), 0, "", Inactivo, 0, false, false)]
  {
    var i := FirstIndex(table, IsFree());
    var added := Add(table, record);
    if i < |table| && FirstIndex(table, Holds(record.sockfd)) == |table| {
      assert Holds(record.sockfd)(added[i]);
      forall k | 0 <= k < |table| && k != i ensures !Holds(record.sockfd)(added[k]) {
        assert added[k] == table[k] && !Holds(record.sockfd)(table[k]);
      }
    }
  }

  /** The condition under which a scan at `now` marks the session. */
  predicate Overdue(s: Session, now: int, timeout: int) {
    s.active && s.status != Inactivo && now - s.lastActivity >= timeout
  }

  function Marked(s: Session, now: int, timeout: int): Session {
    if Overdue(s, now, timeout) then s.(status := Inactivo) else s
  }

  function MarkAll(table: Table, now: int, timeout: int): Table {
    seq(|table|, i requires 0 <= i < |table| => Marked(table[i], now, timeout))
  }

  /** The line queued about a session that a scan marks. */
  function Notice(s: Session): CString {
    NoticeAbout(if s.username != "" then s.username else "UNREGISTERED")
  }

  function NoticeAbout(name: CString): CString {
    "STATUS_CHANGED|" + name + "|INACTIVO\n"
  }

  /** What a scan queues: the descriptor and the notice of every session it marks, in slot order. */
  function Queue(table: Table, now: int, timeout: int): (queue: seq<(int, CString)>)
    ensures |queue| <= |table|
  {
    if table == [] then []
    else
      var n := |table| - 1;
      Queue(table[..n], now, timeout) +
      if Overdue(table[n], now, timeout) then [(table[n].sockfd, Notice(table[n]))] else []
  }

  /** A session is queued exactly if the scan marks it, with its descriptor and its name. */
  lemma {:induction false} QueueExact(table: Table, now: int, timeout: int, q: (int, CString))
    ensures q in Queue(table, now, timeout) <==>
            exists i :: 0 <= i < |table| && Overdue(table[i], now, timeout) && q == (table[i].sockfd, Notice(table[i]))
  {
    if table == [] {
    } else {
      QueueExact(table[..|table| - 1], now, timeout, q);
    }
  }

  lemma QueueNext(table: Table, n: nat, now: int, timeout: int)
    requires n < |table|
    ensures Queue(table[..n + 1], now, timeout) ==
            Queue(table[..n], now, timeout) + if Overdue(table[n], now, timeout) then [(table[n].sockfd, Notice(table[n]))] else []
  {
    assert table[..n + 1][..n] == table[..n];
  }

  // The session's place in the queue, and the slots behind it.
  lemma {:induction false} QueueInOrder(table: Table, i: nat, now: int, timeout: int)
    requires i < |table|
    ensures var before := |Queue(table[..i], now, timeout)|;
            && before <= |Queue(table[..i + 1], now, timeout)| <= |Queue(table, now, timeout)|
            && |Queue(table[..i + 1], now, timeout)| == before + (if Overdue(table[i], now, timeout) then 1 else 0)
            && (Overdue(table[i], now, timeout) ==>
                 Queue(table, now, timeout)[before] == (table[i].sockfd, Notice(table[i])))
    decreases |table|
  {
    var n := |table| - 1;
    if i == n {
      assert table[..i + 1] == table;
    } else {
      assert table[..n][..i] == table[..i] && table[..n][..i + 1] == table[..i + 1];
      QueueInOrder(table[..n], i, now, timeout);
    }
  }

  /* ----- listing ----- */

  predicate Listed(s: Session) {
    s.active && s.registered && s.username != ""
  }

  /** The names of the registered sessions, in slot order. */
  function Names(table: Table): (names: seq<string>)
    ensures forall k :: 0 <= k < |names| ==> names[k] != ""
  {
    if table == [] then []
    else
      var n := |table| - 1;
      Names(table[..n]) + if Listed(table[n]) then [table[n].username] else []
  }

  /** The listing has one place for every slot with an active, registered session that has a
      name, in slot order, and no other places. */
  lemma {:induction false} NamesInOrder(table: Table, i: nat)
    requires i < |table|
    ensures var named := table[i].active && table[i].registered && table[i].username != "";
            var before := |Names(table[..i])|;
            && |Names(table[..i + 1])| == before + (if named then 1 else 0) <= |Names(table)|
            && (named ==> Names(table)[before] == table[i].username)
    decreases |table|
  {
    var n := |table| - 1;
    if i == n {
      assert table[..i + 1] == table;
    } else {
      assert table[..n][..i] == table[..i] && table[..n][..i + 1] == table[..i + 1];
      NamesInOrder(table[..n], i);
    }
  }

  lemma {:induction false} NamesExact(table: Table, name: string)
    ensures name in Names(table) <==>
            exists i :: 0 <= i < |table| && table[i].active && table[i].registered && table[i].username == name != ""
  {
    if table == [] {
    } else {
      var n := |table| - 1;
      NamesExact(table[..n], name);
      assert forall i :: 0 <= i < n ==> table[..n][i] == table[i];
    }
  }

  /** The lookup by name finds exactly the names that are listed. */
  lemma LookupFindsListed(table: Table, name: CString)
    requires name != ""
    ensures FirstIndex(table, IsNamed(name)) < |table| <==> name in Names(table)
    ensures var i := FirstIndex(table, IsNamed(name));
            i < |table| ==> table[i].active && table[i].registered && table[i].username == name
  {
    NamesExact(table, name);
  }

  lemma {:induction false} NamesAppend(a: Table, b: Table)
    ensures Names(a + b) == Names(a) + Names(b)
  {
    if b == [] {
      assert a + b == a;
    } else {
      var n := |b| - 1;
      NamesAppend(a, b[..n]);
      assert (a + b)[..|a| + n] == a + b[..n];
      assert Names(a + b) == Names(a + b[..n]) + if Listed(b[n]) then [b[n].username] else [];
    }
  }

  lemma NoNames()
    ensures Names([]) == [] && Join([], ';') == ""
  {
  }

  lemma NamesNext(table: Table, n: nat)
    requires n < |table|
    ensures Names(table[..n + 1]) == Names(table[..n]) + if Listed(table[n]) then [table[n].username] else []
  {
    assert table[..n + 1][..n] == table[..n];
  }

  /** The listing of the first slots is a prefix of the whole listing. */
  lemma NamesGrow(table: Table, n: nat)
    requires n < |table|
    ensures Join(Names(table[..n + 1]), ';') <= Join(Names(table), ';')
  {
    assert table == table[..n + 1] + table[n + 1..];
    NamesAppend(table[..n + 1], table[n + 1..]);
    JoinPrefix(Names(table[..n + 1]), Names(table[n + 1..]), ';');
  }

  lemma {:induction false} JoinIsCString(table: Table)
    ensures NUL !in Join(Names(table), ';')
  {
    if table == [] {
    } else {
      var n := |table| - 1;
      JoinIsCString(table[..n]);
      JoinNext(Names(table[..n]), table[n].username, ';');
      assert Names(table[..n]) + [] == Names(table[..n]);
    }
  }
}
