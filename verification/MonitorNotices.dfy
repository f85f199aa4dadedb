// What the clients see of the monitor's notices (src/server/inactivity.c).
module MonitorNotices {
  import opened CStrings
  import opened ProtocolLine
  import opened Sessions
  import opened Dispatch

  // The name a notice is about.
  function Subject(s: Session): CString {
    if s.username == "" then "UNREGISTERED" else s.username
  }

  lemma NoticeLine(name: CString)
    ensures NoticeAbout(name) == StatusChangedLine(name, "INACTIVO")
  {
    Regroup("STATUS_CHANGED", "|", name, "|INACTIVO\n");
    assert "STATUS_CHANGED|" == "STATUS_CHANGED" + "|";
    assert "|INACTIVO\n" == "|INACTIVO" + "\n" && "|" + "INACTIVO" == "|INACTIVO";
    assert NoticeAbout(name) == "STATUS_CHANGED" + ("|" + name) + ("|" + "INACTIVO") + "" + "\n";
  }

  // A name that a notice can carry.
  predicate IsSubject(name: CString) {
    IsToken(name) && |name| <= MAX_CHAT_LEN
  }

  /** A notice says that the session's user has become INACTIVO, and no other status. */
  lemma NoticeShown(name: CString)
    requires IsSubject(name)
    ensures Display(NoticeAbout(name)) == StatusChanged(Prefix(name, MAX_USERNAME_LEN - 1), "INACTIVO")
  {
    hide Display, Tokens;
    NoticeLine(name);
    IndexIs("INACTIVO", '|', 8);
    StatusChangedRoundTrip(name, "INACTIVO");
  }

  /** Everything a scan queues is for the descriptor of a session it marks, and shows that
      session's user, or UNREGISTERED, as INACTIVO; and every session it marks is among it. */
  lemma QueueShown(table: Table, now: int, timeout: int)
    requires forall i :: 0 <= i < |table| && table[i].active ==> table[i].username == "" || IsSubject(table[i].username)
    ensures forall q :: q in Queue(table, now, timeout) ==>
              exists i :: 0 <= i < |table| && table[i].active && table[i].status != Inactivo
                          && now - table[i].lastActivity >= timeout && q.0 == table[i].sockfd
                          && Display(q.1) == StatusChanged(Prefix(Subject(table[i]), MAX_USERNAME_LEN - 1), "INACTIVO")
    ensures forall i :: 0 <= i < |table| && table[i].active && table[i].status != Inactivo
                        && now - table[i].lastActivity >= timeout ==>
              exists q :: q in Queue(table, now, timeout) && q.0 == table[i].sockfd
                          && Display(q.1) == StatusChanged(Prefix(Subject(table[i]), MAX_USERNAME_LEN - 1), "INACTIVO")
  {
    hide Display, Queue, NoticeAbout;
    forall i | 0 <= i < |table| && Overdue(table[i], now, timeout)
      ensures Display(Notice(table[i])) == StatusChanged(Prefix(Subject(table[i]), MAX_USERNAME_LEN - 1), "INACTIVO")
      ensures (table[i].sockfd, Notice(table[i])) in Queue(table, now, timeout)
    {
      UnregisteredIsSubject();
      NoticeShown(Subject(table[i]));
      QueueExact(table, now, timeout, (table[i].sockfd, Notice(table[i])));
    }
    forall q | q in Queue(table, now, timeout)
      ensures exists i :: 0 <= i < |table| && Overdue(table[i], now, timeout) && q == (table[i].sockfd, Notice(table[i]))
    {
      QueueExact(table, now, timeout, q);
    }
  }

  lemma UnregisteredIsSubject()
    ensures IsSubject("UNREGISTERED")
  {
  }
}
