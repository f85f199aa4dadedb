// src/server/session_manager.c and the scan of src/server/inactivity.c: the
// array g_sessions and the operations that update it in place. Every operation
// is one critical section; a pointer into the array is the index of its slot.
module SessionTable {
  import opened CStrings
  import opened CBuffers
  import opened Search
  import opened Sessions

  class SessionTable {
    const slots: array<Session>

    ghost function Table(): Table
      reads slots
    {
      slots[..]
    }

    constructor (capacity: nat)
      ensures fresh(slots) && Table() == seq(capacity, _ => CLEARED)
    {
      slots := new Session[capacity](_ => CLEARED);
    }

    // sessions_init
    method Init()
      modifies slots
      ensures forall k :: 0 <= k < slots.Length ==> slots[k] == Session(-1, Address(0, 0), 0, "", Activo, 0, false, false)
    {
      var index := 0;
      while index < slots.Length
        invariant 0 <= index <= slots.Length
        invariant forall k :: 0 <= k < index ==> slots[k] == CLEARED
      {
        slots[index] := CLEARED;
        index := index + 1;
      }
    }

    // sessions_add
    method Add(session: Session) returns (result: int)
      modifies slots
      ensures Table() == Sessions.Add(old(Table()), session)
      ensures result == if FirstIndex(old(Table()), IsFree()) < slots.Length then 0 else -1
    {
      result := -1;
      var index := 0;
      while index < slots.Length
        invariant 0 <= index <= slots.Length
        invariant Table() == old(Table())
        invariant forall k :: 0 <= k < index ==> slots[k].active
      {
        if !slots[index].active {
          slots[index] := session;
          slots[index] := slots[index].(active := true);
          result := 0;
          break;
        }
        index := index + 1;
      }
    }

    // sessions_remove_by_sockfd, up to the unlock; `toClose` is what it then shuts down and closes
    method RemoveBySockfd(sockfd: int) returns (toClose: int)
      modifies slots
      ensures Table() == Remove(old(Table()), sockfd)
      ensures toClose == if FirstIndex(old(Table()), Holds(sockfd)) < slots.Length then sockfd else -1
    {
      var index := 0;
      while index < slots.Length
        invariant 0 <= index <= slots.Length
        invariant Table() == old(Table())
        invariant forall k :: 0 <= k < index ==> !(slots[k].active && slots[k].sockfd == sockfd)
      {
        if slots[index].active && slots[index].sockfd == sockfd {
          var oldSockfd := slots[index].sockfd;
          slots[index] := slots[index].(active := false);
          slots[index] := slots[index].(registered := false);
          slots[index] := slots[index].(threadId := 0);
          slots[index] := slots[index].(status := Inactivo);
          slots[index] := slots[index].(sockfd := -1);
          slots[index] := slots[index].(username := "");
          slots[index] := slots[index].(addr := NO_ADDRESS);
          slots[index] := slots[index].(lastActivity := 0);
          return oldSockfd;
        }
        index := index + 1;
      }
      return -1;
    }

    // sessions_find_by_sockfd; |slots| stands for NULL
    method FindBySockfd(sockfd: int) returns (found: nat)
      ensures found == FirstIndex(Table(), Holds(sockfd))
    {
      found := slots.Length;
      var index := 0;
      while index < slots.Length
        invariant 0 <= index <= slots.Length && found == slots.Length
        invariant forall k :: 0 <= k < index ==> !(slots[k].active && slots[k].sockfd == sockfd)
      {
        if slots[index].active && slots[index].sockfd == sockfd {
          found := index;
          break;
        }
        index := index + 1;
      }
    }

    // sessions_find_by_username
    method FindByUsername(username: CString) returns (found: nat)
      ensures found == if username == "" then slots.Length else FirstIndex(Table(), IsNamed(username))
    {
      found := slots.Length;
      if username == "" { return; }
      var index := 0;
      while index < slots.Length
        invariant 0 <= index <= slots.Length && found == slots.Length
        invariant forall k :: 0 <= k < index ==> !IsNamed(username)(slots[k])
      {
        if slots[index].active && slots[index].registered && slots[index].username == username {
          found := index;
          break;
        }
        index := index + 1;
      }
    }

    // Formats one more name behind the list, after a semicolon unless it is the first.
    method AppendName(out: array<char>, used: nat, first: bool, name: CString, ghost names: seq<string>)
      returns (written: nat)
      requires used < out.Length && out[..used] == Join(names, ';') && NUL !in Join(names, ';')
      requires first <==> names == []
      modifies out
      ensures var listed := Join(names + [name], ';');
              && |listed| == used + written
              && (written < out.Length - used ==> out[..used + written] == listed && out[used + written] == NUL)
              && (written >= out.Length - used ==> CStr(out[..]) == Prefix(listed, out.Length - 1))
    {
      hide Join, CStr, IndexOf;
      JoinNext(names, name, ';');
      var text: CString := if first then name else ";" + name;
      assert Join(names + [name], ';') == out[..used] + text;
      written := AppendText(out, used, text);
    }

    // sessions_list_usernames
    method ListUsernames(out: array<char>)
      modifies out
      ensures out.Length > 0 ==> CStr(out[..]) == Prefix(Join(Names(Table()), ';'), out.Length - 1)
    {
      if out.Length == 0 { return; }
      hide Join, Names, CStr, IndexOf;
      out[0] := NUL;
      var used, first := 0, true;
      var index := 0;
      ghost var table := Table();
      ghost var names: seq<string> := [];
      NoNames();
      assert table[..0] == [] && out[..0] == "";
      while index < slots.Length
        invariant 0 <= index <= slots.Length && 0 <= used < out.Length && Table() == table
        invariant names == Names(table[..index]) && (first <==> names == [])
        invariant out[..used] == Join(names, ';') && out[used] == NUL
      {
        NamesNext(table, index);
        assert table[index] == slots[index];
        if slots[index].active && slots[index].registered && slots[index].username != "" {
          JoinIsCString(table[..index]);
          ghost var listed := Join(names + [slots[index].username], ';');
          var written := AppendName(out, used, first, slots[index].username, names);
          names := names + [slots[index].username];
          if written >= out.Length - used {
            NamesGrow(table, index);
            assert Prefix(listed, out.Length - 1) == Prefix(Join(Names(table), ';'), out.Length - 1);
            return;
          }
          used := used + written;
          first := false;
        } else {
          assert Names(table[..index]) + [] == Names(table[..index]);
        }
        index := index + 1;
      }
      assert table[..slots.Length] == table;
      JoinIsCString(table);
      CStrIs(out[..], Join(names, ';'));
    }

    // The locked part of update_session_activity (src/server/client_thread.c)
    method UpdateActivity(found: nat, now: int)
      requires found < slots.Length
      modifies slots
      ensures Table() == old(Table())[found := Refreshed(old(slots[found]), now)]
      ensures !old(slots[found]).active ==> slots[found] == old(slots[found])
      ensures old(slots[found]).active ==>
                && slots[found].lastActivity == now && slots[found].status != Inactivo
                && (old(slots[found]).status != Inactivo ==> slots[found].status == old(slots[found]).status)
    {
      if slots[found].active {
        slots[found] := slots[found].(lastActivity := now);
        if slots[found].status == Inactivo {
          slots[found] := slots[found].(status := Activo);
        }
      }
    }

    // session_mark_inactive_if_needed
    method MarkInactiveIfNeeded(index: nat, now: int, timeout: int) returns (marked: bool)
      requires index < slots.Length
      modifies slots
      ensures slots[index] == Marked(old(slots[index]), now, timeout)
      ensures forall k :: 0 <= k < slots.Length && k != index ==> slots[k] == old(slots[k])
      ensures marked == Overdue(old(slots[index]), now, timeout)
    {
      if !slots[index].active { return false; }
      if slots[index].status == Inactivo { return false; }
      var elapsed := now - slots[index].lastActivity;
      if elapsed < timeout { return false; }
      slots[index] := slots[index].(status := Inactivo);
      return true;
    }

    // The body of the monitor's scan loop: mark one session, queue its notice
    method ScanSlot(index: nat, now: int, timeout: int, sockets: array<int>, notifications: array<CString>, count: nat)
      returns (count': nat)
      requires index < slots.Length && count < sockets.Length == notifications.Length
      modifies slots, sockets, notifications
      ensures slots[index] == Marked(old(slots[index]), now, timeout)
      ensures forall k :: 0 <= k < slots.Length && k != index ==> slots[k] == old(slots[k])
      ensures forall k :: 0 <= k < count ==> sockets[k] == old(sockets[k]) && notifications[k] == old(notifications[k])
      ensures count' == if Overdue(old(slots[index]), now, timeout) then count + 1 else count
      ensures count' > count ==>
                sockets[count] == old(slots[index]).sockfd && notifications[count] == Notice(old(slots[index]))
    {
      count' := count;
      if slots[index].active {
        var marked := MarkInactiveIfNeeded(index, now, timeout);
        if marked {
          var name := if slots[index].username != "" then slots[index].username else "UNREGISTERED";
          sockets[count'] := slots[index].sockfd;
          notifications[count'] := NoticeAbout(name);
          count' := count' + 1;
        }
      }
    }

    // The locked scan of inactivity_monitor_main
    method Scan(now: int, timeout: int, sockets: array<int>, notifications: array<CString>) returns (count: nat)
      requires sockets.Length == notifications.Length == slots.Length
      modifies slots, sockets, notifications
      ensures Table() == MarkAll(old(Table()), now, timeout)
      ensures Queued(sockets, notifications, count, Queue(old(Table()), now, timeout))
    {
      count := 0;
      var index := 0;
      ghost var before := Table();
      while index < slots.Length
        invariant 0 <= index <= slots.Length
        invariant forall k :: 0 <= k < slots.Length ==>
          slots[k] == if k < index then Marked(before[k], now, timeout) else before[k]
        invariant Queued(sockets, notifications, count, Queue(before[..index], now, timeout))
      {
        hide Queue, NoticeAbout;
        QueueNext(before, index, now, timeout);
        count := ScanSlot(index, now, timeout, sockets, notifications, count);
        index := index + 1;
      }
      assert before[..slots.Length] == before;
    }
  }

  ghost predicate Queued(sockets: array<int>, notifications: array<CString>, count: nat, queue: seq<(int, CString)>)
    reads sockets, notifications
  {
    && count == |queue| <= sockets.Length == notifications.Length
    && forall k :: 0 <= k < count ==> sockets[k] == queue[k].0 && notifications[k] == queue[k].1
  }
}
