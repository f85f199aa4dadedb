# Verification of the chat system

A Dafny model of a small multithreaded chat system and of its line protocol,
with proofs for every run, every table size and every input. `dafny verify
dfyconfig.toml` checks all of it.

There are two halves.

**The servers as concurrent protocols.** `ServerProtocol` is the real server as
a transition system: one acceptor, one thread per client and the inactivity
monitor share the session table. A step is one critical section, one system
call, or one read outside the lock, and a run interleaves steps in any order.
The kernel is a map of open descriptors; `accept` returns any descriptor outside
it. What each critical section does to the table is a function in `Sessions`,
and `SessionTable` has the same operations as methods of a class over an array,
with the loops of the code, proved against these functions. `ServerSafety`,
`SessionHistory` and `Inactivity` state what holds after every run, `ServerRuns`
what each path through the acceptor and a client thread leaves behind.
`StubTable`, `StubServer`, `StubSafety`, `StubAddresses` and `StubRuns` do the
same for the stub server.

**The wire protocol from end to end.** A typed line becomes a command and a
frame (`ClientInput`, `Typing`, `ProtocolLine`), travels over a byte stream with partial
sends, interrupted calls and failures (`Framing`), is parsed by the real server
(`MessageParser`, `Escaping`, `Validation`) or routed by the stub (`StubTable`),
and its effect is shown by the recipient (`Replies`, `Dispatch`, `Registration`,
`UserList`). `ClientToServer`, `EscapeNeeded`, `EndToEnd` and `StubReplies` (through
the stub), `RealServer` and `MonitorNotices` put these together.

The code that works in place on buffers is in methods over `array<char>` with
loops; each is proved equal to a function on strings, and the properties are
lemmas about these functions. `CStrings` and `CBuffers` hold the C library calls
(`snprintf`, `strncpy`, `strchr`, `strcspn`, C11 sections 7.21.6.5 and 7.24) and
`Replies.StrTok` the hidden state of `strtok` (7.24.5.8).

Reading conventions: one `char` is one C byte; a C string is a string without
NUL; a pointer into an array is an index, and NULL is -1, `None` or the length of
the array; integers are unbounded; the table sizes (`MAX_CLIENTS`,
`MAX_STUB_CLIENTS`) are parameters.

## What the code does not do

Some natural expectations are false of the code. Each is proved false or given
its exact condition:

- Two inactivity notices about one session need not have a line received between
  them: the line may arrive before the first scan and the activity update it
  causes come after it. `Inactivity.TwoNoticesNoLine` is such a run, on a clock
  that only goes forward; `Inactivity.LineBetweenNotices` says exactly when it
  cannot happen; an activity update always lies between
  (`Inactivity.UpdateBetweenNotices`).
- `parse_message` writes outside its three fields after a third unescaped `|`
  (src/common/protocol.c:31-40). `Parse` returns `Undefined` exactly for lines
  with at least three separators that count (`MessageParser.UndefinedExactly`).
  A typed `/msg bob a|b` is such a line (`RealServer.TypedOverrun`); without
  backslashes a private message is one exactly if a separator was typed in its
  destination or its text (`RealServer.MessageOverruns`).
- The client never escapes, the server always unescapes. The server gets what was
  typed if and only if the arguments contain neither `|` nor `\`
  (`EscapeNeeded.ServerUnderstandsExactly`).
- The text of `/all` arrives as the first argument, but `handle_broadcast`
  passes on the second (src/server/handlers.c:99). No typed text is ever shown to
  anybody; one without separators and backslashes becomes the empty text
  (`RealServer.BroadcastLosesText`, `RealServer.EmptyBroadcastShown`).
- A sender's name with a `|` in it, which the stub accepts, is not shown as it was
  registered; nor is a name of 32 characters, which both checks of a name allow:
  the client keeps and shows 31 (`Dispatch.DeliverRoundTrip`,
  `RealServer.MessageDelivered`, `Registration.RegisterOkRoundTrip`, each an
  equivalence).
- A destination with a `|` is not looked up: the stub takes what is before it for the
  destination and what is behind it for a part of the text
  (`EndToEnd.AddressedExactly`, `EndToEnd.PrivateMessageArrives`). If nothing is
  before it, the first slot without a name is taken and the delivery confirmed.
- A name with a `;`, which the stub accepts, spoils the list, and no other name does
  (`EndToEnd.ListArrives`).
- The stub never frees the slot of a client that did not register
  (tests/stub_server.c:365): `StubSafety.CleanUpLeaks`, `LeakedForever`. As many
  visits without a registration as there are slots, and every later connection is
  refused (`StubRuns.VisitsLeak`, `VisitsLockOut`).
- A second registration on one connection inflates `g_count`
  (`StubSafety.CountIsExact`); then the duplicate check can read past the table
  (`StubSafety.CheckReadsPast`; `StubRuns.FourNamesReadPast` is a run). With or
  without one it can miss a name in use (`StubSafety.CheckMisses`), so that two
  clients end up with one name (`StubRuns.NameRegisteredTwice` is a run). When its
  answer is right is `StubSafety.CheckIsRight`.

## Model

| member | source | states |
|---|---|---|
| `SessionTable.SessionTable.Init` | src/server/session_manager.c:36-45 | after the loop every slot is the cleared record |
| `SessionTable.SessionTable.Add` | src/server/session_manager.c:47-69 | the record, marked active, goes whole into the first inactive slot; -1 and no change exactly if there is none |
| `SessionTable.SessionTable.RemoveBySockfd` | src/server/session_manager.c:71-98 | the first active slot with the descriptor is vacated, nothing else changes; the descriptor is to be closed exactly if a slot was found |
| `Sessions.AddFindRemove` | src/server/session_manager.c:47-116 | a record that is added, whatever its own flag says, is the active session that a lookup of its descriptor finds, and removing the descriptor empties its slot; a full table takes no record, a removal that finds nothing changes nothing |
| `SessionTable.SessionTable.FindBySockfd` | src/server/session_manager.c:100-116 | the first active slot with the descriptor, or none |
| `SessionTable.SessionTable.FindByUsername` | src/server/session_manager.c:118-140 | the first active, registered slot with the name; none for the empty name |
| `SessionTable.SessionTable.ListUsernames` | src/server/session_manager.c:169-202 | the buffer holds exactly the first `out_size - 1` characters of the `;`-join of the registered names in slot order, also when the loop stops early |
| `SessionTable.SessionTable.UpdateActivity` | src/server/client_thread.c:17-24 | the locked part: an active slot gets the new time, whatever the old one was, and leaves INACTIVO; an inactive slot is untouched |
| `SessionTable.SessionTable.MarkInactiveIfNeeded` | src/server/session_manager.c:214-234 | marks the one slot exactly if it is active, not yet INACTIVO and at least `timeout` seconds idle, and says so |
| `SessionTable.SessionTable.ScanSlot` | src/server/inactivity.c:23-38 | one round of the scan: the slot is marked, its descriptor and notice are appended exactly if it was marked |
| `SessionTable.SessionTable.Scan` | src/server/inactivity.c:19-40 | the locked scan marks every overdue session and queues one notice for each, in slot order |
| `Sessions.QueueExact` | src/server/inactivity.c:22-39 | a notice is queued if and only if it is about a session the scan marks, with that session's descriptor and name |
| `Sessions.QueueInOrder` | src/server/inactivity.c:22-39 | every marked session has exactly one place in the queue, behind those of the earlier slots |
| `MonitorNotices.NoticeShown` | src/server/inactivity.c:28-37 | what a client shows for a notice: the first 31 characters of the name it is about, with INACTIVO and no other status |
| `MonitorNotices.QueueShown` | src/server/inactivity.c:22-39 | everything queued is for the descriptor of an overdue session and shows its name, or UNREGISTERED, as INACTIVO; every overdue session has such an entry |
| `Sessions.NamesGrow` | src/server/session_manager.c:184-200 | what has been listed so far is a prefix of the whole listing, so stopping early loses only the end |
| `Sessions.NamesInOrder` | src/server/session_manager.c:184-200 | the listing has one place for each active, registered slot with a name, behind those of the earlier slots, and no other places |
| `Sessions.NamesExact` | src/server/session_manager.c:184-200 | a name is listed if and only if an active, registered slot has it and it is not empty |
| `Sessions.LookupFindsListed` | src/server/session_manager.c:118-140 | the lookup by name finds something if and only if the name is listed, and then an active, registered slot with this name |
| `ServerProtocol.StepKeepsInv` | src/server/accept_loop.c:61-120 | every step of the acceptor, the threads and the monitor keeps the system invariant on slots, descriptors, threads and the acceptor's local variables |
| `ServerProtocol.ThreadStepKeepsInv` | src/server/client_thread.c:37-122 | the part of it about the client threads, including the split update and the removal |
| `ServerProtocol.RunKeepsInv` | src/server/accept_loop.c:59-123 | the invariant holds after every run, of any length and interleaving |
| `ServerProtocol.LookupFinds` | src/server/session_manager.c:100-116 | a lookup by descriptor returns the one slot that the connection occupies |
| `ServerProtocol.RetableKeepsInv` | src/server/client_thread.c:93 | handlers, activity updates and scans, which change only names, registrations, statuses and times, keep the invariant |
| `ServerSafety.ReachableSlotsOwned` | src/server/session_manager.c:71-98 | active slots have distinct open descriptors; every client thread that has not removed itself owns exactly one active slot, the one it was started with, and different threads different slots; every active slot is owned by such a thread or by the acceptor, so none leaks |
| `ServerSafety.ReachableFdsConserved` | src/server/accept_loop.c:71-115 | the open client descriptors are the disjoint union of those in active slots, the acceptor's in-flight one, and those of threads between unlock and close |
| `ServerSafety.ReachableClosedOnce` | src/server/session_manager.c:89-94 | no close of a descriptor that is not open; a connection has been closed exactly once when nobody works on it any more and not at all before |
| `ServerSafety.ReachableThreadIdsTrue` | src/server/accept_loop.c:117-119 | a nonzero thread id in an active slot is that of the live thread that owns the slot, however late it was written |
| `ServerSafety.LookupReturnsFilledSlot` | src/server/accept_loop.c:95-102 | after a successful insertion, whatever threads and monitor do before it, the lookup returns the slot just filled |
| `ServerSafety.LookupNeverFails` | src/server/accept_loop.c:103-106 | the branch for a failed lookup is unreachable |
| `ServerSafety.FindOwnFindsOwn` | src/server/client_thread.c:12-15 | the first section of the activity update finds the caller's own slot |
| `ServerSafety.UpdateIsTouch` | src/server/client_thread.c:17-24 | the second section is enabled and does to the table what one indivisible update of the caller's session does: its last activity is the time of this step and its status not INACTIVO |
| `ServerSafety.ActivityUpdateIsAtomic` | src/server/client_thread.c:10-25 | find, any steps of all others, then the locked update, act as one atomic update of the caller's own session |
| `ServerRuns.ConnectionServed` | src/server/accept_loop.c:71-119 | from any reachable state with a free slot: the whole state after a connection has been accepted, inserted, looked up and given its thread |
| `ServerRuns.ConnectionRefused` | src/server/accept_loop.c:95-100 | without a free slot the connection is closed and nothing else has changed |
| `ServerRuns.CreationUndone` | src/server/accept_loop.c:111-115 | if no thread can be created, the slot is emptied and the connection closed once, and nothing else has changed |
| `ServerRuns.Greeted` | src/server/client_thread.c:37-68 | the thread copies the descriptor of its own connection from its slot and goes on to receive |
| `ServerRuns.LineHandled` | src/server/client_thread.c:72-93 | after a received line the thread's own session has the time of the update, is not INACTIVO, and everything else is as before |
| `ServerRuns.ThreadEnds` | src/server/client_thread.c:95-122 | a thread that stops empties its own slot and closes its own connection once, and changes nothing else |
| `ServerRuns.GreetingFails` | src/server/client_thread.c:64-68 | so does a thread whose greeting cannot be sent |
| `SessionHistory.ActivityIsStored` | src/server/client_thread.c:17-24 | over every run an active slot stores the time of its last activity update or, if there was none since it was filled, of the acceptance of its connection, and the address it was accepted from; time and address are read off the steps |
| `Inactivity.InactiveExactly` | src/server/session_manager.c:214-234 | in runs without STATUS commands an active session is INACTIVO if and only if some scan since its last activity came at least `timeout` seconds after it; scans and last activity are read off the steps |
| `Inactivity.StatusStaysExact` | src/server/inactivity.c:21-40 | the same equivalence, kept by every step of every such run |
| `Inactivity.UpdateBetweenNotices` | src/server/client_thread.c:17-24 | between two notices about one session its activity has been updated |
| `Inactivity.LineBetweenNotices` | src/server/inactivity.c:21-40 | if the owner was not between a line and its activity update at the first notice, a line is received before every second one, on any clock; if it was, a run on a clock that never goes backwards has none |
| `Inactivity.TwoNoticesNoLine` | src/server/client_thread.c:72-75 | a concrete reachable run, whose clock never goes backwards, with two notices about one session and no line received between them |
| `Framing.SendLine` | src/common/utils.c:19-47 | 0 means the whole line is on the wire, -1 that a proper prefix is, under any partial sends and finitely many interrupts; the loop terminates |
| `Framing.NextLine` | src/common/utils.c:49-82 | the line a receiver gets next from a stream: never longer than the buffer allows, always a prefix of the stream |
| `Framing.RecvLine` | src/common/utils.c:49-82 | returns exactly the next line and leaves exactly the rest; end of stream, errors and a zero-sized buffer as in the code; the loop terminates |
| `Framing.ClientRecvLine` | src/client/receiver_loop.c:44-57 | the client's own version delivers the same next line |
| `Dispatch.LongLine` | src/client/receiver_loop.c:44-57 | a line without a newline within its first 1023 characters arrives as these |
| `Dispatch.ReceiverLoop` | src/client/receiver_loop.c:313-347 | what is shown is what the lines of the stream mean, up to the first BYE: all of it if the peer closed the connection or said BYE, a prefix after an error or when another thread cleared the running flag |
| `Dispatch.ByeEnds` | src/client/receiver_loop.c:313-347 | from frames that do not end the session, the server's BYE and anything behind it, the receiver shows the frames and the end of the session, and nothing after that |
| `Framing.FramesSurvive` | src/common/utils.c:49-82 | frames sent one after another, the last perhaps cut by a failed send, are read back as exactly the complete frames |
| `Framing.FramesFirst` | src/common/utils.c:49-82 | frames at the start of a stream are its first lines, whatever follows |
| `Framing.LinesCover` | src/common/utils.c:49-82 | no byte is lost or made up: the lines are the stream up to a rest that is neither a complete line nor enough to fill the buffer |
| `Framing.CutIsNoLine` | src/common/utils.c:33-42 | what a failed send leaves behind is never taken for a line |
| `Framing.SendUntilFailure` | src/server/client_thread.c:64-108 | a thread that sends frames until a send fails: the receiver reads exactly those sent in full |
| `ProtocolLine.ProtoBuild` | include/protocol.h:94-111 | the buffer holds the first `min(L, size - 1)` characters of the line with the absent fields skipped, and the result is below `size` exactly if nothing was cut |
| `ProtocolLine.ProtoParseType` | include/protocol.h:118-133 | splitting in place: type before the first separator, pointer to the rest or NULL, final newline removed |
| `ProtocolLine.ParseTypeOfLine` | include/protocol.h:118-133 | taking a built line apart returns its type and everything behind the first separator |
| `ProtocolLine.ParseTypeAlone` | include/protocol.h:123-128 | a built line without fields returns its type and no rest |
| `ProtocolLine.AbsentFields` | include/protocol.h:102-107 | an absent field leaves no trace between the others |
| `ProtocolLine.ParseTypeUnended` | include/protocol.h:121-123 | a line that was cut before its newline is taken apart like the one with its newline |
| `MessageParser.ParseMessage` | src/common/protocol.c:15-60 | for every line that `recv_line` can deliver the loop computes the recursive decoder; every index is in range and no byte is dropped; undefined exactly if three or more separators are neither escaped nor behind the first newline |
| `MessageParser.FieldsAreSeparated` | src/common/protocol.c:24-40 | a line has one field more than separators that count |
| `MessageParser.UndefinedExactly` | src/common/protocol.c:31-40 | the write outside the fields happens exactly for lines with a third separator that counts |
| `MessageParser.KindExactly` | src/common/protocol.c:47-54 | a type is that of its own word, and any other word is invalid |
| `MessageParser.SplitFields` | src/common/protocol.c:21-40 | the loop over the bytes: the three arrays hold the decoded fields, padded with empty ones |
| `MessageParser.ScanIsDecode` | src/common/protocol.c:24-39 | reading left to right with a current field is the recursive splitting at unescaped separators |
| `Escaping.DecodeJoin` | src/common/protocol.c:24-40 | escaping any list of texts, joining with separators and decoding returns the list |
| `Escaping.ParseInvertsEscaping` | src/common/protocol.c:24-57 | `parse_message` is a left inverse of escaping and joining for any type and arguments |
| `Escaping.DecodeCoded` | src/common/protocol.c:25-30 | a backslash before any character, needed or not, stands for that character |
| `Escaping.DecodeDangling` | src/common/protocol.c:25-30 | a lone backslash at the end of a line is dropped |
| `Validation.IsValidUsername` | src/common/validation.c:17-26 | accepts exactly the names of 1 to 32 letters, digits and underscores |
| `Validation.NameCharsAre` | src/common/validation.c:21-23 | the characters of a name are the 26 capitals, the 26 small letters, the 10 digits and the underscore |
| `Validation.ValidateUsername` | src/client/main_client.c:49-63 | the client's separately written check accepts exactly the same names |
| `Validation.RegisterTransparent` | src/common/validation.c:37-53 | a name that needs no escapes, sent as REGISTER, is parsed back unchanged, and accepted by `validate_message` if and only if the client's check accepts it; then the line fits |
| `Validation.ParsePlainTwo` | src/common/protocol.c:24-57 | a line with two fields that need no escaping is parsed into these fields |
| `ClientInput.ParseCommand` | src/client/input_loop.c:87-175 | the struct holds exactly what the typed line means: command word, arguments cut to their buffers, trimmed, upper-cased for /status |
| `ClientInput.ParseMsg` | src/client/input_loop.c:144-163 | /msg: the first token cut to 31 characters, then everything behind the blanks |
| `Typing.NoArgumentTyped` | src/client/input_loop.c:107-123 | /list, /help and /quit behind any blanks, with or without anything behind them, are understood as exactly this command without arguments |
| `Typing.InfoTyped` | src/client/input_loop.c:125-132 | /info and any text, for any blanks and line end: the first 31 characters without the line end; all of a text of at most 31 |
| `Typing.StatusTyped` | src/client/input_loop.c:134-142 | /status and any text of at most 31 characters is understood as this text in capitals, without the line end |
| `Typing.SpelledStatusTyped` | src/client/input_loop.c:134-142 | a status in any mixture of cases is understood as the status in capitals |
| `Typing.CapitalOf` | src/client/input_loop.c:40-45 | the 26 small letters become the capitals and nothing else changes |
| `Typing.MsgTyped` | src/client/input_loop.c:144-163 | /msg, any word and any text, for any blanks and line end: the first 31 and the first 899 characters; exactly what was typed if both are within that |
| `Typing.MsgWithoutText` | src/client/input_loop.c:157-158 | /msg and a word alone is not understood |
| `Typing.AllTyped` | src/client/input_loop.c:165-172 | /all and any text, for any blanks and line end: the first 899 characters; all of a text of at most 899 |
| `Typing.ArgumentMissing` | src/client/input_loop.c:127-167 | /info, /status, /msg and /all with nothing but blanks behind them are not understood |
| `Typing.OtherWordTyped` | src/client/input_loop.c:97-174 | any other word, of any length, is not understood |
| `Typing.NoCommandTyped` | src/client/input_loop.c:91-94 | a line whose first character behind the blanks is not a slash is not understood |
| `Typing.TrimExact` | src/client/input_loop.c:51-55 | a line end of any length is taken off, and nothing else |
| `ClientInput.CommandToProto` | src/client/input_loop.c:185-228 | succeeds exactly for the commands that have a frame, and leaves that frame in the buffer |
| `ClientInput.TrimNewline` | src/client/input_loop.c:51-55 | removes all line ends at the end of the string and changes nothing else |
| `ClientInput.StrToupperCopy` | src/client/input_loop.c:40-45 | copies at most `max_len - 1` characters, upper-cased, and terminates |
| `ClientInput.SkipSpaces` | src/client/input_loop.c:61-64 | the string behind the leading spaces and tabs |
| `ClientToServer.FramesFit` | src/client/input_loop.c:185-228 | every frame made from any line `fgets` can deliver has at most 936 bytes, is never cut, and has its only newline at the end |
| `ClientToServer.ServerUnderstands` | src/client/input_loop.c:87-228 | typing, building, parsing and validating commute: without separators and backslashes the server gets the typed command and arguments and accepts them |
| `ClientToServer.RefusedExactly` | src/client/input_loop.c:185-228 | the client builds a frame exactly for those commands of the protocol whose message the server's validation accepts, apart from an INFO and a BROADCAST without argument, which only the client refuses |
| `EscapeNeeded.ServerUnderstandsExactly` | src/common/protocol.c:24-40 | the server gets what was typed if and only if neither argument contains a separator or a backslash |
| `EscapeNeeded.DecodeLoses` | src/common/protocol.c:25-30 | decoding never adds characters, and an escape either shortens the fields or brings a newline in |
| `CStrings.TokensAreFields` | src/client/receiver_loop.c:72-79 | repeated `strtok` calls return the nonempty fields between the separators, in order |
| `CStrings.TokensJoin` | src/client/ui.c:235-242 | `strtok` recovers nonempty fields that were joined with its delimiter |
| `Replies.StrTok.Next` | src/client/receiver_loop.c:78 | one `strtok` call returns the next token of the buffer and leaves the later tokens for the next calls |
| `Replies.ParseTwoFields` | src/client/receiver_loop.c:68-83 | the first two tokens, each cut to its buffer and at a newline; 1 exactly if there are two |
| `Replies.ParseThreeFields` | src/client/receiver_loop.c:90-101 | the same for three tokens |
| `Replies.ParseMsgFields` | src/client/receiver_loop.c:112-135 | sender up to the first separator, text everything behind it, both cut to their buffers |
| `Dispatch.CutBeforeNewline` | src/client/receiver_loop.c:78-83 | a field with a newline is copied up to it, and at most as much as fits |
| `Dispatch.DispatchMessage` | src/client/receiver_loop.c:148-307 | what is shown for any line, for every type of message, every missing or overlong field and unknown lines; -1 exactly for BYE |
| `Dispatch.Build` | src/common/protocol.c:70-112 | every builder leaves its line, cut to the buffer, and returns the uncut length |
| `Dispatch.InfoOkRoundTrip` | src/common/protocol.c:83-86 | for name, address and status of any length that fit the line, the client shows the first 31, 63 and 15 characters; all three unchanged if and only if none is longer |
| `Dispatch.ErrorRoundTrip` | src/common/protocol.c:74-77 | the same for operation, code and description, with 63, 63 and 255 characters |
| `Dispatch.StatusChangedRoundTrip` | src/common/protocol.c:92-95 | the same for name and status, with 31 and 15 characters |
| `Dispatch.OneFieldRoundTrips` | src/common/protocol.c:79-99 | the client recovers the field of MSG_OK, STATUS_OK and LIST_OK, separators included, up to 31 characters, 15 characters and the whole list |
| `Dispatch.BroadcastOkRoundTrip` | src/common/protocol.c:105-107 | the client recognises the reply without fields |
| `Dispatch.ByeRoundTrip` | src/client/receiver_loop.c:290-294 | the server's BYE is shown as the end of the session |
| `Dispatch.ShownByType` | src/client/receiver_loop.c:148-307 | for every line, what kind of thing is shown is decided by its type alone: the session ends if and only if that is BYE |
| `Dispatch.DeliverRoundTrip` | src/common/protocol.c:101-112 | for sender and text of any length that fit the line, separators in the text included: without a separator in the sender's name the client shows its first 31 characters and the first 899 of the text; both unchanged if and only if the name has no separator and no 32nd character and the text no 900th |
| `Dispatch.OneFieldOnly` | src/client/receiver_loop.c:184-287 | INFO_OK, STATUS_CHANGED and ERROR with the first field alone: the others are shown empty |
| `Dispatch.TwoFieldsOnly` | src/client/receiver_loop.c:212-287 | INFO_OK and ERROR with two fields: the third is shown empty |
| `Dispatch.SenderOnly` | src/client/receiver_loop.c:112-135 | a delivery without a separator has a sender and no text |
| `Dispatch.NoFieldAtAll` | src/client/receiver_loop.c:148-307 | lines without any field are shown with all of them empty |
| `Registration.ParseRegisterOk` | src/client/main_client.c:174-193 | the three fields of the client's state after REGISTER_OK; a missing token leaves its field alone |
| `Registration.RegisterOkRoundTrip` | src/client/main_client.c:174-193 | for name and address of any length the client stores the first 31 and 63 characters and the status; the name itself if and only if it has at most 31 |
| `Registration.MissingFieldsKept` | src/client/main_client.c:174-193 | fields missing at the end of the reply leave what the client had before |
| `UserList.UiPrintList` | src/client/ui.c:219-243 | the count in the heading is the number of `;`-separated fields, zero for an empty list; the rows are the nonempty ones |
| `UserList.HeadingCountsRows` | src/client/ui.c:225-242 | the heading agrees with the number of rows if and only if the list is empty or has no empty field |
| `UserList.ListRoundTrip` | src/client/ui.c:219-243 | from the session table to the screen: at most 1014 characters of names are shown exactly, in slot order, with their number, including none, if and only if no name has a semicolon, in particular if all are valid |
| `StubTable.StubTable.FindFree` | tests/stub_server.c:438-444 | the first slot without a descriptor, or none |
| `StubTable.StubTable.ReserveSlot` | tests/stub_server.c:466-470 | descriptor and address are stored, the name and all other slots are unchanged |
| `StubTable.StubTable.IsDuplicate` | tests/stub_server.c:134-140 | whether one of the first `g_count` slots has the name; none if the loop runs past the table |
| `StubTable.StubTable.Register` | tests/stub_server.c:150-155 | the thread's record goes into its slot and the counter grows by one |
| `StubTable.StubTable.Leave` | tests/stub_server.c:364-371 | a registered thread's slot loses name and descriptor and the counter shrinks, clamped at zero; otherwise nothing changes |
| `StubTable.StubTable.HandleMsg` | tests/stub_server.c:252-291 | what is sent to whom, in order: the delivery to the first slot with the destination's name and the confirmation, or the error |
| `StubTable.StubTable.HandleBroadcast` | tests/stub_server.c:294-316 | one copy to every slot with a name, in slot order, then the confirmation |
| `StubTable.StubTable.HandleList` | tests/stub_server.c:165-181 | the `;`-join of the names in slot order, cut to 900 characters, also when the buffer fills up on the way |
| `StubTable.NamesInOrder` | tests/stub_server.c:169-175 | the listing has one place for each slot with a name, behind those of the earlier slots, and no other places |
| `StubTable.StubTable.HandleInfo` | tests/stub_server.c:184-215 | name and address of the first slot with the name asked for, or the error |
| `StubTable.StubTable.HandleStatus` | tests/stub_server.c:218-249 | for one of the three statuses, a notice to every named slot on another descriptor and the confirmation; otherwise the error |
| `StubTable.StubTable.HandleRegister` | tests/stub_server.c:117-162 | refusal of an empty and of a taken name, or the record in the table, the counter and the thread's copy, and the confirmation; undefined if the check reads past the table |
| `StubTable.StubTable.HandleMessage` | tests/stub_server.c:95-332 | for every line: the table, the counter, the thread's copy, the lines sent and to whom, and whether the connection stays open |
| `StubServer.StepKeepsInv` | tests/stub_server.c:335-379 | every step of the accept loop and of the client threads keeps the stub's invariant |
| `StubServer.RunKeepsInv` | tests/stub_server.c:430-476 | the invariant holds after every run |
| `StubSafety.ReachableNamesMatch` | tests/stub_server.c:150-155 | slots with a name correspond one to one to the live registered threads, with the same descriptor and name, and the descriptor is open |
| `StubSafety.ReachableFds` | tests/stub_server.c:430-476 | nothing is closed twice, and every open descriptor is held by the acceptor or by exactly one thread |
| `StubSafety.StepsAreRegistration` | tests/stub_server.c:117-162 | without interference the steps of a registration leave the state that handle_message computes |
| `StubSafety.GapIsSafe` | tests/stub_server.c:438-470 | whatever the threads do between finding and reserving a slot, it is still free, nameless and unserved when it is reserved |
| `StubAddresses.AddressIsAccepted` | tests/stub_server.c:459-470 | over every run, each thread and each slot with a name holds the descriptor and the address of one and the same accepted connection |
| `StubSafety.CountIsExact` | tests/stub_server.c:152-155 | `g_count` is the number of names in the table plus the number of repeated registrations, so it is right if and only if no connection registered twice |
| `StubSafety.CountCoversNames` | tests/stub_server.c:364-371 | the names in the table never outnumber `g_count` |
| `StubSafety.ClampNeverFires` | tests/stub_server.c:368-369 | the counter never goes below zero, so the clamp is dead code |
| `StubSafety.CheckReadsPast` | tests/stub_server.c:137-139 | the duplicate check reads past the table exactly if names and repeated registrations outnumber the slots and the name is new |
| `StubSafety.EitherOutcome` | tests/stub_server.c:137-139 | then a thread may go on either way |
| `StubRuns.FourNamesReadPast` | tests/stub_server.c:137-139 | a concrete run of one client that makes the check of a three-slot table read past it |
| `StubSafety.CheckPasses` | tests/stub_server.c:134-140 | a name passes the check if and only if names and repeated registrations do not outnumber the slots and none of the first so many has it |
| `StubSafety.CheckIsRight` | tests/stub_server.c:134-142 | the check answers rightly if and only if a name in use is in one of the first so many slots, or a new name meets a count within the table |
| `StubSafety.CheckMisses` | tests/stub_server.c:134-140 | a name in use passes the check if and only if names and repeated registrations do not outnumber the slots and every slot that has it lies behind the first so many |
| `StubRuns.NameRegisteredTwice` | tests/stub_server.c:134-155 | for any name, a reachable state with a right counter in which the check passes a name in use, and its continuation to two live threads with one name |
| `StubSafety.CleanUpLeaks` | tests/stub_server.c:364-371 | a leaving thread frees its slot if its client registered and leaks it otherwise |
| `StubSafety.LeakedForever` | tests/stub_server.c:438-444 | a leaked slot is never used again in any continuation of the run |
| `StubSafety.FullForever` | tests/stub_server.c:446-455 | once all slots have leaked every connection is refused |
| `StubRuns.VisitsLeak` | tests/stub_server.c:364-371 | for every table size, n visits without a registration reach a state with n leaked slots |
| `StubRuns.VisitsLockOut` | tests/stub_server.c:446-455 | after as many such visits as there are slots, every later connection of every continuation is refused |
| `EndToEnd.AddressedExactly` | tests/stub_server.c:257-265 | the name looked up never has a separator, and destination and text are the typed ones if and only if the typed destination has none |
| `EndToEnd.PrivateMessageArrives` | tests/stub_server.c:252-291 | for any reachable state and any typed line understood as a private message: the stub gets one line and changes nothing; destination and text are as typed if and only if the typed destination has no separator; if the destination is in use, the delivery goes to an open connection registered under it, which shows the sender and the text if and only if the sender's name has no separator, and the sender sees the confirmation; otherwise it sees the error |
| `EndToEnd.BroadcastArrives` | tests/stub_server.c:294-316 | the same for any line understood as /all: one copy for every registered connection |
| `EndToEnd.FanoutExact` | tests/stub_server.c:239-244 | a copy is sent to a descriptor if and only if a slot with a name has it and it is not the excepted one |
| `EndToEnd.ListArrives` | tests/stub_server.c:165-181 | a typed /list shows the first 900 characters of the names in the stub's table, in slot order; if they all fit, exactly the names under their number, if and only if none has a semicolon |
| `EndToEnd.InfoArrives` | tests/stub_server.c:184-215 | for any reachable state and any line understood as /info: if the name is in use, the sender sees it with the address of the first slot that has it, where a connection is registered under it, if and only if it has no separator; otherwise the error; the stub changes nothing |
| `EndToEnd.StatusArrives` | tests/stub_server.c:218-249 | for any line understood as /status: every other registered connection, and nobody else, gets the notice, which shows the sender's name and the status if and only if the sender has a name without a separator; the sender sees the confirmation |
| `EndToEnd.QuitArrives` | tests/stub_server.c:319-323 | for any line understood as /quit the sender sees the end of the session and the stub leaves the loop of this connection |
| `StubReplies.RegisterArrives` | tests/stub_server.c:117-162 | a registration with a name of any length: its first 31 characters, with address and counter, in the table, in the thread's copy and, if they have no separator, in the client's state; or, if they are in use, the error, an unchanged table and the end of the connection |
| `StubReplies.NamelessRefused` | tests/stub_server.c:119-125 | without a name: the error, an unchanged table and the end of the connection |
| `StubReplies.StatusRefused` | tests/stub_server.c:225-230 | any other status: the error for the sender and nothing for the others |
| `StubReplies.UnaddressedMessage` | tests/stub_server.c:252-271 | a MSG without a separator is, empty, for the first slot without a name, or answered with the error |
| `StubReplies.LongMessage` | tests/stub_server.c:257-265 | of a destination and a text of any length the first 31 and the first 899 characters count |
| `StubReplies.LongArgument` | tests/stub_server.c:186-300 | of a broadcast text the first 899, of a name asked for the first 31 |
| `StubReplies.UnknownArrives` | tests/stub_server.c:325-331 | a line of any other type is answered with an error that shows the first 63 characters of the type; the connection goes on |
| `RealServer.MessageDelivered` | src/server/handlers.c:71-89 | a private message without escapes passes `parse_message` and `build_deliver`; the typed text is shown under the first 31 characters of a sender's name without separator, and under the name itself if and only if it has no 32nd |
| `RealServer.MessageOverruns` | src/common/protocol.c:31-40 | without backslashes, a typed private message makes the parser write outside its fields if and only if its destination or text has a separator |
| `RealServer.TypedOverrun` | src/common/protocol.c:31-40 | a concrete typed line with a separator in its text, and its frame, for which the parser is undefined |
| `RealServer.BroadcastParsed` | src/common/protocol.c:24-57 | the second argument of a parsed broadcast is always shorter than its text; undefined exactly if the text has two separators that count |
| `RealServer.BroadcastLosesText` | src/server/handlers.c:95-104 | for every typed /all and every sender, the broadcast that the real server builds does not show the typed text; without escapes its text is empty |
| `RealServer.EmptyBroadcastShown` | src/server/handlers.c:99-100 | everybody then sees an empty text under the first 31 characters of the sender's name; under the name itself if and only if it has no separator and no 32nd character |

## Left out

- The functions behind src/server/handlers.c (`username_exists`, `add_session`, `find_user_fd`, `broadcast_all` and the rest) are declared and not defined in the repository: a handler step may change any names, registrations and statuses, and nothing else. Uniqueness of names is not claimed.
- ServerProtocol.RetableKeepsInv: what a handler may do is an assumption, for the same reason.
- Who receives an inactivity notice: it is sent after the unlock on a saved descriptor that may be stale by then. What is marked and queued is proved.
- Interleaving of the bytes of several threads that send on one socket: there is no lock per socket, so framing is about a single sender.
- Framing.SendLine: the number of interrupted calls is finite; a call that is interrupted for ever does not return in the program either.
- The stub sends with a single `send` and ignores its result; the results about arrival hold for lines sent in full. Its own `stub_recv_line` is the client's `recv_line` with another return value at errors.
- StubTable.StubTable.HandleMessage: one call at a time; what other threads do between the two critical sections of a registration is in `StubServer`. The log on the console is left out.
- StubTable.StubTable.HandleRegister: where the check reads past the table, the outcome is left open and nothing is promised.
- ServerProtocol.StepKeepsInv: a thread id is taken to be a positive number that no live thread has; that a `pthread_t` is never zero is an assumption about the platform.
- StubServer.StepKeepsInv: `pthread_create` in the stub is taken to succeed, as its result is not checked there.
- StubServer.RunKeepsInv: the sends inside critical sections do not change the table and are not steps of their own.
- SessionTable.SessionTable.Scan: a notice always fits its buffer, so `snprintf` is a plain copy here; `printf` is left out.
- SessionTable.SessionTable.MarkInactiveIfNeeded: `difftime` is the exact difference of two integers, and times have no width.
- Dispatch.DispatchMessage: what is handed to the printing functions; printing itself, the print mutex and the stored status of the user are left out.
- Registration.ParseRegisterOk: only the branch for REGISTER_OK; the error branch prints.
- EndToEnd.InfoArrives: an address in the table is taken to be nonempty, at most 63 characters long and without separators, as `inet_ntop` writes it (`StubAddresses.AddressIsAccepted` says that no others get there).
- StubReplies.RegisterArrives: the same about the address of the client that registers.
- MonitorNotices.QueueShown: names with a separator or a newline are left open; how the borders of fields then move is in `Dispatch`.
- UserList.UiPrintList: colours and the bullet are left out.
- `sessions_find_by_ip` and address formatting: an address is an opaque value or string. `status_to_string` is a plain switch.
- Set-up of sockets, signals, shutdown of the server, command line, start and end of the client, and all other console output.
- Checks of arguments against NULL, and the bytes behind the terminator of a string where no code reads them.
- `errno`, and the C types' widths: counters and lengths stay far below them, except `g_count`, which grows with every repeated registration.
