// Lines over a byte stream: send_line and recv_line of src/common/utils.c, the
// client's recv_line, and what survives the trip. The
// environment decides how every system call ends; the numbers of EINTR returns
// are finite but not bounded.
module Framing {
  import opened CStrings

  /* ----- the two ends of a connection ----- */

  // The sending end; `wire` is what the kernel has taken so far.
  class Outgoing {
    var wire: string
    var interrupts: nat

    method Send(data: string) returns (sent: int, interrupted: bool)
      requires data != ""
      modifies this
      ensures -1 <= sent <= |data|
      ensures wire == old(wire) + data[..if sent > 0 then sent else 0]
      ensures if interrupted then sent == -1 && interrupts < old(interrupts) else interrupts == old(interrupts)
    {
      sent, interrupted := -1, false;
      if
      case interrupts > 0 =>
        interrupts, interrupted := interrupts - 1, true;
      case true =>
      case true =>
        sent := 0;
      case true =>
        sent :| 1 <= sent <= |data|;
        wire := wire + data[..sent];
    }
  }

  // The receiving end; `stream` is everything the peer sends before it closes.
  class Incoming {
    const stream: string
    var pos: nat
    var interrupts: nat

    ghost predicate Valid()
      reads this
    {
      pos <= |stream|
    }

    ghost function Rest(): string
      requires Valid()
      reads this
    {
      stream[pos..]
    }

    method Recv() returns (received: int, ch: char, interrupted: bool)
      requires Valid()
      modifies this
      ensures Valid()
      ensures received == 1 ==> old(Rest()) != "" && ch == old(Rest())[0] && Rest() == old(Rest())[1..]
      ensures received != 1 ==> pos == old(pos)
      ensures received == 0 ==> Rest() == ""
      ensures received <= 1 && (interrupted ==> received < 0)
      ensures if interrupted then interrupts < old(interrupts) else interrupts == old(interrupts)
    {
      received, ch, interrupted := -1, NUL, false;
      if
      case interrupts > 0 =>
        interrupts, interrupted := interrupts - 1, true;
      case true =>
      case pos == |stream| =>
        received := 0;
      case pos < |stream| =>
        received, ch := 1, stream[pos];
        pos := pos + 1;
    }
  }

  /* ----- sending ----- */

  method SendLine(socket: Outgoing, line: string) returns (result: int)
    modifies socket
    ensures result == 0 || result == -1
    ensures result == 0 ==> socket.wire == old(socket.wire) + line
    ensures result == -1 ==>
              exists k :: 0 <= k < |line| && socket.wire == old(socket.wire) + line[..k]
  {
    var totalSent := 0;
    while totalSent < |line|
      invariant 0 <= totalSent <= |line|
      invariant socket.wire == old(socket.wire) + line[..totalSent]
      decreases |line| - totalSent + socket.interrupts
    {
      var sentNow, interrupted := socket.Send(line[totalSent..]);
      if sentNow < 0 {
        if interrupted {
          continue;
        }
        return -1;
      }
      if sentNow == 0 {
        return -1;
      }
      assert line[..totalSent] + line[totalSent..][..sentNow] == line[..totalSent + sentNow];
      totalSent := totalSent + sentNow;
    }
    return 0;
  }

  /* ----- receiving ----- */

  /** The next line that fits a buffer of `size` bytes with its terminator: up to the
      first newline, or a full buffer; empty when the stream ends before either. */
  function NextLine(stream: string, size: nat): (line: string)
    requires size > 0
    ensures |line| < size && line <= stream
  {
    var i := IndexOf(stream, '\n');
    if i < |stream| && i < size - 1 then stream[..i + 1]
    else if |stream| >= size - 1 then stream[..size - 1]
    else ""
  }

  // src/common/utils.c
  method RecvLine(socket: Incoming, buffer: array<char>) returns (result: int)
    requires socket.Valid()
    modifies socket, buffer
    ensures socket.Valid()
    ensures -1 <= result && (buffer.Length == 0 ==> result == -1)
    ensures buffer.Length > 0 ==> Received(old(socket.Rest()), buffer[..], result, socket.Rest())
  {
    if buffer.Length == 0 {
      return -1;
    }
    ghost var before := socket.Rest();
    var used := 0;
    while used + 1 < buffer.Length
      invariant 0 <= used < buffer.Length && socket.Valid()
      invariant used <= |before| && buffer[..used] == before[..used] && '\n' !in before[..used]
      invariant socket.Rest() == before[used..]
      decreases buffer.Length - used + socket.interrupts
    {
      var received, ch, interrupted := socket.Recv();
      if received == 0 {
        buffer[0] := NUL;
        assert before[..used] == before;
        return 0;
      }
      if received < 0 {
        if interrupted {
          continue;
        }
        buffer[0] := NUL;
        return -1;
      }
      buffer[used] := ch;
      used := used + 1;
      if ch == '\n' {
        IndexIs(before, '\n', used - 1);
        break;
      }
    }
    buffer[used] := NUL;
    return used;
  }

  // The client's own version (src/client/receiver_loop.c): no retry after EINTR.
  method ClientRecvLine(socket: Incoming, buffer: array<char>) returns (result: int)
    requires socket.Valid() && buffer.Length > 0
    modifies socket, buffer
    ensures socket.Valid() && -1 <= result
    ensures Received(old(socket.Rest()), buffer[..], result, socket.Rest())
  {
    ghost var before := socket.Rest();
    var n := 0;
    while n < buffer.Length - 1
      invariant 0 <= n < buffer.Length && socket.Valid()
      invariant n <= |before| && buffer[..n] == before[..n] && '\n' !in before[..n]
      invariant socket.Rest() == before[n..]
    {
      var r, c, _ := socket.Recv();
      if r == 0 {
        buffer[n] := NUL;
        assert before[..n] == before;
        return 0;
      }
      if r < 0 {
        buffer[n] := NUL;
        return -1;
      }
      buffer[n] := c;
      n := n + 1;
      if c == '\n' {
        IndexIs(before, '\n', n - 1);
        break;
      }
    }
    buffer[n] := NUL;
    return n;
  }

  // How a call of either recv_line relates the stream before and after to the buffer.
  ghost predicate Received(before: string, buffer: string, result: int, after: string)
    requires |buffer| > 0
  {
    var line := NextLine(before, |buffer|);
    && NUL in buffer
    && (if result < 0 then exists k :: 0 <= k <= |before| && after == before[k..] && '\n' !in before[..k]
        else
          && result == |line|
          && (line != "" ==> buffer[..|line|] == line && buffer[|line|] == NUL)
          && after == if line == "" && |buffer| > 1 then "" else before[|line|..])
  }

  /** The lines that repeated calls of recv_line deliver from a stream. */
  function Lines(stream: string, size: nat): seq<string>
    requires size > 0
    decreases |stream|
  {
    var line := NextLine(stream, size);
    if line == "" then [] else [line] + Lines(stream[|line|..], size)
  }

  /* ----- framing survives the trip ----- */

  // A frame that fits: one newline, at the end.
  predicate IsFrame(frame: string, size: nat) {
    0 < |frame| < size && IndexOf(frame, '\n') == |frame| - 1
  }

  function Flatten(frames: seq<string>): string {
    if frames == [] then "" else frames[0] + Flatten(frames[1..])
  }

  lemma NextLineIsFrame(frame: string, rest: string, size: nat)
    requires IsFrame(frame, size)
    ensures NextLine(frame + rest, size) == frame
  {
    IndexIs(frame + rest, '\n', |frame| - 1);
    assert (frame + rest)[..|frame| - 1] == frame[..|frame| - 1];
  }

  lemma LinesStep(frame: string, rest: string, size: nat)
    requires IsFrame(frame, size)
    ensures Lines(frame + rest, size) == [frame] + Lines(rest, size)
  {
    NextLineIsFrame(frame, rest, size);
  }

  /** Frames at the start of a stream are the first lines, whatever follows. */
  lemma {:induction false} FramesFirst(frames: seq<string>, rest: string, size: nat)
    requires size > 0 && forall k :: 0 <= k < |frames| ==> IsFrame(frames[k], size)
    ensures Lines(Flatten(frames) + rest, size) == frames + Lines(rest, size)
  {
    hide Lines, NextLine, IndexOf;
    if frames == [] {
      assert Flatten(frames) + rest == rest && [] + Lines(rest, size) == Lines(rest, size);
    } else {
      assert IsFrame(frames[0], size);
      var behind := Flatten(frames[1..]) + rest;
      assert Flatten(frames) + rest == frames[0] + behind;
      LinesStep(frames[0], behind, size);
      FramesFirst(frames[1..], rest, size);
    }
  }

  /** What arrives of frames sent one after another, the last perhaps cut short by a
      failed send, is exactly the frames that were sent in full. */
  lemma FramesSurvive(frames: seq<string>, cut: string, size: nat)
    requires size > 0 && forall k :: 0 <= k < |frames| ==> IsFrame(frames[k], size)
    requires '\n' !in cut && |cut| < size - 1
    ensures Lines(Flatten(frames) + cut, size) == frames
  {
    FramesFirst(frames, cut, size);
    IndexIs(cut, '\n', |cut|);
  }

  // A line as a receiver delivers it: complete up to its newline, or as long as the buffer.
  predicate IsDelivered(line: string, size: nat) {
    && 0 < |line| < size
    && '\n' !in line[..|line| - 1]
    && (line[|line| - 1] == '\n' || |line| == size - 1)
  }

  lemma NextLineDelivered(stream: string, size: nat)
    requires size > 1
    ensures var line := NextLine(stream, size);
            if line == "" then '\n' !in stream && |stream| < size - 1 else IsDelivered(line, size)
  {
  }

  lemma LinesUnfold(stream: string, size: nat, line: string)
    requires size > 0 && line == NextLine(stream, size)
    ensures Lines(stream, size) == if line == "" then [] else [line] + Lines(stream[|line|..], size)
  {
  }

  /** No byte is lost or made up: the lines are the stream up to a rest that is neither a
      complete line nor enough to fill the buffer. */
  lemma {:induction false} LinesCover(stream: string, size: nat) returns (rest: string)
    requires size > 1
    ensures Flatten(Lines(stream, size)) + rest == stream
    ensures '\n' !in rest && |rest| < size - 1
    ensures forall k :: 0 <= k < |Lines(stream, size)| ==> IsDelivered(Lines(stream, size)[k], size)
    decreases |stream|
  {
    hide NextLine, Lines, IsDelivered;
    var line := NextLine(stream, size);
    NextLineDelivered(stream, size);
    LinesUnfold(stream, size, line);
    if line == "" {
      rest := stream;
    } else {
      rest := LinesCover(stream[|line|..], size);
      var lines := Lines(stream[|line|..], size);
      assert ([line] + lines)[1..] == lines;
      assert line + Flatten(lines) + rest == line + (Flatten(lines) + rest) == stream;
    }
  }

  /** A failed send_line leaves a cut that no receiver takes for a line. */
  lemma CutIsNoLine(frame: string, k: nat, size: nat)
    requires IsFrame(frame, size) && k < |frame|
    ensures '\n' !in frame[..k] && |frame[..k]| < size - 1
  {
    assert forall j :: 0 <= j < k ==> frame[j] == frame[..|frame| - 1][j];
  }

  lemma {:induction false} FlattenAppend(frames: seq<string>, last: string)
    ensures Flatten(frames + [last]) == Flatten(frames) + last
  {
    if frames == [] {
      assert ([] + [last])[1..] == [];
    } else {
      assert (frames + [last])[1..] == frames[1..] + [last];
      FlattenAppend(frames[1..], last);
    }
  }

  /** What a thread sends on one socket, in order, until a send fails, as it does in
      client_thread_main; the receiver at the other end reads exactly the frames sent. */
  method SendUntilFailure(socket: Outgoing, frames: seq<string>, size: nat) returns (sent: nat)
    requires socket.wire == "" && size > 0
    requires forall k :: 0 <= k < |frames| ==> IsFrame(frames[k], size)
    modifies socket
    ensures sent <= |frames|
    ensures Lines(socket.wire, size) == frames[..sent]
  {
    sent := 0;
    while sent < |frames|
      invariant 0 <= sent <= |frames|
      invariant socket.wire == Flatten(frames[..sent])
    {
      var result := SendLine(socket, frames[sent]);
      if result != 0 {
        ghost var k :| 0 <= k < |frames[sent]| && socket.wire == Flatten(frames[..sent]) + frames[sent][..k];
        CutIsNoLine(frames[sent], k, size);
        FramesSurvive(frames[..sent], frames[sent][..k], size);
        return;
      }
      FlattenAppend(frames[..sent], frames[sent]);
      assert frames[..sent] + [frames[sent]] == frames[..sent + 1];
      sent := sent + 1;
    }
    assert socket.wire + "" == socket.wire;
    if size > 1 {
      FramesSurvive(frames[..sent], "", size);
    }
  }
}
