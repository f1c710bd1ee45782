/** The bridge's read loop as an object: the loop's local variables become
    fields updated byte by byte, and `sent` collects the records handed to the
    host's synthetic-input call, in order. */
module Bridge {
  import opened Wrappers
  import opened SendInput
  import opened MouseParser
  import opened Demux

  class HidBridge {
    var mode: Mode
    var token: string
    var atLineStart: bool
    var skippingLog: bool
    var mouseLine: string
    var lastX: Option<int>
    var lastY: Option<int>
    var leftDown: bool
    var rightDown: bool
    var sent: seq<Input>

    /** The loop state held in the fields. */
    function View(): State
      reads this
    {
      State(mode, token, atLineStart, skippingLog, mouseLine, lastX, lastY, leftDown, rightDown)
    }

    /** A new session: no mode, empty window and line, no cursor, both buttons up. */
    constructor ()
      ensures View() == Initial && sent == []
    {
      mode := Unset;
      token := "";
      atLineStart := true;
      skippingLog := false;
      mouseLine := "";
      lastX, lastY := None, None;
      leftDown, rightDown := false, false;
      sent := [];
    }

    /** Process one byte read from the port. */
    method Step(b: Byte)
      modifies this
      ensures View() == Next(old(View()), b).state
      ensures sent == old(sent) + Next(old(View()), b).sent
    {
      var c := b as char;
      if atLineStart && IsLogMarker(c) {
        skippingLog := true;
      }
      // Line terminators come first and never reach the window.
      if IsTerminator(c) {
        EndLine(c);
      } else {
        TakeCharacter(c);
      }
    }

    /** A line terminator. */
    method EndLine(c: char)
      modifies this
      ensures View() == EndOfLine(old(View()), c).state
      ensures sent == old(sent) + EndOfLine(old(View()), c).sent
    {
      if mode == Keyboard {
        if c == '\r' {
          sent := sent + SendVk(VK_RETURN);
        }
        atLineStart := true;
        skippingLog := false;
        return;
      }
      atLineStart := true;
      skippingLog := false;
      if mode == Mouse && mouseLine != [] {
        CompleteMouseLine();
      }
    }

    /** Any byte other than a line terminator. */
    method TakeCharacter(c: char)
      modifies this
      ensures View() == Character(old(View()), c).state
      ensures sent == old(sent) + Character(old(View()), c).sent
    {
      atLineStart := false;
      token := Last(token + [c], TokenCapacity);
      if Contains(token, KeyboardMarker) {
        mode := Keyboard;
        lastX, lastY := None, None;
        return;
      }
      if Contains(token, MouseMarker) {
        mode := Mouse;
        return;
      }
      DeliverCharacter(c);
    }

    /** A character that completed no marker. */
    method DeliverCharacter(c: char)
      modifies this
      ensures View() == Deliver(old(View()), c).state
      ensures sent == old(sent) + Deliver(old(View()), c).sent
    {
      if mode == Mouse {
        mouseLine := mouseLine + [c];
        if |mouseLine| > MouseLineCapacity {
          mouseLine := mouseLine[|mouseLine| - MouseLineCapacity..];
        }
        return;
      }
      if mode == Keyboard {
        if skippingLog {
          return;
        }
        TypeCharacter(c);
      }
    }

    /** A terminator ends the mouse line: parse it, empty it, and on a match
        move the cursor by the difference to the previous sample and send a
        transition for each button that changed. */
    method CompleteMouseLine()
      modifies this
      ensures View() == MouseLineDone(old(View()).(mouseLine := []), old(mouseLine)).state
      ensures sent == old(sent) + MouseLineDone(old(View()).(mouseLine := []), old(mouseLine)).sent
    {
      var parsed := ParseMouse(mouseLine);
      mouseLine := "";
      if parsed.Some? {
        ApplySample(parsed.value);
      }
    }

    /** A matching line's sample: move by the difference to the stored
        position when there is one, store the new position, then send a
        transition for each button that changed. */
    method ApplySample(p: Sample)
      modifies this
      ensures View() == SampleArrived(old(View()), p).state
      ensures sent == old(sent) + SampleArrived(old(View()), p).sent
    {
      ghost var before, sent0 := View(), sent;
      MoveCursor(p);
      PressLeft(p.left);
      PressRight(p.right);
      ghost var move := CursorRecords(before, p);
      ghost var left := ButtonRecords(before.leftDown, p.left, false);
      ghost var right := ButtonRecords(before.rightDown, p.right, true);
      Associative(sent0 + move, left, right);
      Associative(sent0, move, left + right);
      Associative(move, left, right);
    }

    /** The move against the previous position, if any; the new position
        is stored. */
    method MoveCursor(p: Sample)
      modifies this`lastX, this`lastY, this`sent
      ensures lastX == Some(p.x) && lastY == Some(p.y)
      ensures sent == old(sent) + CursorRecords(old(View()), p)
    {
      if lastX.Some? && lastY.Some? {
        sent := sent + MouseMove(p.x - lastX.value, p.y - lastY.value);
      }
      lastX, lastY := Some(p.x), Some(p.y);
    }

    /** The left button goes to the reported state. */
    method PressLeft(now: bool)
      modifies this`leftDown, this`sent
      ensures leftDown == now
      ensures sent == old(sent) + ButtonRecords(old(leftDown), now, false)
    {
      if now != leftDown {
        sent := sent + MousePress(now, false);
        leftDown := now;
      }
    }

    /** The right button goes to the reported state. */
    method PressRight(now: bool)
      modifies this`rightDown, this`sent
      ensures rightDown == now
      ensures sent == old(sent) + ButtonRecords(old(rightDown), now, true)
    {
      if now != rightDown {
        sent := sent + MousePress(now, true);
        rightDown := now;
      }
    }

    /** A keyboard-mode character outside a log line. */
    method TypeCharacter(c: char)
      modifies this`sent
      ensures sent == old(sent) + KeyboardRecords(c)
    {
      if c as int == 0x08 {
        sent := sent + SendVk(VK_BACK);
      } else if c == '\t' {
        sent := sent + SendVk(VK_TAB);
      } else if 32 <= c as int <= 126 {
        sent := sent + SendUnicode(c);
      }
    }

    /** Process a chunk read from the port, byte by byte in order. */
    method Feed(chunk: seq<Byte>)
      modifies this
      ensures View() == Run(old(View()), chunk).state
      ensures sent == old(sent) + Run(old(View()), chunk).sent
    {
      ghost var start, sent0 := View(), sent;
      for i := 0 to |chunk|
        invariant View() == Run(start, chunk[..i]).state
        invariant sent == sent0 + Run(start, chunk[..i]).sent
      {
        ghost var done := Run(start, chunk[..i]);
        ghost var next := Next(done.state, chunk[i]);
        assert chunk[..i + 1] == chunk[..i] + [chunk[i]];
        RunSnoc(start, chunk[..i], chunk[i]);
        Step(chunk[i]);
        assert sent == sent0 + done.sent + next.sent;
        Associative(sent0, done.sent, next.sent);
      }
      assert chunk[..|chunk|] == chunk;
    }
  }
}
