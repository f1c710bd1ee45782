/** What the demultiplexer guarantees: the bounds and contents of its buffers,
    how markers switch the mode, how lines are delimited and suppressed, and
    that the way the byte stream is cut into reads does not matter. */
module DemuxProperties {
  import opened Wrappers
  import opened SendInput
  import opened MouseParser
  import opened Demux

  // ---------------------------------------------------------------------
  // Substring search
  // ---------------------------------------------------------------------

  /** The left-to-right scan of Contains finds t exactly when t occurs
      somewhere in s. */
  lemma {:induction false} ContainsIff(s: string, t: string)
    ensures Contains(s, t) <==> exists k: nat :: OccursAt(t, s, k)
    decreases |s|
  {
    if s != [] {
      ContainsIff(s[1..], t);
      if exists k: nat :: OccursAt(t, s[1..], k) {
        var k: nat :| OccursAt(t, s[1..], k);
        assert s[k + 1..k + 1 + |t|] == s[1..][k..k + |t|];
        assert OccursAt(t, s, k + 1);
      }
      if exists k: nat :: OccursAt(t, s, k) {
        var k: nat :| OccursAt(t, s, k);
        if k > 0 {
          assert s[1..][k - 1..k - 1 + |t|] == s[k..k + |t|];
          assert OccursAt(t, s[1..], k - 1);
        }
      }
    } else {
      if exists k: nat :: OccursAt(t, s, k) {
        var k: nat :| OccursAt(t, s, k);
        assert k == 0;
      }
    }
  }

  /** An occurrence at a known place is found. */
  lemma ContainsAt(s: string, t: string, k: nat)
    requires OccursAt(t, s, k)
    ensures Contains(s, t)
  {
    ContainsIff(s, t);
  }

  // ---------------------------------------------------------------------
  // Buffer invariants
  // ---------------------------------------------------------------------

  predicate NoTerminator(s: string) {
    forall i :: 0 <= i < |s| ==> !IsTerminator(s[i])
  }

  /** The window holds at most 9 and the mouse line at most 200 characters,
      and neither ever holds a line terminator. */
  predicate Valid(s: State) {
    |s.token| <= TokenCapacity && |s.mouseLine| <= MouseLineCapacity
    && NoTerminator(s.token) && NoTerminator(s.mouseLine)
  }

  /** Keeping the tail of a string keeps it free of terminators. */
  lemma LastNoTerminator(s: string, c: char, n: nat)
    requires NoTerminator(s) && !IsTerminator(c)
    ensures NoTerminator(Last(s + [c], n))
  {
    var r := Last(s + [c], n);
    forall i | 0 <= i < |r| ensures !IsTerminator(r[i]) {
      assert r[i] == (s + [c])[|s| + 1 - |r| + i];
    }
  }

  /** A complete mouse line changes only the cursor and the buttons. */
  lemma MouseLineDoneFrame(s: State, line: string)
    ensures var n := MouseLineDone(s, line).state;
            n == s.(lastX := n.lastX, lastY := n.lastY, leftDown := n.leftDown, rightDown := n.rightDown)
  {
  }

  /** A terminator starts a new line; it leaves the window and the mode
      alone, and the mouse line either alone or emptied. */
  lemma EndOfLineFrame(s: State, c: char)
    ensures var n := EndOfLine(s, c).state;
            n.atLineStart && !n.skippingLog && n.token == s.token && n.mode == s.mode
            && (n.mouseLine == s.mouseLine || n.mouseLine == [])
  {
    if s.mode == Mouse && s.mouseLine != [] {
      MouseLineDoneFrame(s.(atLineStart := true, skippingLog := false, mouseLine := []), s.mouseLine);
    }
  }

  /** Any other character enters the window; the mouse line either stays or
      takes the character. */
  lemma CharacterFrame(s: State, c: char)
    ensures var n := Character(s, c).state;
            !n.atLineStart && n.token == Last(s.token + [c], TokenCapacity)
            && (n.mouseLine == s.mouseLine || n.mouseLine == Last(s.mouseLine + [c], MouseLineCapacity))
  {
  }

  /** How one byte changes the two buffers. */
  lemma NextBuffers(s: State, b: Byte)
    ensures var c := b as char;
            var n := Next(s, b).state;
            (IsTerminator(c) ==> n.token == s.token && (n.mouseLine == s.mouseLine || n.mouseLine == []))
            && (!IsTerminator(c) ==>
                  n.token == Last(s.token + [c], TokenCapacity)
                  && (n.mouseLine == s.mouseLine || n.mouseLine == Last(s.mouseLine + [c], MouseLineCapacity)))
  {
    var c := b as char;
    var s1 := s.(skippingLog := s.skippingLog || (s.atLineStart && IsLogMarker(c)));
    if IsTerminator(c) {
      EndOfLineFrame(s1, c);
    } else {
      CharacterFrame(s1, c);
    }
  }

  /** One byte keeps the buffers valid. */
  lemma NextValid(s: State, b: Byte)
    requires Valid(s)
    ensures Valid(Next(s, b).state)
  {
    var c := b as char;
    NextBuffers(s, b);
    if !IsTerminator(c) {
      LastNoTerminator(s.token, c, TokenCapacity);
      LastNoTerminator(s.mouseLine, c, MouseLineCapacity);
    }
  }

  /** Any stream keeps the buffers valid. */
  lemma {:induction false} RunValid(s: State, bs: seq<Byte>)
    requires Valid(s)
    ensures Valid(Run(s, bs).state)
    decreases |bs|
  {
    if bs != [] {
      RunValid(s, bs[..|bs| - 1]);
      NextValid(Run(s, bs[..|bs| - 1]).state, bs[|bs| - 1]);
    }
  }

  /** In a session the mouse line handed to the parser never holds a newline,
      so the parser answers for it exactly as the regex search does. */
  lemma SessionLinesParsedAsRegex(bs: seq<Byte>)
    ensures Valid(Run(Initial, bs).state)
    ensures var line := Run(Initial, bs).state.mouseLine;
            (ParseMouse(line).None? <==> forall m :: !IsMatch(line, m))
            && (ParseMouse(line).Some? ==>
                  exists m :: IsFirstMatch(line, m) && ParseMouse(line).value == SampleOf(line, m))
  {
    RunValid(Initial, bs);
    ParseMouseCorrect(Run(Initial, bs).state.mouseLine);
  }

  // ---------------------------------------------------------------------
  // The marker window
  // ---------------------------------------------------------------------

  /** The characters of a byte stream that are not line terminators. */
  function Printed(bs: seq<Byte>): (r: string)
    ensures NoTerminator(r) && |r| <= |bs|
    decreases |bs|
  {
    if bs == [] then []
    else
      var c := bs[|bs| - 1] as char;
      Printed(bs[..|bs| - 1]) + (if IsTerminator(c) then [] else [c])
  }

  /** Trimming before appending does not change the tail that is kept. */
  lemma LastOfLast(s: string, c: char, n: nat)
    ensures Last(Last(s, n) + [c], n) == Last(s + [c], n)
  {
  }

  /** The window is always the last nine non-terminator characters seen. */
  lemma {:induction false} TokenIsWindow(s: State, bs: seq<Byte>)
    requires |s.token| <= TokenCapacity
    ensures Run(s, bs).state.token == Last(s.token + Printed(bs), TokenCapacity)
    decreases |bs|
  {
    if bs == [] {
      assert s.token + [] == s.token;
    } else {
      var init := bs[..|bs| - 1];
      var c := bs[|bs| - 1] as char;
      TokenIsWindow(s, init);
      NextBuffers(Run(s, init).state, bs[|bs| - 1]);
      if !IsTerminator(c) {
        LastOfLast(s.token + Printed(init), c, TokenCapacity);
        assert s.token + Printed(init) + [c] == s.token + Printed(bs);
      } else {
        assert Printed(bs) == Printed(init);
      }
    }
  }

  // ---------------------------------------------------------------------
  // Markers and modes
  // ---------------------------------------------------------------------

  /** A byte that puts "Keyboard" in the window selects keyboard mode and
      forgets the cursor; it emits nothing and leaves the mouse line alone. */
  lemma KeyboardMarkerSeen(s: State, b: Byte)
    requires !IsTerminator(b as char)
    requires Contains(Last(s.token + [b as char], TokenCapacity), KeyboardMarker)
    ensures var o := Next(s, b);
            o.sent == [] && o.state.mode == Keyboard
            && o.state.lastX == None && o.state.lastY == None
            && o.state.mouseLine == s.mouseLine
            && o.state.leftDown == s.leftDown && o.state.rightDown == s.rightDown
  {
  }

  /** A byte that puts "Mouse" (and not "Keyboard") in the window selects
      mouse mode and keeps the cursor; it emits nothing and leaves the mouse
      line alone. */
  lemma MouseMarkerSeen(s: State, b: Byte)
    requires !IsTerminator(b as char)
    requires !Contains(Last(s.token + [b as char], TokenCapacity), KeyboardMarker)
    requires Contains(Last(s.token + [b as char], TokenCapacity), MouseMarker)
    ensures var o := Next(s, b);
            o.sent == [] && o.state.mode == Mouse
            && o.state.lastX == s.lastX && o.state.lastY == s.lastY
            && o.state.mouseLine == s.mouseLine
            && o.state.leftDown == s.leftDown && o.state.rightDown == s.rightDown
  {
  }

  /** The mode changes only on a byte that puts a marker in the window, and
      once set it is never unset again. */
  lemma ModeChangesOnlyByMarker(s: State, b: Byte)
    ensures var c := b as char;
            var w := Last(s.token + [c], TokenCapacity);
            Next(s, b).state.mode != s.mode ==>
              !IsTerminator(c) && (Contains(w, KeyboardMarker) || Contains(w, MouseMarker))
    ensures s.mode != Unset ==> Next(s, b).state.mode != Unset
  {
  }

  /** A marker still in the window after the next character slides in. */
  lemma MarkerStays(t: string, m: string, k: nat, c: char)
    requires |t| <= TokenCapacity && OccursAt(m, t, k)
    requires |t| < TokenCapacity || 1 <= k
    ensures Contains(Last(t + [c], TokenCapacity), m)
  {
    var w := Last(t + [c], TokenCapacity);
    var d := |t| + 1 - |w|;
    assert d <= k;
    assert w[k - d..k - d + |m|] == t[k..k + |m|];
    ContainsAt(w, m, k - d);
  }

  /** While a marker is still in the window, every further character is
      swallowed by it: nothing is emitted, nothing joins the mouse line and
      the mode stays set. After "Keyboard" this catches one more character,
      after "Mouse" four. */
  lemma MarkerSwallows(s: State, b: Byte, m: string, k: nat)
    requires m == KeyboardMarker || m == MouseMarker
    requires |s.token| <= TokenCapacity && OccursAt(m, s.token, k)
    requires |s.token| < TokenCapacity || 1 <= k
    requires !IsTerminator(b as char)
    ensures var o := Next(s, b);
            o.sent == [] && o.state.mouseLine == s.mouseLine && o.state.mode != Unset
  {
    MarkerStays(s.token, m, k, b as char);
  }

  /** With "Keyboard" just completed at the end of the window, the next
      character, on this line or the next, is not typed. */
  lemma CharacterAfterKeyboardLost(s: State, b: Byte)
    requires |s.token| <= TokenCapacity && |s.token| >= |KeyboardMarker|
    requires s.token[|s.token| - |KeyboardMarker|..] == KeyboardMarker
    requires !IsTerminator(b as char)
    ensures Next(s, b).sent == [] && Next(s, b).state.mode == Keyboard
  {
    var k := |s.token| - |KeyboardMarker|;
    assert OccursAt(KeyboardMarker, s.token, k);
    MarkerStays(s.token, KeyboardMarker, k, b as char);
  }

  /** Before any marker nothing is emitted, byte by byte. */
  lemma UnsetSilent(s: State, b: Byte)
    requires s.mode == Unset
    ensures Next(s, b).sent == []
  {
  }

  /** A stream that leaves the mode unset emitted nothing at all. */
  lemma {:induction false} UnsetRunSilent(s: State, bs: seq<Byte>)
    requires s.mode == Unset
    ensures Run(s, bs).state.mode == Unset ==> Run(s, bs).sent == []
    decreases |bs|
  {
    if bs != [] {
      var init := bs[..|bs| - 1];
      ModeChangesOnlyByMarker(Run(s, init).state, bs[|bs| - 1]);
      UnsetRunSilent(s, init);
    }
  }

  // ---------------------------------------------------------------------
  // Mouse lines
  // ---------------------------------------------------------------------

  /** In mouse mode a character that completes no marker joins the mouse
      line, of which the last 200 characters are kept; nothing is emitted. */
  lemma MouseLineGrows(s: State, b: Byte)
    requires s.mode == Mouse && !IsTerminator(b as char)
    requires !Contains(Last(s.token + [b as char], TokenCapacity), KeyboardMarker)
    requires !Contains(Last(s.token + [b as char], TokenCapacity), MouseMarker)
    ensures var o := Next(s, b);
            o.sent == [] && o.state.mode == Mouse
            && o.state.mouseLine == Last(s.mouseLine + [b as char], MouseLineCapacity)
            && o.state.lastX == s.lastX && o.state.lastY == s.lastY
  {
  }

  /** In mouse mode every terminator leaves the mouse line empty; a
      non-empty line is handed to the parser, whether or not it matches. */
  lemma MouseLineEndsAtTerminator(s: State, b: Byte)
    requires s.mode == Mouse && IsTerminator(b as char)
    ensures Next(s, b).state.mouseLine == []
    ensures s.mouseLine != [] ==>
              Next(s, b) == MouseLineDone(s.(atLineStart := true, skippingLog := false, mouseLine := []),
                                          s.mouseLine)
  {
    if s.mouseLine != [] {
      MouseLineDoneFrame(s.(atLineStart := true, skippingLog := false, mouseLine := []), s.mouseLine);
    }
  }

  /** Keyboard mode never touches the mouse line: what was left of it when
      the mode switched is still there when mouse mode returns. */
  lemma KeyboardKeepsMouseLine(s: State, b: Byte)
    requires s.mode == Keyboard
    ensures Next(s, b).state.mouseLine == s.mouseLine
  {
  }

  /** A line the pattern does not match changes nothing and emits nothing. */
  lemma NonMatchingLineIgnored(s: State, line: string)
    requires '\n' !in line && forall m :: !IsMatch(line, m)
    ensures MouseLineDone(s, line) == Outcome(s, [])
  {
    ParseMouseCorrect(line);
  }

  /** A line without an `X`, a `Y` or a `|` has no sample. */
  lemma LineWithoutLabelsIgnored(s: State, line: string)
    requires 'X' !in line || 'Y' !in line || '|' !in line
    ensures ParseMouse(line) == None
    ensures MouseLineDone(s, line) == Outcome(s, [])
  {
    match FindLabelled(line, 0, 'X')
    case None =>
    case Some(fx) =>
      assert line[fx.at] == 'X';
      match FindLabelled(line, fx.span.end, 'Y')
      case None =>
      case Some(fy) =>
        assert line[fy.at] == 'Y';
        match FindPipes(line, fy.span.end)
        case None =>
        case Some(fp) =>
  }

  // ---------------------------------------------------------------------
  // Samples
  // ---------------------------------------------------------------------

  /** The move a sample calls for: only against a stored position, and only
      when the position changed. */
  function MoveAction(s: State, p: Sample): seq<Action> {
    if s.lastX.Some? && s.lastY.Some? && (p.x != s.lastX.value || p.y != s.lastY.value)
    then [Move(p.x - s.lastX.value, p.y - s.lastY.value)]
    else []
  }

  /** The transition of one button: only when its state changed. */
  function ButtonAction(held: bool, now: bool, right: bool): seq<Action> {
    if now == held then []
    else if right then [if now then RightDown else RightUp]
    else [if now then LeftDown else LeftUp]
  }

  /** A parsed sample is read by the host as: the move, if any, then the left
      and then the right button transition, if any; afterwards the stored
      position and button states are the sample's. */
  lemma SampleEvents(s: State, p: Sample)
    ensures var o := SampleArrived(s, p);
            Meanings(o.sent) == MoveAction(s, p) + ButtonAction(s.leftDown, p.left, false)
                                + ButtonAction(s.rightDown, p.right, true)
            && o.state.lastX == Some(p.x) && o.state.lastY == Some(p.y)
            && o.state.leftDown == p.left && o.state.rightDown == p.right
            && o.state.mode == s.mode && o.state.mouseLine == s.mouseLine
  {
    var move := CursorRecords(s, p);
    var left := ButtonRecords(s.leftDown, p.left, false);
    var right := ButtonRecords(s.rightDown, p.right, true);
    if s.lastX.Some? && s.lastY.Some? {
      MouseMoveMeaning(p.x - s.lastX.value, p.y - s.lastY.value);
    }
    assert Meanings(move) == MoveAction(s, p);
    if p.left != s.leftDown {
      MousePressMeaning(p.left, false);
    }
    assert Meanings(left) == ButtonAction(s.leftDown, p.left, false);
    if p.right != s.rightDown {
      MousePressMeaning(p.right, true);
    }
    assert Meanings(right) == ButtonAction(s.rightDown, p.right, true);
    MeaningsAppend(move, left);
    MeaningsAppend(move + left, right);
  }

  /** The same sample a second time emits nothing and changes nothing. */
  lemma SampleReplaySilent(s: State, p: Sample)
    ensures var o := SampleArrived(s, p);
            SampleArrived(o.state, p) == Outcome(o.state, [])
  {
  }

  /** No cursor move among the host's actions. */
  predicate NoMove(acts: seq<Action>) {
    forall i :: 0 <= i < |acts| ==> !acts[i].Move?
  }

  /** A byte that ends a mouse line which parses: the only place a sample
      is taken. */
  predicate TakesSample(s: State, b: Byte) {
    s.mode == Mouse && IsTerminator(b as char) && s.mouseLine != []
    && ParseMouse(s.mouseLine).Some?
  }

  /** At a terminator the stored cursor stays, or takes the position of the
      mouse line that ends there. */
  lemma EndOfLineCursor(s: State, c: char)
    ensures var n := EndOfLine(s, c).state;
            (n.lastX == s.lastX && n.lastY == s.lastY)
            || (s.mode == Mouse && s.mouseLine != [] && ParseMouse(s.mouseLine).Some?
                && n.lastX == Some(ParseMouse(s.mouseLine).value.x)
                && n.lastY == Some(ParseMouse(s.mouseLine).value.y))
  {
  }

  /** Any other character keeps the stored cursor, unless it completes the
      keyboard marker, which unsets it. */
  lemma CharacterCursor(s: State, c: char)
    ensures var n := Character(s, c).state;
            (n.lastX == s.lastX && n.lastY == s.lastY)
            || (n.lastX == None && n.lastY == None
                && Contains(Last(s.token + [c], TokenCapacity), KeyboardMarker))
  {
  }

  /** The stored cursor changes in two ways only: a keyboard marker unsets
      it, and a sample sets it to the sample's position. */
  lemma CursorStep(s: State, b: Byte)
    ensures var c := b as char;
            var n := Next(s, b).state;
            (n.lastX == s.lastX && n.lastY == s.lastY)
            || (n.lastX == None && n.lastY == None && !IsTerminator(c)
                && Contains(Last(s.token + [c], TokenCapacity), KeyboardMarker))
            || (TakesSample(s, b) && n.lastX == Some(ParseMouse(s.mouseLine).value.x)
                && n.lastY == Some(ParseMouse(s.mouseLine).value.y))
  {
    var c := b as char;
    var s1 := s.(skippingLog := s.skippingLog || (s.atLineStart && IsLogMarker(c)));
    if IsTerminator(c) {
      EndOfLineCursor(s1, c);
    } else {
      CharacterCursor(s1, c);
    }
  }

  /** A sample without a stored position moves nothing. */
  lemma FirstSampleNoMove(s: State, p: Sample)
    requires s.lastX == None
    ensures NoMove(Meanings(SampleArrived(s, p).sent))
  {
    SampleEvents(s, p);
  }

  /** A terminator without a stored position moves nothing. */
  lemma EndOfLineNoMove(s: State, c: char)
    requires s.lastX == None
    ensures NoMove(Meanings(EndOfLine(s, c).sent))
  {
    if s.mode == Keyboard {
      if c == '\r' {
        SendVkMeaning(VK_RETURN);
      }
    } else if s.mode == Mouse && s.mouseLine != [] {
      match ParseMouse(s.mouseLine)
      case None =>
      case Some(p) =>
        FirstSampleNoMove(s.(atLineStart := true, skippingLog := false, mouseLine := []), p);
    }
  }

  /** A character other than a terminator never moves the cursor. */
  lemma CharacterNoMove(s: State, c: char)
    ensures NoMove(Meanings(Character(s, c).sent))
  {
    KeyboardRecordsMeaning(c);
  }

  /** Without a stored position no byte moves the cursor. */
  lemma NoCursorNoMove(s: State, b: Byte)
    requires s.lastX == None
    ensures NoMove(Meanings(Next(s, b).sent))
  {
    var c := b as char;
    var s1 := s.(skippingLog := s.skippingLog || (s.atLineStart && IsLogMarker(c)));
    if IsTerminator(c) {
      EndOfLineNoMove(s1, c);
    } else {
      CharacterNoMove(s1, c);
    }
  }

  /** A stream that takes no sample keeps an unset cursor unset and moves
      nothing. */
  lemma {:induction false} CursorStaysUnset(s: State, bs: seq<Byte>)
    requires s.lastX == None && s.lastY == None
    requires forall i :: 0 <= i < |bs| ==> !TakesSample(Run(s, bs[..i]).state, bs[i])
    ensures Run(s, bs).state.lastX == None && Run(s, bs).state.lastY == None
    ensures NoMove(Meanings(Run(s, bs).sent))
    decreases |bs|
  {
    if bs != [] {
      var init := bs[..|bs| - 1];
      var last := bs[|bs| - 1];
      forall i | 0 <= i < |init|
        ensures !TakesSample(Run(s, init[..i]).state, init[i])
      {
        assert init[..i] == bs[..i];
      }
      CursorStaysUnset(s, init);
      var before := Run(s, init);
      assert init == bs[..|bs| - 1];
      assert !TakesSample(before.state, last);
      CursorStep(before.state, last);
      NoCursorNoMove(before.state, last);
      MeaningsAppend(before.sent, Next(before.state, last).sent);
    }
  }

  /** A sample taken without a stored position only sets the position and
      the buttons: its events are the button transitions alone. */
  lemma SampleWithoutCursor(s: State, b: Byte)
    requires s.lastX == None && TakesSample(s, b)
    ensures var p := ParseMouse(s.mouseLine).value;
            Meanings(Next(s, b).sent)
            == ButtonAction(s.leftDown, p.left, false) + ButtonAction(s.rightDown, p.right, true)
            && Next(s, b).state.lastX == Some(p.x) && Next(s, b).state.lastY == Some(p.y)
  {
    var p := ParseMouse(s.mouseLine).value;
    var s2 := s.(atLineStart := true, skippingLog := false, mouseLine := []);
    assert Next(s, b) == SampleArrived(s2, p);
    SampleEvents(s2, p);
  }

  /** After a keyboard marker forgot the cursor, whatever follows (the mouse
      marker, partial lines, lines that do not parse) moves nothing, and the
      first sample taken only sets the reference position: its events are
      the button transitions alone. */
  lemma FirstSampleAfterKeyboardNoMove(s: State, b: Byte, bs: seq<Byte>, c: Byte)
    requires !IsTerminator(b as char)
    requires Contains(Last(s.token + [b as char], TokenCapacity), KeyboardMarker)
    requires forall i :: 0 <= i < |bs| ==> !TakesSample(Run(Next(s, b).state, bs[..i]).state, bs[i])
    ensures var between := Run(Next(s, b).state, bs);
            NoMove(Meanings(between.sent)) && NoMove(Meanings(Next(between.state, c).sent))
    ensures var t := Run(Next(s, b).state, bs).state;
            TakesSample(t, c) ==>
              var p := ParseMouse(t.mouseLine).value;
              Meanings(Next(t, c).sent)
              == ButtonAction(t.leftDown, p.left, false) + ButtonAction(t.rightDown, p.right, true)
              && Next(t, c).state.lastX == Some(p.x) && Next(t, c).state.lastY == Some(p.y)
  {
    var t0 := Next(s, b).state;
    KeyboardMarkerSeen(s, b);
    CursorStaysUnset(t0, bs);
    var t := Run(t0, bs).state;
    NoCursorNoMove(t, c);
    if TakesSample(t, c) {
      SampleWithoutCursor(t, c);
    }
  }


  // ---------------------------------------------------------------------
  // Keyboard mode
  // ---------------------------------------------------------------------

  /** What the host reads for one typed character. */
  function KeyActions(c: char): seq<Action> {
    if c as int == 0x08 then [KeyDown(0x08), KeyUp(0x08)]
    else if c == '\t' then [KeyDown(0x09), KeyUp(0x09)]
    else if 32 <= c as int <= 126 then [CharDown(c as int), CharUp(c as int)]
    else []
  }

  /** Backspace and tab are the virtual keys 8 and 9, printable ASCII is the
      character itself, anything else is dropped. */
  lemma KeyboardRecordsMeaning(c: char)
    ensures Meanings(KeyboardRecords(c)) == KeyActions(c)
  {
    if c as int == 0x08 {
      SendVkMeaning(VK_BACK);
    } else if c == '\t' {
      SendVkMeaning(VK_TAB);
    } else if 32 <= c as int <= 126 {
      SendUnicodeMeaning(c);
    }
  }

  /** In keyboard mode a carriage return is Enter and a line feed nothing;
      both start a new line and change nothing else. */
  lemma KeyboardTerminator(s: State, b: Byte)
    requires s.mode == Keyboard && IsTerminator(b as char)
    ensures var o := Next(s, b);
            Meanings(o.sent) == (if b as char == '\r' then [KeyDown(0x0D), KeyUp(0x0D)] else [])
            && o.state == s.(atLineStart := true, skippingLog := false)
  {
    if b as char == '\r' {
      SendVkMeaning(VK_RETURN);
    }
  }

  /** In keyboard mode a character that completes no marker is typed, unless
      the line is a log line. */
  lemma KeyboardCharacter(s: State, b: Byte)
    requires s.mode == Keyboard && !IsTerminator(b as char)
    requires !Contains(Last(s.token + [b as char], TokenCapacity), KeyboardMarker)
    requires !Contains(Last(s.token + [b as char], TokenCapacity), MouseMarker)
    ensures var o := Next(s, b);
            var c := b as char;
            Meanings(o.sent) ==
              (if s.skippingLog || (s.atLineStart && IsLogMarker(c)) then [] else KeyActions(c))
            && o.state.mode == Keyboard && o.state.mouseLine == s.mouseLine
  {
    KeyboardRecordsMeaning(b as char);
  }

  // ---------------------------------------------------------------------
  // Log lines
  // ---------------------------------------------------------------------

  /** A line starts exactly after a terminator; a line is a log line from a
      log-severity letter in its first column until its terminator. */
  lemma LineFlags(s: State, b: Byte)
    ensures var c := b as char;
            var n := Next(s, b).state;
            (n.atLineStart <==> IsTerminator(c))
            && (n.skippingLog <==> !IsTerminator(c) && (s.skippingLog || (s.atLineStart && IsLogMarker(c))))
  {
    var c := b as char;
    var s1 := s.(skippingLog := s.skippingLog || (s.atLineStart && IsLogMarker(c)));
    if IsTerminator(c) {
      EndOfLineFrame(s1, c);
    } else {
      CharacterFrame(s1, c);
    }
  }

  /** Inside a log line no character emits anything, in any mode. */
  lemma LogCharacterSilent(s: State, b: Byte)
    requires s.skippingLog && !IsTerminator(b as char)
    ensures Next(s, b).sent == [] && Next(s, b).state.skippingLog
  {
  }

  /** A log line, up to its terminator, emits nothing. */
  lemma {:induction false} LogLineSilent(s: State, bs: seq<Byte>)
    requires s.skippingLog || (s.atLineStart && bs != [] && IsLogMarker(bs[0] as char))
    requires forall i :: 0 <= i < |bs| ==> !IsTerminator(bs[i] as char)
    ensures Run(s, bs).sent == []
    ensures bs != [] ==> Run(s, bs).state.skippingLog
    decreases |bs|
  {
    if |bs| == 1 {
      LogCharacterSilent(s.(skippingLog := true), bs[0]);
    } else if |bs| > 1 {
      var init := bs[..|bs| - 1];
      assert init[0] == bs[0];
      LogLineSilent(s, init);
      LogCharacterSilent(Run(s, init).state, bs[|bs| - 1]);
    }
  }

  // ---------------------------------------------------------------------
  // Reads of any size
  // ---------------------------------------------------------------------

  /** Running two pieces of a stream one after the other is running the
      whole stream. */
  lemma {:induction false} RunAppend(s: State, a: seq<Byte>, b: seq<Byte>)
    ensures var first := Run(s, a);
            var second := Run(first.state, b);
            Run(s, a + b) == Outcome(second.state, first.sent + second.sent)
    decreases |b|
  {
    var first := Run(s, a);
    if b == [] {
      assert a + b == a;
      assert first.sent + [] == first.sent;
    } else {
      var init := b[..|b| - 1];
      var last := b[|b| - 1];
      RunAppend(s, a, init);
      var mid := Run(first.state, init);
      assert b == init + [last];
      Associative(a, init, [last]);
      RunSnoc(s, a + init, last);
      RunSnoc(first.state, init, last);
      Associative(first.sent, mid.sent, Next(mid.state, last).sent);
    }
  }

  function Flatten(chunks: seq<seq<Byte>>): seq<Byte>
    decreases |chunks|
  {
    if chunks == [] then [] else Flatten(chunks[..|chunks| - 1]) + chunks[|chunks| - 1]
  }

  /** The reads, each run from where the previous one stopped. */
  function RunReads(s: State, chunks: seq<seq<Byte>>): Outcome
    decreases |chunks|
  {
    if chunks == [] then Outcome(s, [])
    else
      var before := RunReads(s, chunks[..|chunks| - 1]);
      var last := Run(before.state, chunks[|chunks| - 1]);
      Outcome(last.state, before.sent + last.sent)
  }

  /** However the stream is cut into reads, the final state and the events
      emitted are those of the whole stream. */
  lemma {:induction false} ReadsInvariant(s: State, chunks: seq<seq<Byte>>)
    ensures RunReads(s, chunks) == Run(s, Flatten(chunks))
    decreases |chunks|
  {
    if chunks != [] {
      var init := chunks[..|chunks| - 1];
      ReadsInvariant(s, init);
      RunAppend(s, Flatten(init), chunks[|chunks| - 1]);
    }
  }
}
