/** The per-byte protocol demultiplexer of the bridge's read loop, as a pure
    transition function: the state the loop keeps between bytes, what one byte
    does to it, and which input records it emits. */
module Demux {
  import opened Wrappers
  import opened SendInput
  import opened MouseParser

  /** A value read from the serial port. */
  type Byte = b: int | 0 <= b < 256

  /** The stream mode: unset until the first marker. */
  datatype Mode = Unset | Keyboard | Mouse

  /** Everything the read loop carries from one byte to the next. */
  datatype State = State(
    mode: Mode,
    token: string,          // the last (at most 9) non-terminator characters
    atLineStart: bool,
    skippingLog: bool,
    mouseLine: string,      // the current mouse line, at most 200 characters
    lastX: Option<int>,
    lastY: Option<int>,
    leftDown: bool,
    rightDown: bool)

  /** The result of one byte: the new state and the records sent, in order. */
  datatype Outcome = Outcome(state: State, sent: seq<Input>)

  const TokenCapacity: nat := 9
  const MouseLineCapacity: nat := 200
  const KeyboardMarker: string := "Keyboard"
  const MouseMarker: string := "Mouse"

  /** The state at the start of a session. */
  const Initial := State(Unset, "", true, false, "", None, None, false, false)

  predicate IsTerminator(c: char) { c == '\n' || c == '\r' }

  /** First characters of a device log line. */
  predicate IsLogMarker(c: char) { c == 'I' || c == 'W' || c == 'E' }

  /** The last n characters of s, or all of s when it is shorter. For the
      positive n the loop uses (9 and 200) this is Python's `s[-n:]`; at
      n = 0 it is empty, where `s[-0:]` would be all of s. */
  function Last(s: string, n: nat): (r: string)
    ensures |r| == if |s| <= n then |s| else n
  {
    if |s| <= n then s else s[|s| - n..]
  }

  predicate OccursAt(t: string, s: string, k: nat) {
    k + |t| <= |s| && s[k..k + |t|] == t
  }

  /** `t in s` for strings, scanned from the left: t is a prefix of s or of
      one of its suffixes. */
  predicate Contains(s: string, t: string)
    decreases |s|
  {
    OccursAt(t, s, 0) || (s != [] && Contains(s[1..], t))
  }

  /** The records for one keyboard-mode character: backspace and tab as
      virtual keys, printable ASCII as a literal character, nothing else. */
  function KeyboardRecords(c: char): seq<Input> {
    if c as int == 0x08 then SendVk(VK_BACK)
    else if c == '\t' then SendVk(VK_TAB)
    else if 32 <= c as int <= 126 then SendUnicode(c)
    else []
  }

  /** The relative move for a sample: against the previous position if
      there is one. */
  function CursorRecords(s: State, p: Sample): seq<Input> {
    if s.lastX.Some? && s.lastY.Some? then MouseMove(p.x - s.lastX.value, p.y - s.lastY.value)
    else []
  }

  /** A transition of one button, when its reported state differs from the
      held one. */
  function ButtonRecords(held: bool, now: bool, right: bool): seq<Input> {
    if now != held then MousePress(now, right) else []
  }

  /** A parsed sample: the move, then a transition for each button whose
      state changed. The new position and button states are stored. */
  function SampleArrived(s: State, p: Sample): Outcome {
    Outcome(s.(lastX := Some(p.x), lastY := Some(p.y), leftDown := p.left, rightDown := p.right),
            CursorRecords(s, p) + ButtonRecords(s.leftDown, p.left, false)
            + ButtonRecords(s.rightDown, p.right, true))
  }

  /** A complete mouse line, already removed from the state. A line that does
      not match changes nothing. */
  function MouseLineDone(s: State, line: string): Outcome {
    match ParseMouse(line)
    case None => Outcome(s, [])
    case Some(p) => SampleArrived(s, p)
  }

  /** A line terminator. In keyboard mode a carriage return is the Enter key
      and nothing else happens; otherwise a non-empty mouse line in mouse
      mode is complete. Either way a new line starts. */
  function EndOfLine(s: State, c: char): Outcome {
    var s1 := s.(atLineStart := true, skippingLog := false);
    if s.mode == Keyboard then
      Outcome(s1, if c == '\r' then SendVk(VK_RETURN) else [])
    else if s.mode == Mouse && s.mouseLine != [] then
      MouseLineDone(s1.(mouseLine := []), s.mouseLine)
    else
      Outcome(s1, [])
  }

  /** Any other character: it enters the marker window; a marker switches
      the mode and goes no further; otherwise it extends the mouse line in
      mouse mode, or is typed in keyboard mode unless the line is a log line. */
  function Character(s: State, c: char): Outcome {
    var window := Last(s.token + [c], TokenCapacity);
    var s1 := s.(atLineStart := false, token := window);
    if Contains(window, KeyboardMarker) then
      Outcome(s1.(mode := Keyboard, lastX := None, lastY := None), [])
    else if Contains(window, MouseMarker) then
      Outcome(s1.(mode := Mouse), [])
    else Deliver(s1, c)
  }

  /** A character that completed no marker: in mouse mode it extends the
      mouse line, in keyboard mode it is typed unless the line is a log line,
      and before any marker it is dropped. */
  function Deliver(s: State, c: char): Outcome {
    if s.mode == Mouse then
      Outcome(s.(mouseLine := Last(s.mouseLine + [c], MouseLineCapacity)), [])
    else if s.mode == Keyboard && !s.skippingLog then
      Outcome(s, KeyboardRecords(c))
    else
      Outcome(s, [])
  }

  /** One byte of the read loop: a log-severity letter at the start of a line
      marks the line as a log line, then the byte is a terminator or a
      character. */
  function Next(s: State, b: Byte): Outcome {
    var c := b as char;
    var s1 := s.(skippingLog := s.skippingLog || (s.atLineStart && IsLogMarker(c)));
    if IsTerminator(c) then EndOfLine(s1, c) else Character(s1, c)
  }

  /** A stream of bytes, one after the other from s. */
  function Run(s: State, bs: seq<Byte>): Outcome
    decreases |bs|
  {
    if bs == [] then Outcome(s, [])
    else
      var before := Run(s, bs[..|bs| - 1]);
      var last := Next(before.state, bs[|bs| - 1]);
      Outcome(last.state, before.sent + last.sent)
  }

  /** Running one more byte continues from where the run stopped. */
  lemma RunSnoc(s: State, bs: seq<Byte>, b: Byte)
    ensures Run(s, bs + [b]).state == Next(Run(s, bs).state, b).state
    ensures Run(s, bs + [b]).sent == Run(s, bs).sent + Next(Run(s, bs).state, b).sent
  {
    assert (bs + [b])[..|bs|] == bs;
  }

  /** Concatenation regroups freely. */
  lemma Associative<T>(a: seq<T>, b: seq<T>, c: seq<T>)
    ensures a + b + c == a + (b + c)
  {
  }
}
