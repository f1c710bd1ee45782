/** The input records the bridge hands to the host's synthetic-input call, and
    the four helpers that build them (send_unicode, send_vk, mouse_move,
    mouse_press). The call itself is not modelled: a helper returns the records
    it would pass, in order, and the bridge appends them to its trace. */
module SendInput {

  const KEYEVENTF_KEYUP: bv32 := 0x0002
  const KEYEVENTF_UNICODE: bv32 := 0x0004

  const MOUSEEVENTF_MOVE: bv32 := 0x0001
  const MOUSEEVENTF_LEFTDOWN: bv32 := 0x0002
  const MOUSEEVENTF_LEFTUP: bv32 := 0x0004
  const MOUSEEVENTF_RIGHTDOWN: bv32 := 0x0008
  const MOUSEEVENTF_RIGHTUP: bv32 := 0x0010

  /** Virtual-key codes the bridge sends. */
  const VK_BACK := 0x08
  const VK_TAB := 0x09
  const VK_RETURN := 0x0D

  /** One INPUT record: a keyboard record (virtual key, scan code or UTF-16
      unit, flags) or a mouse record (relative motion, flags). */
  datatype Input =
    | KeyInput(vk: int, scan: int, flags: bv32)
    | MouseInput(dx: int, dy: int, flags: bv32)

  /** What the host does with one record. */
  datatype Action =
    | KeyDown(vk: int) | KeyUp(vk: int)
    | CharDown(code: int) | CharUp(code: int)
    | Move(dx: int, dy: int)
    | LeftDown | LeftUp | RightDown | RightUp
    | NoAction

  /** The host's reading of a record's flags. */
  function Meaning(i: Input): Action {
    match i
    case KeyInput(vk, scan, flags) =>
      var up := flags & KEYEVENTF_KEYUP != 0;
      if flags & KEYEVENTF_UNICODE != 0 then
        (if up then CharUp(scan) else CharDown(scan))
      else
        (if up then KeyUp(vk) else KeyDown(vk))
    case MouseInput(dx, dy, flags) =>
      if flags & MOUSEEVENTF_MOVE != 0 then Move(dx, dy)
      else if flags & MOUSEEVENTF_LEFTDOWN != 0 then LeftDown
      else if flags & MOUSEEVENTF_LEFTUP != 0 then LeftUp
      else if flags & MOUSEEVENTF_RIGHTDOWN != 0 then RightDown
      else if flags & MOUSEEVENTF_RIGHTUP != 0 then RightUp
      else NoAction
  }

  /** What the host does with a sequence of records, in order. */
  function Meanings(rs: seq<Input>): seq<Action> {
    if rs == [] then [] else [Meaning(rs[0])] + Meanings(rs[1..])
  }

  lemma {:induction false} MeaningsAppend(a: seq<Input>, b: seq<Input>)
    ensures Meanings(a + b) == Meanings(a) + Meanings(b)
  {
    if a != [] {
      assert (a + b)[1..] == a[1..] + b;
      MeaningsAppend(a[1..], b);
    } else {
      assert a + b == b;
    }
  }

  /** A literal character: key down then key up, both carrying the code point
      and the unicode flag. */
  function SendUnicode(c: char): seq<Input> {
    [KeyInput(0, c as int, KEYEVENTF_UNICODE),
     KeyInput(0, c as int, KEYEVENTF_UNICODE | KEYEVENTF_KEYUP)]
  }

  /** A virtual key: key down then key up. */
  function SendVk(vk: int): seq<Input> {
    [KeyInput(vk, 0, 0), KeyInput(vk, 0, KEYEVENTF_KEYUP)]
  }

  /** A relative move, dropped when it would not move the cursor. The
      sensitivity factor is 1.0, so the delta is passed through unchanged. */
  function MouseMove(dx: int, dy: int): seq<Input> {
    if dx == 0 && dy == 0 then [] else [MouseInput(dx, dy, MOUSEEVENTF_MOVE)]
  }

  /** One button transition; `right` chooses the button, `down` the phase. */
  function MousePress(down: bool, right: bool): seq<Input> {
    var flag :=
      if !down then (if right then MOUSEEVENTF_RIGHTUP else MOUSEEVENTF_LEFTUP)
      else (if right then MOUSEEVENTF_RIGHTDOWN else MOUSEEVENTF_LEFTDOWN);
    [MouseInput(0, 0, flag)]
  }

  /** The host reads a literal character as that character pressed, then released. */
  lemma SendUnicodeMeaning(c: char)
    ensures Meanings(SendUnicode(c)) == [CharDown(c as int), CharUp(c as int)]
  {
    var r := SendUnicode(c);
    assert r[1..][1..] == [];
    assert Meanings(r[1..]) == [Meaning(r[1])];
    assert Meanings(r) == [Meaning(r[0])] + Meanings(r[1..]);
  }

  /** The host reads a virtual key as that key pressed, then released. */
  lemma SendVkMeaning(vk: int)
    ensures Meanings(SendVk(vk)) == [KeyDown(vk), KeyUp(vk)]
  {
    var r := SendVk(vk);
    assert r[1..][1..] == [];
    assert Meanings(r[1..]) == [Meaning(r[1])];
    assert Meanings(r) == [Meaning(r[0])] + Meanings(r[1..]);
  }

  /** A move is sent exactly when the delta is not zero, and is read as that move. */
  lemma MouseMoveMeaning(dx: int, dy: int)
    ensures dx == 0 && dy == 0 ==> MouseMove(dx, dy) == []
    ensures dx != 0 || dy != 0 ==> Meanings(MouseMove(dx, dy)) == [Move(dx, dy)]
  {
    if dx != 0 || dy != 0 {
      assert MouseMove(dx, dy)[1..] == [];
    }
  }

  /** A press is one record, read as the chosen button going to the chosen phase. */
  lemma MousePressMeaning(down: bool, right: bool)
    ensures |MousePress(down, right)| == 1
    ensures Meanings(MousePress(down, right)) ==
              [if right then (if down then RightDown else RightUp)
               else (if down then LeftDown else LeftUp)]
  {
    assert MousePress(down, right)[1..] == [];
  }
}
