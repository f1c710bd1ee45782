# ESP32 HID bridge demultiplexer, modelled in Dafny

The bridge reads a serial stream from an ESP32 that carries two kinds of
traffic: keyboard text and mouse sample lines of the form
`X: <x> Y: <y> |<l>|<r>|`. A marker word in the stream switches between
them, and the device's own log lines are mixed in as well. The host side
(`main()` in forWIN11_esp_hid_bridge_mouseKeyboardControl_V4.py) works through the stream one byte at a time. For each byte:

- a 9-character window looks for the markers "Keyboard" and "Mouse";
- a line starting with `I`, `W` or `E` is a device log line, and is ignored in keyboard mode;
- in keyboard mode characters are typed through synthetic key events (`\r` is Enter);
- in mouse mode characters collect into a line of at most 200 characters;
- at the end of a mouse line a regex extracts a sample, which is turned into a relative cursor move and edge-triggered button presses.

The modules are:

- `SendInput` (send_input.dfy): the INPUT records that `send_unicode`, `send_vk`, `mouse_move` and `mouse_press` build, with the flag constants as 32-bit words. `Meaning` decodes a record's flags into what the host does, and it is the independent reference the helpers are proved against.
- `MouseParser` (mouse_parser.dfy): a hand-written scanner for the one regex `X:\s*([+-]?\d+).*?Y:\s*([+-]?\d+).*?\|(.?)\|(.?)\|?` used with `search`.
  - `IsMatch` describes every way the pattern can match.
  - `Prefers` is the order in which a backtracking engine tries them.
  - `Search` is proved to return the first match in that order.
  - `\s` is Python's set for characters 0-255 (9-13, 28-32, 133, 160).
- `Demux` (demux.dfy): the loop's local variables as a `State`. `Next` is one byte, giving the new state and the records sent, and `Run` is a stream of bytes.
- `Bridge` (bridge.dfy): the loop as the class `HidBridge`. Its fields are the loop variables, and `sent` is the trace of records handed to the host. `Step` processes one byte, split along the loop's branches, and `Feed` processes a chunk with a loop. Each method is proved to move the fields exactly as `Demux` says.
- `DemuxProperties` (demux_properties.dfy): what the loop guarantees.
  - The buffers stay bounded and terminator-free.
  - The window is the last nine characters seen.
  - Markers behave as described, including the characters they swallow.
  - Mouse lines are handled as described, and samples give the right move and button events.
  - Keyboard mode types the right keys, and log lines stay silent.
  - The result does not depend on how the stream is cut into reads.
- `WireFormat` (wire_format.dfy): a sample line in the layout `X: <x> Y: <y> |<l>|<r>|` for a given sample, and the proof that the parser reads it back. The code fixes only the regex, so this layout is an assumed one. It also covers what two successive lines produce.

Two consequences of the byte-level code are easy to miss:

- One might expect every printable character after "Keyboard" to be typed. In the code the window still holds "Keyboard" after the next character arrives, so that character is swallowed too (`CharacterAfterKeyboardLost`). After "Mouse" the next four are swallowed (`MarkerSwallows`).
- The mouse line is not cleared when keyboard mode starts, so a partial line, for example the "Keyboar" before the marker, is still there when mouse mode returns (`KeyboardKeepsMouseLine`).

## Model

| member | source | states |
|---|---|---|
| SendInput.SendUnicode | forWIN11_esp_hid_bridge_mouseKeyboardControl_V4.py:51-57 | computes the two records `send_unicode` builds: a keyboard record with scan code `ord(ch)` and UNICODE, then the same with UNICODE and KEYUP |
| SendInput.SendVk | forWIN11_esp_hid_bridge_mouseKeyboardControl_V4.py:59-65 | computes the two records `send_vk` builds: a keyboard record for the virtual key with no flags, then the same with KEYUP |
| SendInput.MouseMove | forWIN11_esp_hid_bridge_mouseKeyboardControl_V4.py:67-75 | computes what `mouse_move` builds: nothing for a (0, 0) delta, otherwise one mouse record with the delta and MOVE |
| SendInput.MousePress | forWIN11_esp_hid_bridge_mouseKeyboardControl_V4.py:77-84 | computes the one record `mouse_press` builds: LEFTDOWN or RIGHTDOWN when down, LEFTUP or RIGHTUP when up |
| SendInput.MeaningsAppend | forWIN11_esp_hid_bridge_mouseKeyboardControl_V4.py:51-84 | the host reads a concatenation of record batches as the concatenation of their readings, so each helper's records can be read on their own |
| SendInput.SendUnicodeMeaning | forWIN11_esp_hid_bridge_mouseKeyboardControl_V4.py:51-57 | `send_unicode` sends two records, read as the character's code pressed and then released (the second carries UNICODE and KEYUP) |
| SendInput.SendVkMeaning | forWIN11_esp_hid_bridge_mouseKeyboardControl_V4.py:59-65 | `send_vk` sends two records, read as the virtual key pressed and then released |
| SendInput.MouseMoveMeaning | forWIN11_esp_hid_bridge_mouseKeyboardControl_V4.py:67-75 | `mouse_move` sends nothing for a (0, 0) delta and otherwise exactly one record, read as a relative move by that delta |
| SendInput.MousePressMeaning | forWIN11_esp_hid_bridge_mouseKeyboardControl_V4.py:77-84 | `mouse_press` sends exactly one record whose flag is LEFTDOWN 0x2, LEFTUP 0x4, RIGHTDOWN 0x8 or RIGHTUP 0x10, chosen by button and phase |
| MouseParser.SpacesEnd | forWIN11_esp_hid_bridge_mouseKeyboardControl_V4.py:118 | `\s*` is maximal: every skipped character is Python's `\s` and the next one is not |
| MouseParser.DigitsEnd | forWIN11_esp_hid_bridge_mouseKeyboardControl_V4.py:118 | `\d+` is maximal: every skipped character is a digit and the next one is not |
| MouseParser.FindLabelled | forWIN11_esp_hid_bridge_mouseKeyboardControl_V4.py:118 | the leftmost position from k where `X:`/`Y:` is followed by an integer; no earlier position qualifies |
| MouseParser.FindPipes | forWIN11_esp_hid_bridge_mouseKeyboardControl_V4.py:118 | the leftmost position from k where the pipe pair `\|(.?)\|` starts; no earlier position qualifies |
| MouseParser.ScanIntCorrect | forWIN11_esp_hid_bridge_mouseKeyboardControl_V4.py:118 | the scanner finds `\s*([+-]?\d+)` exactly when the pattern matches there, with the same spaces and sign and the longest digit run any match can have |
| MouseParser.LabelledIntAtCorrect | forWIN11_esp_hid_bridge_mouseKeyboardControl_V4.py:118 | `X:`/`Y:` followed by an integer is found at k exactly when the pattern matches at k |
| MouseParser.PipesAtCorrect | forWIN11_esp_hid_bridge_mouseKeyboardControl_V4.py:118 | on a newline-free line the pipe pair is found at p exactly when `\|(.?)\|(.?)\|?` matches at p, with the greedy (longest) group 3 |
| MouseParser.FindLabelledReaches | forWIN11_esp_hid_bridge_mouseKeyboardControl_V4.py:118 | a labelled integer at any later position means the search finds one no later, and if at the same place no shorter |
| MouseParser.LabelsReached | forWIN11_esp_hid_bridge_mouseKeyboardControl_V4.py:118 | any match of the whole pattern implies the `X:` and `Y:` searches succeed, no further right than that match's labels |
| MouseParser.PipesReached | forWIN11_esp_hid_bridge_mouseKeyboardControl_V4.py:118 | any match implies the pipe search from an earlier point succeeds no further right than that match's pipe pair |
| MouseParser.Search | forWIN11_esp_hid_bridge_mouseKeyboardControl_V4.py:118-144 | computes `mouse_re.search`: the leftmost labelled `X` integer, then the leftmost labelled `Y` integer after it, then the leftmost pipe pair after that |
| MouseParser.ParseMouse | forWIN11_esp_hid_bridge_mouseKeyboardControl_V4.py:144-150 | computes the sample of a line: none when the search fails, otherwise `int()` of groups 1 and 2 and whether groups 3 and 4 are `'o'` |
| MouseParser.SearchFindsFirst | forWIN11_esp_hid_bridge_mouseKeyboardControl_V4.py:118-144 | whenever the pattern matches anywhere, `search` returns a match and no match is preferred to it by backtracking order |
| MouseParser.SearchSound | forWIN11_esp_hid_bridge_mouseKeyboardControl_V4.py:118-144 | what `search` returns on a newline-free line is a match of the pattern |
| MouseParser.SearchCorrect | forWIN11_esp_hid_bridge_mouseKeyboardControl_V4.py:118-144 | on a newline-free line `search` fails exactly when nothing matches, and otherwise returns the first match in backtracking order |
| MouseParser.ParseMouseCorrect | forWIN11_esp_hid_bridge_mouseKeyboardControl_V4.py:118-150 | on a newline-free line there is no sample exactly when the regex finds no match; otherwise the sample is the two `int()` groups and each button is pressed exactly when its group is `'o'`, taken from the regex's first match |
| Demux.Last | forWIN11_esp_hid_bridge_mouseKeyboardControl_V4.py:166-178 | keeps the last min(n, len s) characters; for the positive sizes the loop uses (9 and 200) that is Python's `s[-n:]` |
| Demux.Contains | forWIN11_esp_hid_bridge_mouseKeyboardControl_V4.py:167-171 | computes Python's `in` on strings by a left-to-right scan; `DemuxProperties.ContainsIff` proves it holds exactly when the marker occurs at some position |
| Demux.KeyboardRecords | forWIN11_esp_hid_bridge_mouseKeyboardControl_V4.py:184-191 | computes the records for one typed character: `send_vk(0x08)` for backspace, `send_vk(0x09)` for tab, `send_unicode` for codes 32-126, nothing otherwise |
| Demux.CursorRecords | forWIN11_esp_hid_bridge_mouseKeyboardControl_V4.py:152-153 | computes the move records of a sample: `mouse_move` of the difference to the stored position when both coordinates are stored, nothing otherwise |
| Demux.ButtonRecords | forWIN11_esp_hid_bridge_mouseKeyboardControl_V4.py:156-161 | computes one button's records: a `mouse_press` to the reported state when it differs from the held one, nothing otherwise |
| Demux.SampleArrived | forWIN11_esp_hid_bridge_mouseKeyboardControl_V4.py:147-161 | computes a sample's effect: the move records, then the left and then the right button records; afterwards the sample's position and buttons are stored |
| Demux.MouseLineDone | forWIN11_esp_hid_bridge_mouseKeyboardControl_V4.py:144-161 | computes a completed mouse line's effect: a line the regex does not match changes nothing, a match is applied as a sample |
| Demux.EndOfLine | forWIN11_esp_hid_bridge_mouseKeyboardControl_V4.py:134-162 | computes a terminator's effect: in keyboard mode Enter for `\r`; otherwise a non-empty mouse line in mouse mode is emptied and handed to the parser; either way a new line starts and any log line ends |
| Demux.Character | forWIN11_esp_hid_bridge_mouseKeyboardControl_V4.py:163-173 | computes a non-terminator's effect up to the markers: it slides into the 9-character window; "Keyboard" there selects keyboard mode and unsets the cursor, "Mouse" selects mouse mode, and in both cases the byte goes no further |
| Demux.Deliver | forWIN11_esp_hid_bridge_mouseKeyboardControl_V4.py:175-192 | computes a non-marker character's effect: it joins the mouse line (last 200 kept) in mouse mode, is typed in keyboard mode outside a log line, and is dropped before any marker |
| Demux.Next | forWIN11_esp_hid_bridge_mouseKeyboardControl_V4.py:128-192 | computes one byte's effect: an `I`, `W` or `E` at line start marks a log line, then the byte goes to `EndOfLine` or `Character` |
| Demux.Run | forWIN11_esp_hid_bridge_mouseKeyboardControl_V4.py:127-192 | computes a stream's effect: the bytes through `Next` in order, with their records concatenated |
| Bridge.HidBridge.constructor | forWIN11_esp_hid_bridge_mouseKeyboardControl_V4.py:110-116 | a session starts with no mode, empty window and mouse line, start of line, no log line, no stored cursor, both buttons up, and no events |
| Bridge.HidBridge.Step | forWIN11_esp_hid_bridge_mouseKeyboardControl_V4.py:128-192 | one byte moves the fields to the state `Demux.Next` gives and appends exactly the events it gives |
| Bridge.HidBridge.EndLine | forWIN11_esp_hid_bridge_mouseKeyboardControl_V4.py:134-162 | a terminator: in keyboard mode Enter for `\r`; otherwise a non-empty mouse line is parsed and emptied; both start a new line and end a log line |
| Bridge.HidBridge.TakeCharacter | forWIN11_esp_hid_bridge_mouseKeyboardControl_V4.py:163-173 | a non-terminator enters the 9-character window; a marker switches the mode (keyboard also forgets the cursor) and the byte goes no further |
| Bridge.HidBridge.DeliverCharacter | forWIN11_esp_hid_bridge_mouseKeyboardControl_V4.py:175-192 | a non-marker byte joins the mouse line (last 200 kept) in mouse mode, or is typed in keyboard mode outside a log line |
| Bridge.HidBridge.CompleteMouseLine | forWIN11_esp_hid_bridge_mouseKeyboardControl_V4.py:143-161 | the mouse line is parsed and emptied; a match applies its sample, a non-match changes nothing else |
| Bridge.HidBridge.ApplySample | forWIN11_esp_hid_bridge_mouseKeyboardControl_V4.py:147-161 | a sample: move against the stored position, then the left and right transitions, with the new position and buttons stored |
| Bridge.HidBridge.MoveCursor | forWIN11_esp_hid_bridge_mouseKeyboardControl_V4.py:152-154 | the move is computed against the old position, then the new position is stored |
| Bridge.HidBridge.PressLeft | forWIN11_esp_hid_bridge_mouseKeyboardControl_V4.py:156-158 | a left transition is sent exactly when the reported state differs from the stored one, and then the stored state is the reported one |
| Bridge.HidBridge.PressRight | forWIN11_esp_hid_bridge_mouseKeyboardControl_V4.py:159-161 | the same for the right button |
| Bridge.HidBridge.TypeCharacter | forWIN11_esp_hid_bridge_mouseKeyboardControl_V4.py:184-191 | backspace, tab and printable ASCII are sent as their records; other characters send nothing |
| Bridge.HidBridge.Feed | forWIN11_esp_hid_bridge_mouseKeyboardControl_V4.py:127-192 | a chunk is processed byte by byte: the fields end in `Demux.Run`'s state and the events are appended in order |
| DemuxProperties.ContainsIff | forWIN11_esp_hid_bridge_mouseKeyboardControl_V4.py:167-171 | the left-to-right scan for `in` finds the marker exactly when it occurs at some position of the window |
| DemuxProperties.ContainsAt | forWIN11_esp_hid_bridge_mouseKeyboardControl_V4.py:167-171 | a marker occurring at a known position is found |
| DemuxProperties.LastNoTerminator | forWIN11_esp_hid_bridge_mouseKeyboardControl_V4.py:166-178 | keeping a tail of a terminator-free string plus a non-terminator stays terminator-free |
| DemuxProperties.MouseLineDoneFrame | forWIN11_esp_hid_bridge_mouseKeyboardControl_V4.py:143-161 | parsing a completed mouse line changes only the stored cursor and buttons |
| DemuxProperties.EndOfLineFrame | forWIN11_esp_hid_bridge_mouseKeyboardControl_V4.py:134-162 | a terminator sets start-of-line, ends the log line, keeps the window and the mode, and keeps or empties the mouse line |
| DemuxProperties.CharacterFrame | forWIN11_esp_hid_bridge_mouseKeyboardControl_V4.py:164-179 | a non-terminator clears start-of-line, slides into the window, and either leaves the mouse line or appends to it, last 200 kept |
| DemuxProperties.NextBuffers | forWIN11_esp_hid_bridge_mouseKeyboardControl_V4.py:134-179 | what one byte does to the window and the mouse line |
| DemuxProperties.NextValid | forWIN11_esp_hid_bridge_mouseKeyboardControl_V4.py:166-178 | one byte keeps the window at most 9, the mouse line at most 200, and both free of `\r`/`\n` |
| DemuxProperties.RunValid | forWIN11_esp_hid_bridge_mouseKeyboardControl_V4.py:127-192 | any stream keeps those bounds |
| DemuxProperties.SessionLinesParsedAsRegex | forWIN11_esp_hid_bridge_mouseKeyboardControl_V4.py:118-150 | every mouse line of a session is bounded and newline-free, so the parser answers for it exactly as the regex search does |
| DemuxProperties.Printed | forWIN11_esp_hid_bridge_mouseKeyboardControl_V4.py:134-166 | the non-terminator characters of a stream are terminator-free and no more than the bytes |
| DemuxProperties.LastOfLast | forWIN11_esp_hid_bridge_mouseKeyboardControl_V4.py:166 | trimming the window before appending does not change the window kept |
| DemuxProperties.TokenIsWindow | forWIN11_esp_hid_bridge_mouseKeyboardControl_V4.py:134-166 | the window is always the last 9 (or fewer) non-terminator characters of the whole stream |
| DemuxProperties.KeyboardMarkerSeen | forWIN11_esp_hid_bridge_mouseKeyboardControl_V4.py:166-170 | a byte that puts "Keyboard" in the window selects keyboard mode, unsets the stored cursor, emits nothing, and leaves the mouse line and buttons alone |
| DemuxProperties.MouseMarkerSeen | forWIN11_esp_hid_bridge_mouseKeyboardControl_V4.py:171-173 | a byte that puts "Mouse" (and not "Keyboard") in the window selects mouse mode, keeps the cursor, emits nothing and leaves the mouse line alone |
| DemuxProperties.ModeChangesOnlyByMarker | forWIN11_esp_hid_bridge_mouseKeyboardControl_V4.py:166-173 | the mode changes only on a non-terminator that puts a marker in the window, and once set is never unset |
| DemuxProperties.MarkerStays | forWIN11_esp_hid_bridge_mouseKeyboardControl_V4.py:166-173 | a marker not at the very front of a full window is still there after the next character |
| DemuxProperties.MarkerSwallows | forWIN11_esp_hid_bridge_mouseKeyboardControl_V4.py:166-173 | while a marker stays in the window, each further character emits nothing and does not join the mouse line |
| DemuxProperties.CharacterAfterKeyboardLost | forWIN11_esp_hid_bridge_mouseKeyboardControl_V4.py:166-170 | the character right after "Keyboard" is not typed, on the same line or the next |
| DemuxProperties.UnsetSilent | forWIN11_esp_hid_bridge_mouseKeyboardControl_V4.py:175-192 | before any marker a byte emits nothing |
| DemuxProperties.UnsetRunSilent | forWIN11_esp_hid_bridge_mouseKeyboardControl_V4.py:175-192 | a stream that leaves the mode unset emitted nothing |
| DemuxProperties.MouseLineGrows | forWIN11_esp_hid_bridge_mouseKeyboardControl_V4.py:175-179 | in mouse mode a non-marker character joins the mouse line, last 200 kept, with nothing emitted and the cursor untouched |
| DemuxProperties.MouseLineEndsAtTerminator | forWIN11_esp_hid_bridge_mouseKeyboardControl_V4.py:141-145 | in mouse mode every terminator leaves the mouse line empty, and a non-empty line is handed to the parser whether or not it matches |
| DemuxProperties.KeyboardKeepsMouseLine | forWIN11_esp_hid_bridge_mouseKeyboardControl_V4.py:135-192 | keyboard mode never touches the mouse line, so a partial line survives to the next mouse session |
| DemuxProperties.NonMatchingLineIgnored | forWIN11_esp_hid_bridge_mouseKeyboardControl_V4.py:144-146 | a newline-free line the regex does not match leaves cursor, buttons and trace unchanged |
| DemuxProperties.LineWithoutLabelsIgnored | forWIN11_esp_hid_bridge_mouseKeyboardControl_V4.py:118-146 | a line lacking an `X`, a `Y` or a `|` has no sample and changes nothing |
| DemuxProperties.SampleEvents | forWIN11_esp_hid_bridge_mouseKeyboardControl_V4.py:147-161 | a sample is read as the move (only against a stored position and a non-zero delta) then the left then the right transition (only on change); afterwards the stored position and buttons are the parsed ones |
| DemuxProperties.SampleReplaySilent | forWIN11_esp_hid_bridge_mouseKeyboardControl_V4.py:152-161 | the same sample twice in a row: the second emits nothing and changes nothing |
| DemuxProperties.EndOfLineCursor | forWIN11_esp_hid_bridge_mouseKeyboardControl_V4.py:141-154 | at a terminator the stored cursor stays, or becomes the position of the mouse line that ends there when that line matches |
| DemuxProperties.CharacterCursor | forWIN11_esp_hid_bridge_mouseKeyboardControl_V4.py:164-179 | any other character keeps the stored cursor, unless it completes "Keyboard", which unsets it |
| DemuxProperties.CursorStep | forWIN11_esp_hid_bridge_mouseKeyboardControl_V4.py:128-192 | one byte changes the stored cursor in two ways only: to none, by a non-terminator that completes "Keyboard", or to the parsed position, by a mouse-mode terminator ending a matching line |
| DemuxProperties.FirstSampleNoMove | forWIN11_esp_hid_bridge_mouseKeyboardControl_V4.py:152-154 | a sample with no stored position emits no move |
| DemuxProperties.EndOfLineNoMove | forWIN11_esp_hid_bridge_mouseKeyboardControl_V4.py:134-162 | with no stored position a terminator emits no move |
| DemuxProperties.CharacterNoMove | forWIN11_esp_hid_bridge_mouseKeyboardControl_V4.py:163-192 | a non-terminator never emits a move |
| DemuxProperties.NoCursorNoMove | forWIN11_esp_hid_bridge_mouseKeyboardControl_V4.py:128-192 | with no stored position no byte emits a move |
| DemuxProperties.CursorStaysUnset | forWIN11_esp_hid_bridge_mouseKeyboardControl_V4.py:127-192 | a stream in which no matching mouse line ends keeps an unset cursor unset and emits no move |
| DemuxProperties.SampleWithoutCursor | forWIN11_esp_hid_bridge_mouseKeyboardControl_V4.py:143-161 | a matching mouse line that ends with no stored position emits only its button transitions and stores its position |
| DemuxProperties.FirstSampleAfterKeyboardNoMove | forWIN11_esp_hid_bridge_mouseKeyboardControl_V4.py:152-169 | after the byte that completes "Keyboard", nothing up to and including the first matching mouse line emits a move; that line's terminator emits only its button transitions and stores its position |
| DemuxProperties.KeyboardRecordsMeaning | forWIN11_esp_hid_bridge_mouseKeyboardControl_V4.py:184-191 | backspace is VK 0x08, tab VK 0x09, codes 32-126 the character itself, anything else nothing |
| DemuxProperties.KeyboardTerminator | forWIN11_esp_hid_bridge_mouseKeyboardControl_V4.py:135-140 | in keyboard mode `\r` is one Enter press and release, `\n` nothing; both set start-of-line, end the log line and change nothing else |
| DemuxProperties.KeyboardCharacter | forWIN11_esp_hid_bridge_mouseKeyboardControl_V4.py:181-192 | in keyboard mode a non-marker character is typed as its key actions unless the line is a log line |
| DemuxProperties.LineFlags | forWIN11_esp_hid_bridge_mouseKeyboardControl_V4.py:130-164 | start-of-line holds exactly after a terminator; the log flag holds exactly within a line whose first character is `I`, `W` or `E` |
| DemuxProperties.LogCharacterSilent | forWIN11_esp_hid_bridge_mouseKeyboardControl_V4.py:182-183 | inside a log line a non-terminator emits nothing in any mode |
| DemuxProperties.LogLineSilent | forWIN11_esp_hid_bridge_mouseKeyboardControl_V4.py:130-183 | a log line up to its terminator emits nothing |
| DemuxProperties.RunAppend | forWIN11_esp_hid_bridge_mouseKeyboardControl_V4.py:120-127 | feeding `a + b` equals feeding `a` and then `b` from where `a` left off |
| DemuxProperties.ReadsInvariant | forWIN11_esp_hid_bridge_mouseKeyboardControl_V4.py:120-127 | however the stream is cut into reads, the final state and the events are those of the whole stream |
| WireFormat.DecimalString | forWIN11_esp_hid_bridge_mouseKeyboardControl_V4.py:147-148 | the decimal form of a number is a non-empty run of digits |
| WireFormat.DecimalRoundTrip | forWIN11_esp_hid_bridge_mouseKeyboardControl_V4.py:147-148 | `int()` of the decimal digits of n is n |
| WireFormat.IntStringShape | forWIN11_esp_hid_bridge_mouseKeyboardControl_V4.py:147-148 | `str()` of an integer is an optional minus then digits, whose `int()` is the integer |
| WireFormat.ScanIntString | forWIN11_esp_hid_bridge_mouseKeyboardControl_V4.py:118-148 | `\s*([+-]?\d+)` over a space and `str(x)` followed by a non-digit scans back to x |
| WireFormat.SampleLineRoundTrip | forWIN11_esp_hid_bridge_mouseKeyboardControl_V4.py:118-150 | the line `X: <x> Y: <y> \|<l>\|<r>\|` parses back to exactly the sample it shows, for every integer x, y and both buttons |
| WireFormat.TwoSampleLines | forWIN11_esp_hid_bridge_mouseKeyboardControl_V4.py:144-161 | two successive sample lines give the move by the difference of the positions (none if equal), then the button transitions between them |
| WireFormat.ExampleLineParses | forWIN11_esp_hid_bridge_mouseKeyboardControl_V4.py:118-150 | `X: 10 Y: 20 \|o\| \|` parses to (10, 20), left pressed, right released |
| WireFormat.TwoSampleLinesExample | forWIN11_esp_hid_bridge_mouseKeyboardControl_V4.py:144-161 | after `X: 10 Y: 20 \|o\| \|`, the line `X: 15 Y: 18 \|o\| \|` is read as one move by (5, -2), whatever came before |
| WireFormat.MissingYExample | forWIN11_esp_hid_bridge_mouseKeyboardControl_V4.py:118-146 | `X: 10 \|o\| \|` (no `Y:`) changes nothing and emits nothing |

## Left out

- Opening and configuring the serial port, the port list, command-line defaults and the banner prints (forWIN11_esp_hid_bridge_mouseKeyboardControl_V4.py:86-108) are I/O.
- The polling loop (`in_waiting`, `read`, `sleep`) and the exception handlers (:120-126, :194-199) are not modelled. Only the per-byte fold is; `Feed` and `ReadsInvariant` cover any division into reads.
- The ctypes structure layouts and the call to `user32.SendInput` are foreign calls. Each helper instead returns the records it would pass, and the bridge appends them to its `sent` trace.
- SendInput.MouseMoveMeaning: the `MOUSE_SENS` float multiply, the `int()` truncation (:7, :68-69) and the 32-bit `c_long` fields are not modelled; the model keeps the exact integer difference. With `MOUSE_SENS` at 1.0 this agrees with the code for deltas in the signed 32-bit range. There the float product is exact, and ctypes does not truncate. Beyond 2^53 the float rounds, and beyond 32 bits ctypes truncates.
- The general Python regex engine is not modelled; only this one pattern is.
- MouseParser.ParseMouseCorrect is proved only for lines without `\n`, because `.` excludes it. This is no restriction in use, since `DemuxProperties.SessionLinesParsedAsRegex` proves that no mouse line ever holds one.
- WireFormat.SampleLineRoundTrip: the layout `X: <x> Y: <y> |<l>|<r>|` is an assumed sample-line format, since the code fixes only the regex. The round trip is stated for that layout only.
- The `chr(b)` of a byte is modelled as the character with that code, and strings as sequences of characters.
