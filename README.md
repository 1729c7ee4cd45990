# ColorInput and selection effects of pygame-menu, in Dafny

This project models two pieces of pygame-menu.

**The `ColorInput` widget** (`pygame_menu/widgets/widget/colorinput.py`). This is the value logic of a text field that holds a colour. It has two formats:

- **RGB:** `R<sep>G<sep>B`, for example `255,0,12`.
- **HEX:** `#RRGGBB`.

The widget has three pieces of state:

- the text buffer `_input_string`;
- the cursor `_cursor_position`;
- the list of channel indexes `_auto_separator_pos`, for which a separator was inserted automatically.

The modelled operations are:

- the constructor's configuration assertions (lines 162-173), valid characters and `maxchar` (lines 175-185);
- `set_value`, `get_value`, `is_valid`, `value_changed`, `_format_hex` and `clear`;
- everything in `update` that is not drawing:
  - the keystroke guards of both modes;
  - the insertion done by the `TextInput` superclass;
  - the repairs made after it (zero push, revert on overflow, auto separator, reset).

**The selection effects**, as far as `test/test_selection.py` pins them down:

- the four margins, `get_width`, `get_height`, `margin_xy` and `inflate`;
- the None, Simple, Highlight, arrow and abstract effects, and the `NotImplementedError` that `draw` raises on the abstract ones;
- copies;
- a widget's selection-effect slot.

## Layout

- `pytext.dfy`, module `PyText`: the Python string and number built-ins the widget relies on. These are `int()` on digit strings, `str()` of a number, `str.count`, `str.split` / `join`, `str.strip`, `lower` / `upper`, and `int(x, 16)` on a hex pair. Each comes with its laws, such as `Join(Split(s)) == s`, `Split(Join(parts)) == parts` and `ParseInt(NatToString(n)) == Some(n)`.
- `colorinput_spec.dfy`, module `ColorInputSpec`: the widget's behaviour as functions of a configuration (`Config`: colour type, hex format, separator) and a state (`TextState`). Where the source raises, the result is an `Outcome` that records it: `Raises(ValueError)` for a failing `int()`, `Raises(AssertionError)` for a failing `assert`.
  - `GetValue`, `IsValid`, `ValueChanged`, `FormatHex`, `SetValueSpec` and `Cleared` model the value operations.
  - `Guard` models the checks at the top of `update`. `Update` models the whole of `update`.
  - `BufferInvariant` is what each mode's buffer can hold.
  - The as-written versions of the two faulty spots (see Findings) are `HexCheckAsWritten` / `HexTextAsWritten` / `SetValueTextAsWritten` / `SetValueSpecAsWritten` and `RgbGuardAsWritten` / `GuardAsWritten` / `UpdateAsWritten`.
  - `ExtraHashes(color)` names the HEX values where the two `set_value` versions differ: two or more '#' among seven kept characters. `SeparatorFirst` names the RGB keystrokes where the two `update` versions differ: the separator typed at cursor 0 of a non-empty buffer that lines 478-490 let through.
- `colorinput_proofs.dfy`, module `ColorInputProofs`: the properties of those functions.
- `colorinput.dfy`, module `ColorInput`: the widget as a class.
  - The fields `inputString`, `cursorPosition` and `autoSeparatorPos` are reassigned by `SetValue`, `Clear`, `ApplyHexFormat` and `Update`.
  - The counting and scanning loops of the source are methods with loop invariants: the hash count, the separator count, the scans for the segment around the cursor, the overflow scan over channels, and the filter of valid characters.
  - Each method is proved equal to its specification function, and `Valid()` (the buffer invariant) is preserved.
- `selection.dfy`, module `SelectionEffects`: margin arithmetic on integer rectangles, an `Effect` class whose margins `MarginXY` updates in place, and a `Widget` class holding the effect slot.

## Model

| member | source | states |
|---|---|---|
| ColorInputProofs.ValidCharsMembership | pygame_menu/widgets/widget/colorinput.py:175-185 | a character is in `_valid_chars` exactly when it is a digit or the separator (RGB), or a hex digit of either case or '#' (HEX) |
| ColorInput.ColorInput.constructor | pygame_menu/widgets/widget/colorinput.py:130-232 | a new widget keeps its configuration and default, starts with an empty buffer, cursor 0 and no auto separators, and is `Valid()` |
| ColorInput.ColorInput.GetValue | pygame_menu/widgets/widget/colorinput.py:328-356 | the widget's `get_value()` is the specification's reading of its buffer, and on a `Valid()` widget it never raises |
| ColorInputProofs.RgbGetValue | pygame_menu/widgets/widget/colorinput.py:343-348 | on an RGB buffer of digits and separators, every split part is a digit string; the value is the colour of the three parts when there are exactly three non-empty ones and r and g are at most 255 (blue is never range-checked), and `(-1,-1,-1)` otherwise |
| ColorInputProofs.RgbRoundTrip | pygame_menu/widgets/widget/colorinput.py:343-348 | the string (as line 291 formats it) `r<sep>g<sep>b` reads back as `(r,g,b)` when r and g are at most 255, and as the invalid colour otherwise |
| ColorInputProofs.RgbStringParts | pygame_menu/widgets/widget/colorinput.py:344 | splitting `r<sep>g<sep>b` at the separator gives exactly the three decimal numerals |
| ColorInputProofs.HexGetValue | pygame_menu/widgets/widget/colorinput.py:350-356 | a HEX buffer whose length is not 7 reads as `(-1,-1,-1)`; a 7-character one reads as the three hex pairs after its first character, and raises ValueError if one of those six characters is not a hex digit |
| ColorInputProofs.GetValueRange | pygame_menu/widgets/widget/colorinput.py:343-356 | a colour `get_value` returns is the invalid colour or has r and g in 0..255 and b at least 0, and b at most 255 in HEX mode |
| ColorInputProofs.IsValidIff | pygame_menu/widgets/widget/colorinput.py:358-367 | `is_valid()` raises exactly when `get_value()` raises, and is true exactly when it returns a colour other than `(-1,-1,-1)` |
| ColorInputProofs.GetValueNeverRaises | pygame_menu/widgets/widget/colorinput.py:343-356 | a buffer that keeps its mode's invariant never makes `get_value` raise |
| ColorInputProofs.FormatHexIdempotent | pygame_menu/widgets/widget/colorinput.py:414-426 | `_format_hex` leaves the buffer alone in RGB mode or with format 'none', and applying it twice is applying it once |
| ColorInputProofs.FormatHexKeepsValue | pygame_menu/widgets/widget/colorinput.py:414-426 | changing the letter case keeps the buffer invariant and does not change what `get_value` returns |
| ColorInput.ColorInput.ApplyHexFormat | pygame_menu/widgets/widget/colorinput.py:414-426 | the buffer becomes its formatted self; the cursor and the auto-separator list do not change |
| ColorInput.HexColorText | pygame_menu/widgets/widget/colorinput.py:294-317 | (corrected) the HEX branch of `set_value` (strip, filter, hash count, the two assertions, and a refusal of a second '#') computes the text or the AssertionError `HexText` specifies; on every value without `ExtraHashes` that is also what the code as written computes (`HexTextAsWritten`) |
| ColorInput.FilterChars | pygame_menu/widgets/widget/colorinput.py:299-304 | the loop keeps exactly the hex digits and '#' of the text, in order |
| ColorInput.CountChar | pygame_menu/widgets/widget/colorinput.py:307-310 | the counting loop returns the number of occurrences of the character (also used at lines 485-488 and 554-557) |
| ColorInput.RgbColorText | pygame_menu/widgets/widget/colorinput.py:281-291 | the RGB branch of `set_value` for a non-empty colour gives `r<sep>g<sep>b` for a tuple of three channels in 0..255, and AssertionError for anything else |
| ColorInput.ColorInput.SetValue | pygame_menu/widgets/widget/colorinput.py:267-320 | (corrected) the new buffer, cursor, auto-separator list and outcome are exactly those of `SetValueSpec`, and the widget stays `Valid()`; unless the colour type is HEX and the value has `ExtraHashes`, they are also those of the code as written (`SetValueSpecAsWritten`) |
| ColorInput.ColorInput.SetRgbValue | pygame_menu/widgets/widget/colorinput.py:274-292 | the RGB half of `set_value` meets `SetValueSpec`, which for RGB is also the code as written (`SetValueSpecAsWritten`) |
| ColorInput.ColorInput.SetHexValue | pygame_menu/widgets/widget/colorinput.py:294-320 | (corrected) the HEX half of `set_value` meets `SetValueSpec`, and meets `SetValueSpecAsWritten` for every value without `ExtraHashes` |
| ColorInput.ColorInput.SuperSetValue | pygame_menu/widgets/widget/colorinput.py:319 | the superclass `set_value` stores the text and puts the cursor at its end, keeping the auto-separator list |
| ColorInputProofs.RgbSetThenGet | pygame_menu/widgets/widget/colorinput.py:284-292 | for channels in 0..255, `set_value((r,g,b))` stores `r<sep>g<sep>b` with the cursor at the end and auto separators `[0, 1]`, and `get_value()` then returns `(r,g,b)` |
| ColorInputProofs.RgbSetValueAccepts | pygame_menu/widgets/widget/colorinput.py:274-290 | RGB `set_value` succeeds exactly for None, '' and a tuple of three channels in 0..255 |
| ColorInputProofs.SetValueEmpty | pygame_menu/widgets/widget/colorinput.py:274-297 | None and '' leave the cleared buffer ('' in RGB, '#' in HEX) with the cursor at its end, and keep the auto-separator list |
| ColorInputProofs.HexCheckShape | pygame_menu/widgets/widget/colorinput.py:307-317 | with the hash count checked, whatever HEX `set_value` accepts is '#' or '#' followed by six hex digits |
| ColorInputProofs.HexTextShape | pygame_menu/widgets/widget/colorinput.py:294-317 | (corrected) whatever the HEX branch accepts is '#' or '#' and six hex digits, and it is '#' followed by the hex digits of the stripped value in order, every other character dropped |
| ColorInputProofs.HexNormalises | pygame_menu/widgets/widget/colorinput.py:294-317 | (corrected) for any value: '' and '#' (after stripping) store '#'; the corrected check accepts any other value exactly when the kept characters are six hex digits, or '#' and six hex digits, and then stores '#' prepended to the kept characters when they have no '#', the kept characters otherwise, in both cases '#' followed by the value's hex digits in order; the code as written accepts exactly those and also seven kept characters with two or more '#', which it stores unchanged |
| ColorInputProofs.HexCheckAsWrittenAccepts | pygame_menu/widgets/widget/colorinput.py:307-317 | the check as written accepts a text other than '' and '#' exactly when the kept characters are six hex digits, '#' and six hex digits, or seven characters with two or more '#', and in the last case stores the kept characters unchanged |
| ColorInputProofs.HexCheckStores | pygame_menu/widgets/widget/colorinput.py:307-317 | (corrected) a text the corrected check accepts is stored as '#' followed by its hex digits, which is the kept characters with '#' prepended when they hold none |
| ColorInputProofs.HexDigitsOf | pygame_menu/widgets/widget/colorinput.py:299-304 | the hex digits of a string in order, a reference filter: no longer than the string, and only hex digits |
| ColorInputProofs.FilterThenDropHashes | pygame_menu/widgets/widget/colorinput.py:299-317 | removing '#' from the kept characters leaves exactly the hex digits of the text, in order |
| ColorInputProofs.HexTextAgrees | pygame_menu/widgets/widget/colorinput.py:294-317 | the HEX branch as written and corrected agree exactly on values without `ExtraHashes`; on those, the code as written stores the seven kept characters and the corrected one raises AssertionError |
| ColorInputProofs.SetValueAgrees | pygame_menu/widgets/widget/colorinput.py:267-320 | `set_value` as written and corrected agree except on a HEX value with `ExtraHashes`; there the code as written returns normally with a buffer that breaks the HEX invariant, and the corrected one leaves the state alone with AssertionError |
| ColorInputProofs.ExtraHashBreaks | pygame_menu/widgets/widget/colorinput.py:319-320 | a buffer with a '#' after its first character breaks the HEX invariant, whatever the letter-case format |
| ColorInputProofs.HexAcceptsSixDigits | pygame_menu/widgets/widget/colorinput.py:311-317 | six hex digits, with or without a leading '#', are stored as '#' and the six digits |
| ColorInputProofs.HexRoundTrip | pygame_menu/widgets/widget/colorinput.py:294-320 | setting the hex form of `(r,g,b)`, with or without '#', stores its formatted text, and `get_value()` then returns `(r,g,b)` |
| ColorInputProofs.HexPairsRead | pygame_menu/widgets/widget/colorinput.py:350-354 | the two-digit hex forms of three channels are six hex digits, and '#' followed by them reads back as those channels |
| ColorInputProofs.SetValueKeepsInvariant | pygame_menu/widgets/widget/colorinput.py:267-320 | (corrected) `set_value` with the hash count checked leaves a buffer that keeps its mode's invariant, with the cursor inside it, whatever it is given |
| ColorInputProofs.HexTwoHashes | pygame_menu/widgets/widget/colorinput.py:307-317 | '#', '#' and five hex digits pass the checks as written, after which `get_value` raises ValueError; with the hash count checked they are refused |
| ColorInputProofs.HexTwoHashesExample | pygame_menu/widgets/widget/colorinput.py:307-317 | the concrete input "##12345" for the point above |
| ColorInput.ColorInput.Clear | pygame_menu/widgets/widget/colorinput.py:259-265 | the state becomes the cleared one: empty buffer (HEX: '#'), cursor at its end, no auto separators; the widget stays `Valid()` |
| ColorInputProofs.ClearedState | pygame_menu/widgets/widget/colorinput.py:259-265 | the cleared buffer keeps the invariant and reads as `(-1,-1,-1)`, and it counts as changed exactly when the default is neither empty nor (HEX) '#' |
| ColorInputProofs.HexDefaultUnchanged | pygame_menu/widgets/widget/colorinput.py:322-326 | with hex format 'none' and a default of six hex digits, setting it with or without '#' counts as unchanged, and any other buffer counts as changed (with format 'lower' an upper-case default set again is stored in lower case and counts as changed) |
| ColorInput.ColorInput.ValueChanged | pygame_menu/widgets/widget/colorinput.py:322-326 | the widget's `value_changed()` is the specification's `ValueChanged` of its buffer and default |
| ColorInput.ColorInput.TypeCharacter | pygame_menu/widgets/widget/colorinput.py:470-475 | the superclass puts a valid character at the cursor and moves the cursor past it while the buffer is shorter than `maxchar` |
| ColorInput.ColorInput.TextInputUpdate | pygame_menu/widgets/widget/colorinput.py:550 | the superclass update: typing, Backspace and Delete as `SuperUpdate` states them |
| ColorInput.CheckRgbKey | pygame_menu/widgets/widget/colorinput.py:450-517 | (corrected) the loops of the RGB guard compute the verdict `RgbGuard` specifies, which also refuses a separator at cursor 0; outside `SeparatorFirst` this is the verdict of the code as written (`RgbGuardAsWritten`) |
| ColorInput.ScanSegmentStart | pygame_menu/widgets/widget/colorinput.py:495-500 | the backward scan finds the start of the segment the cursor is in |
| ColorInput.ScanSegmentEnd | pygame_menu/widgets/widget/colorinput.py:501-506 | the forward scan finds the end of that segment, or the length of the string when no separator follows |
| ColorInput.CheckDigit | pygame_menu/widgets/widget/colorinput.py:494-517 | the digit check on the segment computes `DigitVerdict` |
| ColorInputProofs.RgbDigitGuard | pygame_menu/widgets/widget/colorinput.py:494-517 | on a buffer longer than one character, a digit is refused exactly when its segment would exceed 255, would be a '0' typed before a number, or would be longer than 3 characters |
| ColorInputProofs.NumberVerdictOfDigits | pygame_menu/widgets/widget/colorinput.py:507-517 | the three number rules, stated on a segment of digits |
| ColorInputProofs.RgbSeparatorGuard | pygame_menu/widgets/widget/colorinput.py:477-490 | as written, a separator is refused on an empty buffer and on a buffer longer than one character that holds two separators; with the start check on the cursor, it is refused exactly at cursor 0 or with two separators present |
| ColorInputProofs.RgbRemovalGuard | pygame_menu/widgets/widget/colorinput.py:450-465 | Backspace or Delete next to a separator ends the update with True before anything changes, exactly when the source's condition holds |
| ColorInputProofs.HexGuardIff | pygame_menu/widgets/widget/colorinput.py:530-547 | a HEX key is stopped exactly for Backspace at cursor 1, Delete at cursor 0, or a valid character that is '#' or typed at cursor 0; a stop always returns True |
| ColorInputProofs.HexLeadingHashKept | pygame_menu/widgets/widget/colorinput.py:519-550 | a HEX buffer that starts with '#' still starts with it after any key |
| ColorInputProofs.UpdateKeepsInvariant | pygame_menu/widgets/widget/colorinput.py:428-596 | (corrected) with the start check on the cursor, `update` never raises and keeps the buffer invariant and the cursor inside the buffer |
| ColorInputProofs.RgbGuardNeverFails | pygame_menu/widgets/widget/colorinput.py:494-517 | the `int()` calls of the RGB guard never raise on a buffer of digits and separators |
| ColorInputProofs.SeparatorAtStart | pygame_menu/widgets/widget/colorinput.py:477-479 | as written, a separator typed at cursor 0 of a one-digit buffer is inserted, and the reset at lines 590-594 then raises ValueError; with the corrected check it is refused |
| ColorInputProofs.SeparatorAtStartExample | pygame_menu/widgets/widget/colorinput.py:590-594 | the concrete case: ',' typed at cursor 0 of "5" |
| ColorInputProofs.RgbGuardAgrees | pygame_menu/widgets/widget/colorinput.py:477-490 | the RGB guard as written and corrected give the same verdict exactly outside `SeparatorFirst`; there the code as written proceeds and the corrected one stops with False |
| ColorInputProofs.UpdateAgrees | pygame_menu/widgets/widget/colorinput.py:428-596 | `update` as written and corrected agree outside `SeparatorFirst`; there the corrected one leaves the state alone and returns False, and the code as written goes on through the superclass and the repairs |
| ColorInputProofs.SeparatorFirstExample | pygame_menu/widgets/widget/colorinput.py:477-490 | ',' typed at cursor 0 of "12": as written the buffer becomes ",12" with the cursor at 1 and True is returned, nothing raising; corrected, the state stays and False is returned |
| ColorInputProofs.OverflowReverts | pygame_menu/widgets/widget/colorinput.py:567-574 | when a channel exceeds 255 after the keystroke, buffer and cursor return to their values before it; otherwise they stay. In both cases an auto separator may be appended at the end |
| ColorInput.ScanChannels | pygame_menu/widgets/widget/colorinput.py:569-574 | the loop over the channels decides overflow as `ChannelsOverflow` does |
| ColorInputProofs.AutoSeparatorText | pygame_menu/widgets/widget/colorinput.py:579-588 | the auto separator either leaves buffer and cursor alone, or appends one separator at the end, only with fewer than two separators, the cursor at the end and a non-empty last channel |
| ColorInputProofs.AutoSeparatorRecord | pygame_menu/widgets/widget/colorinput.py:576-594 | for k the index of the last channel, the separator is appended exactly when fewer than two separators were there, the cursor is at the end, channel k is complete and k is not yet in the list; k is then appended to the list and the cursor is at the end; otherwise the buffer stays and the list stays or is emptied |
| ColorInputProofs.ResetKeeps | pygame_menu/widgets/widget/colorinput.py:590-594 | the reset of the auto separators keeps buffer and cursor, keeps the list or empties it, and keeps everything once the buffer is longer than two characters |
| ColorInput.ColorInput.AddAutoSeparator | pygame_menu/widgets/widget/colorinput.py:576-594 | the auto-separator and reset steps meet `AutoSeparator` |
| ColorInput.ColorInput.RepairChannels | pygame_menu/widgets/widget/colorinput.py:567-594 | the repairs after the superclass update meet `CheckChannels` and keep the widget `Valid()` |
| ColorInputProofs.UpdateAutoSeparators | pygame_menu/widgets/widget/colorinput.py:576-594 | each update records a channel index only when it is not already in the list, or sets the list to `[0, 1]` or empties it; a list without repeats keeps none; HEX updates leave it alone |
| ColorInputProofs.UpdateKeepsThreeChannels | pygame_menu/widgets/widget/colorinput.py:481-490 | an RGB buffer with at most two separators still has at most two after any key |
| ColorInputProofs.PushAtEnd | pygame_menu/widgets/widget/colorinput.py:559-565 | a separator pushed with the cursor at the end lands at the end of the buffer, or nothing changes when the buffer is full |
| ColorInput.ColorInput.UpdateRgb | pygame_menu/widgets/widget/colorinput.py:440-596 | (corrected) the RGB update meets the specification's `Update` and keeps the widget `Valid()`; outside `SeparatorFirst` it also meets `UpdateAsWritten` |
| ColorInput.ColorInput.UpdateRgbAccepted | pygame_menu/widgets/widget/colorinput.py:550-596 | once the guards let a key through: the superclass update, the zero push and the repairs meet `UpdateWith` with verdict Proceed, and the widget stays `Valid()` |
| ColorInput.ColorInput.UpdateHex | pygame_menu/widgets/widget/colorinput.py:519-550 | the HEX update meets the specification's `Update` and keeps the widget `Valid()` |
| ColorInput.ColorInput.Update | pygame_menu/widgets/widget/colorinput.py:428-596 | (corrected) one keystroke changes buffer, cursor and auto-separator list exactly as the specification's `Update` says, and leaves a `Valid()` widget; outside `SeparatorFirst` this is also what the code as written does (`UpdateAsWritten`) |
| PyText.JoinSplit | pygame_menu/widgets/widget/colorinput.py:344 | joining the split parts gives back the string |
| PyText.SplitJoin | pygame_menu/widgets/widget/colorinput.py:344 | splitting parts without the separator joined by it gives back the parts |
| PyText.ParseNatToString | pygame_menu/widgets/widget/colorinput.py:346 | `int(str(n)) == n` |
| PyText.CanonicalNumeral | pygame_menu/widgets/widget/colorinput.py:514 | `str(int(num)) == num` exactly when the numeral has one digit or no leading zero |
| PyText.StripSpec | pygame_menu/widgets/widget/colorinput.py:295 | `strip()` returns a contiguous piece of the string with only white space around it, and neither end of it is white space |
| PyText.ParseHexPairOf | pygame_menu/widgets/widget/colorinput.py:353 | `int(pair, 16)` reads back the two hex digits of a channel |
| PyText.HexDigitCase | pygame_menu/widgets/widget/colorinput.py:424-426 | lower- or upper-casing a hex digit keeps its value |
| SelectionEffects.InflateGrows | test/test_selection.py:116-120 | the inflated rectangle starts `left` and `top` earlier and is wider by `get_width()` and taller by `get_height()` |
| SelectionEffects.InflateIdentity | test/test_selection.py:142-144 | `inflate` returns the same rectangle exactly when every margin is zero |
| SelectionEffects.InflateContains | test/test_selection.py:116-120 | with margins that are not negative, the inflated rectangle contains the original |
| SelectionEffects.InflateCentred | test/test_selection.py:116-120 | equal margins on opposite sides, as a highlight has, keep the centre of the rectangle (in doubled coordinates): the corner moves out by half of the width and height the inflate adds |
| SelectionEffects.HighlightShift | test/test_selection.py:100-120 | a highlight built from even margins x and y has width x and height y, and inflating moves the corner by half of each |
| SelectionEffects.MarginXYShape | test/test_selection.py:123-127 | the margins `margin_xy(x, y)` sets give width 2x and height 2y and keep the centre of an inflated rectangle |
| SelectionEffects.PlainEffectsInflateNothing | test/test_selection.py:162-164 | an effect with zero margins, like None and Simple, inflates a rectangle to itself |
| SelectionEffects.Effect.Abstract | test/test_selection.py:73-74 | the abstract `Selection` keeps the four margins it is given |
| SelectionEffects.Effect.Arrow | test/test_selection.py:77-78 | the abstract `ArrowSelection` keeps the four margins it is given |
| SelectionEffects.Effect.ArrowSide | test/test_selection.py:85-88 | a left or right arrow keeps the margins it is given |
| SelectionEffects.Effect.NoneSelection | test/test_selection.py:138-145 | `NoneSelection()` has no margins and does not apply the font colour |
| SelectionEffects.Effect.SimpleSelection | test/test_selection.py:158-165 | `SimpleSelection()` has no margins and applies the font colour |
| SelectionEffects.Effect.HighlightSelection | test/test_selection.py:100-114 | `HighlightSelection(border, x, y)` puts half of each margin on either side, keeps the border, and reports width x and height y |
| SelectionEffects.Effect.MarginXY | test/test_selection.py:123-127 | `margin_xy(x, y)` sets left and right to x and top and bottom to y, keeps the border width, and leaves a `Valid()` effect exactly when x and y are not negative |
| SelectionEffects.Effect.GetWidth | test/test_selection.py:113-119 | `get_width()` is how much wider `inflate` makes any rectangle, and is not negative on a `Valid()` effect |
| SelectionEffects.Effect.GetHeight | test/test_selection.py:113-120 | `get_height()` is how much taller `inflate` makes any rectangle, and is not negative on a `Valid()` effect |
| SelectionEffects.Effect.Inflate | test/test_selection.py:116-120 | `inflate(rect)` moves the corner out by the left and top margins and grows the size by both margins of each axis; on a `Valid()` effect the result contains the rectangle, and it equals the rectangle exactly when every margin is zero |
| SelectionEffects.Effect.Copy | test/test_selection.py:58-64 | a copy is a new object, different from the original, with the same kind, margins, border and font-colour flag, and is `Valid()` exactly when the original is |
| SelectionEffects.Effect.Clone | test/test_selection.py:58-64 | the object a copy builds has the settings of the one it copies |
| SelectionEffects.Effect.Draw | test/test_selection.py:73-78 | `draw` ends in NotImplementedError exactly for the abstract `Selection` and `ArrowSelection` |
| SelectionEffects.Widget.constructor | test/test_selection.py:147 | a widget starts with a new, `Valid()` None effect |
| SelectionEffects.Widget.GetSelectionEffect | test/test_selection.py:112 | `get_selection_effect()` is the object in the widget's slot, the one `SetSelectionEffect` states it installs |
| SelectionEffects.Widget.SetSelectionEffect | test/test_selection.py:147-151 | setting an effect installs it; setting none installs a new None effect, a different object from the previous one |

The specification functions in `ColorInputSpec` carry no contracts of their own beyond simple bounds. What they promise is stated by the lemmas above and by the class methods proved against them.

## Left out

- The `TextInput` superclass is not part of this model. It is assumed to behave as follows:
  - a character in `_valid_chars` is inserted at the cursor while the buffer is shorter than `maxchar` (11 RGB, 7 HEX), and the cursor moves past it;
  - Backspace removes the character before the cursor and Delete the one at it;
  - other keys change nothing;
  - `set_value` stores the text with the cursor at its end;
  - `clear` empties the buffer;
  - `_push_key_input` types a character like a key;
  - its `update` returns True when buffer or cursor changed.
- Event decoding is reduced to one key per `update`, so a list of events is one `Key`. Also left out: `check_key_pressed_valid`, `readonly`, visibility, `_keyboard_enabled`, update callbacks, sounds and `change()`.
- Drawing is left out: `_draw`, `_render`, `_apply_font`, the previsualisation surface, and the width factors and margins used for it. These are rendering, with floating-point sizes.
- The types of the colour argument and of the constructor's parameters (`isinstance` assertions) are left out. A colour is modelled as None, a string or a tuple of integers. Only the value assertions are modelled.
- Python `int()` on signs or white space is left out. The model's `ParseInt` reads digit strings only and raises ValueError otherwise, and `ParseHexPair` (for `int(x, 16)`) reads two hex digits only and raises ValueError otherwise; Python would also accept a pair such as ' 1', '1 ', '+1' or '-1'. An RGB buffer holds digits and separators only, and a HEX buffer hex digits and '#' only, so a sign or white space cannot reach either call.
- ColorInputProofs.HexGetValue: its ValueError clause follows `ParseHexPair`, so it matches Python only on buffers of hex digits and '#', the only ones a HEX buffer can hold; "# 1 2 3" would read as (1,2,3) in Python.
- ColorInputProofs.RgbRemovalGuard: stated only for separators other than the Backspace and Delete control characters (U+0008, U+007F). There `str(event.unicode)` of the removal key would also equal the separator, and the lemma's simple form does not hold.
- `str.lower` / `str.upper` are modelled on ASCII letters only.
- `get_value(as_string=True)` is modelled only where `value_changed` uses it: as the buffer itself.
- The constructor's `default` is left out. In the source the superclass `set_default_value` applies it later, so the model starts from an empty buffer and takes the default only for `value_changed`.
- SelectionEffects.Effect.HighlightSelection: requires even margins. The test fixes the half-margin shift only for 18 and 10, and how odd margins are rounded is not visible.
- ColorInput.HexColorText: corrected, not the code as written. A value with `ExtraHashes`, such as "##12345", raises AssertionError here, where lines 307-317 store it. The ensures states agreement with the code as written on every other value.
- ColorInput.ColorInput.SetValue: corrected in the HEX branch. "##12345" raises AssertionError and leaves the state alone here; the source stores it, which breaks the HEX buffer invariant so that `get_value` then raises ValueError. The RGB branch is the code as written. The second difference of the model, a separator at cursor 0, does not concern `set_value`.
- ColorInput.ColorInput.SetHexValue: corrected as `SetValue` is: "##12345" raises AssertionError here and is stored by the source. On every value without `ExtraHashes` the ensures states the step of the code as written.
- ColorInputProofs.HexTextShape: proved for the corrected HEX branch. As written, "##12345" is also accepted, and the stored text then is neither '#' nor '#' and six hex digits.
- ColorInputProofs.HexNormalises: its acceptance and stored-text clauses are about the corrected check. As written, "##12345" (seven kept characters, two '#') is also accepted and stored as "##12345", not as '#' and its hex digits; the lemma states this as-written half in its last three ensures.
- ColorInputProofs.HexCheckStores: proved for the corrected check only. As written, "##12345" is accepted and stored unchanged (`HexCheckAsWrittenAccepts`).
- ColorInputProofs.SetValueKeepsInvariant: proved for the corrected `set_value`. As written, "##12345" is stored and breaks the HEX invariant (`SetValueAgrees` states this).
- ColorInput.CheckRgbKey: corrected, not the code as written. A separator typed at cursor 0 of a non-empty buffer is refused with False here. The source lets it through when the buffer has one character (the reset then raises ValueError, e.g. "5") or has fewer than two separators (it is inserted with no error, e.g. "12" becomes ",12"). The HEX difference ("##12345") does not concern this guard.
- ColorInput.ColorInput.UpdateRgb: corrected as `CheckRgbKey` is: at cursor 0 of "12" a ',' is refused here (False, state unchanged) and inserted by the source (",12", True); at cursor 0 of "5" it is refused here and ends in ValueError in the source. Outside `SeparatorFirst` the ensures states the code as written.
- ColorInput.ColorInput.Update: corrected as `UpdateRgb` is, for the same two inputs; HEX keystrokes are the code as written. The HEX `set_value` difference ("##12345") reaches `update` only through a buffer the corrected model never stores.
- ColorInputProofs.UpdateKeepsInvariant: proved for the corrected `update`. As written, ',' at cursor 0 of "5" raises ValueError (`SeparatorAtStart`), and a buffer stored by the as-written `set_value("##12345")` already breaks the invariant.
- SelectionEffects.Effect: `Valid()` (no negative margin) is established by the None and Simple constructors and stated as an if-and-only-if for the others and for `MarginXY`. The constructors do not require it, because the implementation of the effects is not part of this model and the test does not show whether negative margins are refused.
- The selection-effect implementation file is not part of this model. The effects are modelled only as far as the test asserts. The following are left out because the test does not fix them:
  - arrow glyph geometry and the default margins of arrows;
  - the `widget_apply_font_color` of the abstract, highlight and arrow effects (taken as true);
  - the drawing of a highlight border, including border width 0 (rendering);
  - `menu.draw`.
- `test/test_font.py` is left out: it loads font files through pygame and has no logic to model.

## Findings

| source | as written | input that shows it | evidently intended | confidence | as-written member | corrected member |
|---|---|---|---|---|---|---|
| pygame_menu/widgets/widget/colorinput.py:307-317 | HEX `set_value` checks the position of '#' only when there is exactly one, so text with two or more '#' passes whenever it has 7 characters; `get_value` then raises ValueError on `int('#1', 16)` | `set_value('##12345')` | only `#RRGGBB` or `RRGGBB` is accepted (the message at line 316), so a second '#' is refused by the assertion | not executed | ColorInputProofs.HexTwoHashesExample | ColorInputProofs.HexCheckShape |
| pygame_menu/widgets/widget/colorinput.py:477-490 | the "cannot be separator at first" check looks at the buffer length, not at the cursor, so a separator typed at cursor 0 of a non-empty buffer is inserted when the buffer has one character, or more characters and fewer than two separators; with one character the reset at line 593 then calls `int('')` and raises ValueError, with "12" the buffer silently becomes ",12" (`SeparatorFirstExample`) | buffer "5", cursor 0, key ',' (ValueError); buffer "12", cursor 0, key ',' (",12") | a separator is never typed at the start (the comment at line 477), as the check does when the cursor is at 0 | not executed | ColorInputProofs.SeparatorAtStartExample | ColorInputProofs.UpdateKeepsInvariant |

The rest of the model uses the corrected definitions: `HexCheck` refuses a second '#', and `RgbGuard` refuses a separator at cursor 0. The as-written ones stay beside them, and `HexTextAgrees`, `SetValueAgrees`, `RgbGuardAgrees` and `UpdateAgrees` state exactly where the two differ. Each member that follows the corrected definitions is marked "(corrected)" in the table and has its own line under Left out.
