/**
 * The value logic of the colour input widget (pygame_menu/widgets/widget/colorinput.py),
 * stated as functions of the widget's configuration and of its three pieces of state:
 * the text buffer, the cursor and the list of auto-separator positions.
 *
 * The widget class in module ColorInput is proved against these functions.
 */
module ColorInputSpec {
  import opened PyText

  datatype ColorType = Rgb | Hex

  datatype HexFormat = FormatLower | FormatNone | FormatUpper

  /** What the constructor fixes: colour type, hex letter case and RGB channel separator. */
  datatype Config = Config(colorType: ColorType, hexFormat: HexFormat, separator: char)
  {
    /** The constructor's assertions: the separator is one character and not a digit. */
    predicate WellFormed()
    {
      !IsDigit(separator)
    }
  }

  /** The characters a HEX widget accepts. */
  const HexAlphabet: seq<char> :=
    ['a', 'A', 'b', 'B', 'c', 'C', 'd', 'D', 'e', 'E', 'f', 'F', '#',
     '0', '1', '2', '3', '4', '5', '6', '7', '8', '9']

  /** `_valid_chars` as the constructor sets it. */
  function ValidChars(cfg: Config): seq<char>
  {
    match cfg.colorType
    case Rgb => ['0', '1', '2', '3', '4', '5', '6', '7', '8', '9', cfg.separator]
    case Hex => HexAlphabet
  }

  /** Membership in `_valid_chars`, decided by character class (ColorInputProofs.ValidCharsMembership relates the two). */
  predicate IsValidChar(cfg: Config, ch: char)
  {
    match cfg.colorType
    case Rgb => IsDigit(ch) || ch == cfg.separator
    case Hex => IsHexDigit(ch) || ch == '#'
  }

  /** The characters of `s` that belong to the HEX alphabet, in order (the filtering loop of `set_value`). */
  function HexFilter(s: string): (r: string)
    ensures |r| <= |s|
    ensures forall i :: 0 <= i < |r| ==> IsHexDigit(r[i]) || r[i] == '#'
  {
    if s == [] then [] else (if IsHexDigit(s[0]) || s[0] == '#' then [s[0]] else []) + HexFilter(s[1..])
  }

  /** `maxchar` as the constructor passes it on: "RRR,GGG,BBB" or "#XXYYZZ". */
  function MaxChar(cfg: Config): nat
  {
    match cfg.colorType
    case Rgb => 11
    case Hex => 7
  }

  datatype Color = Color(r: int, g: int, b: int)

  /** The value `get_value` returns for a buffer that is not a colour. */
  const Invalid: Color := Color(-1, -1, -1)

  /** The exceptions the widget's code can raise. */
  datatype PyError = ValueError | AssertionError

  /** A Python call either returns a value or raises. */
  datatype Outcome<T> = Returns(value: T) | Raises(error: PyError)

  /** The widget's state: `_input_string`, `_cursor_position`, `_auto_separator_pos`. */
  datatype TextState = TextState(text: string, cursor: nat, autoSep: seq<int>)

  /** What a state-changing call returns (or raises) and the state it leaves behind. */
  datatype Step<T> = Step(result: Outcome<T>, state: TextState)

  /** What each mode's buffer can hold: digits and separators, or a leading '#' and at most six hex digits. */
  predicate BufferInvariant(cfg: Config, s: string)
  {
    match cfg.colorType
    case Rgb => forall i :: 0 <= i < |s| ==> IsDigit(s[i]) || s[i] == cfg.separator
    case Hex => s == [] || (s[0] == '#' && |s| <= 7 && forall i :: 1 <= i < |s| ==> IsHexDigit(s[i]))
  }

  // ---------------------------------------------------------------------------
  // get_value, is_valid, value_changed, _format_hex
  // ---------------------------------------------------------------------------

  /** `get_value()`: the buffer read back as a colour, `Invalid` when it is not one. */
  function GetValue(cfg: Config, s: string): Outcome<Color>
  {
    match cfg.colorType
    case Rgb =>
      var parts := Split(s, cfg.separator);
      if |parts| == 3 && parts[0] != [] && parts[1] != [] && parts[2] != [] then
        match (ParseInt(parts[0]), ParseInt(parts[1]), ParseInt(parts[2]))
        case (Some(r), Some(g), Some(b)) =>
          // the source checks the green channel twice and never the blue one
          if 0 <= r <= 255 && 0 <= g <= 255 && 0 <= g <= 255 then Returns(Color(r, g, b)) else Returns(Invalid)
        case _ => Raises(ValueError)
      else
        Returns(Invalid)
    case Hex =>
      if |s| == 7 then
        match (ParseHexPair(s[1..3]), ParseHexPair(s[3..5]), ParseHexPair(s[5..7]))
        case (Some(r), Some(g), Some(b)) => Returns(Color(r, g, b))
        case _ => Raises(ValueError)
      else
        Returns(Invalid)
  }

  /** `is_valid()`: no channel of `get_value()` is -1. */
  function IsValid(cfg: Config, s: string): Outcome<bool>
  {
    match GetValue(cfg, s)
    case Returns(c) => Returns(!(c.r == -1 || c.g == -1 || c.b == -1))
    case Raises(e) => Raises(e)
  }

  /** `value_changed()`: the buffer differs from the default, which in HEX mode gains a '#'. */
  function ValueChanged(cfg: Config, s: string, default: string): bool
  {
    var d := if cfg.colorType == Hex && '#' !in default then "#" + default else default;
    s != d
  }

  /** `_format_hex()`: the buffer after the HEX letter-case rule. */
  function FormatHex(cfg: Config, s: string): (r: string)
    ensures |r| == |s|
  {
    if cfg.colorType != Hex || cfg.hexFormat == FormatNone then s
    else if cfg.hexFormat == FormatLower then Lower(s)
    else Upper(s)
  }

  // ---------------------------------------------------------------------------
  // set_value and clear
  // ---------------------------------------------------------------------------

  /** The argument of `set_value`: None, a string or a tuple of integers. */
  datatype ColorArg = NoColor | Text(s: string) | Tuple(items: seq<int>)

  function JoinInts(items: seq<int>): string
    requires items != []
  {
    if |items| == 1 then IntToString(items[0]) else IntToString(items[0]) + ", " + JoinInts(items[1..])
  }

  /** Python's `str(color)` after `None` has become `''`. */
  function ColorStr(color: ColorArg): string
  {
    match color
    case NoColor => ""
    case Text(s) => s
    case Tuple(items) =>
      if items == [] then "()"
      else if |items| == 1 then "(" + IntToString(items[0]) + ",)"
      else "(" + JoinInts(items) + ")"
  }

  predicate IsChannel(n: int) { 0 <= n <= 255 }

  /** "r<sep>g<sep>b", the text an RGB `set_value((r, g, b))` stores. */
  function RgbString(r: nat, g: nat, b: nat, sep: char): string
  {
    NatToString(r) + [sep] + NatToString(g) + [sep] + NatToString(b)
  }

  /** The RGB branch of `set_value`: the empty value, or a tuple of three channels. */
  function RgbSetText(cfg: Config, color: ColorArg): Outcome<string>
  {
    match color
    case NoColor => Returns([])
    case Text(s) => if s == [] then Returns([]) else Raises(AssertionError)
    case Tuple(items) =>
      if |items| == 3 && IsChannel(items[0]) && IsChannel(items[1]) && IsChannel(items[2])
      then Returns(RgbString(items[0], items[1], items[2], cfg.separator))
      else Raises(AssertionError)
  }

  /**
   * The HEX format check of `set_value` as the source writes it, on the stripped text:
   * keep the hex alphabet, insist on a leading '#' when there is exactly one, prepend
   * '#' when there is none, and demand seven characters. Two or more '#' pass unchecked.
   */
  function HexCheckAsWritten(text: string): Outcome<string>
  {
    if text == [] || text == "#" then Returns("#")
    else
      var valid := HexFilter(text);
      var hashes := Count(valid, '#');
      if hashes == 1 && valid[0] != '#' then Raises(AssertionError)
      else
        var full := if hashes == 0 then "#" + valid else valid;
        if |full| == 7 then Returns(full) else Raises(AssertionError)
  }

  /** The HEX format check with the format completed: more than one '#' is refused too. */
  function HexCheck(text: string): Outcome<string>
  {
    if text != [] && text != "#" && Count(HexFilter(text), '#') >= 2 then Raises(AssertionError)
    else HexCheckAsWritten(text)
  }

  /** The HEX branch of `set_value` as the source writes it: `str(color).strip()`, then the format check. */
  function HexTextAsWritten(color: ColorArg): Outcome<string>
  {
    HexCheckAsWritten(Strip(ColorStr(color)))
  }

  /** The HEX branch of `set_value` with the corrected format check. */
  function HexText(color: ColorArg): Outcome<string>
  {
    HexCheck(Strip(ColorStr(color)))
  }

  /**
   * The values on which the HEX format check as written and the corrected one part ways:
   * seven characters after stripping and filtering, two or more of them '#'.
   */
  predicate ExtraHashes(color: ColorArg)
  {
    var t := Strip(ColorStr(color));
    t != [] && t != "#" && Count(HexFilter(t), '#') >= 2 && |HexFilter(t)| == 7
  }

  /** A checked HEX text after `_format_hex`, or the assertion it failed. */
  function Formatted(cfg: Config, checked: Outcome<string>): Outcome<string>
  {
    match checked
    case Returns(t) => Returns(FormatHex(cfg, t))
    case Raises(e) => Raises(e)
  }

  /** The text `set_value(color)` leaves in the buffer (after `_format_hex`), or the assertion it fails. */
  function SetValueText(cfg: Config, color: ColorArg): Outcome<string>
  {
    match cfg.colorType
    case Rgb => RgbSetText(cfg, color)
    case Hex => Formatted(cfg, HexText(color))
  }

  /** The same as the source writes it: the HEX format check lets two or more '#' through. */
  function SetValueTextAsWritten(cfg: Config, color: ColorArg): Outcome<string>
  {
    match cfg.colorType
    case Rgb => RgbSetText(cfg, color)
    case Hex => Formatted(cfg, HexTextAsWritten(color))
  }

  /** The state `set_value(color)` leaves once its text is known: the cursor at the end; an RGB tuple resets the auto separators to [0, 1]. */
  function StoreText(cfg: Config, st: TextState, color: ColorArg, text: Outcome<string>): Step<()>
  {
    match text
    case Raises(e) => Step(Raises(e), st)
    case Returns(t) =>
      Step(Returns(()), TextState(t, |t|, if cfg.colorType == Rgb && color.Tuple? then [0, 1] else st.autoSep))
  }

  /** `set_value(color)` with the corrected HEX format check. */
  function SetValueSpec(cfg: Config, st: TextState, color: ColorArg): Step<()>
  {
    StoreText(cfg, st, color, SetValueText(cfg, color))
  }

  /** `set_value(color)` as the source writes it. */
  function SetValueSpecAsWritten(cfg: Config, st: TextState, color: ColorArg): Step<()>
  {
    StoreText(cfg, st, color, SetValueTextAsWritten(cfg, color))
  }

  /** `clear()`: an empty buffer, or "#" in HEX mode, and no auto separators. */
  function Cleared(cfg: Config): TextState
  {
    var t := if cfg.colorType == Hex then "#" else "";
    TextState(t, |t|, [])
  }

  // ---------------------------------------------------------------------------
  // One key press: the TextInput superclass
  // ---------------------------------------------------------------------------

  /** A key press: a character typed, or the backspace and delete keys. */
  datatype Key = Typed(ch: char) | Backspace | Delete

  /** `str(event.unicode)` of the key. */
  function KeyChar(key: Key): char
  {
    match key
    case Typed(ch) => ch
    case Backspace => '\U{8}'
    case Delete => '\U{7F}'
  }

  /** The buffer with `ch` inserted at the cursor (`new_string`). */
  function Insert(s: string, c: nat, ch: char): (t: string)
    requires c <= |s|
    ensures |t| == |s| + 1 && t[c] == ch
    ensures forall i :: 0 <= i < c ==> t[i] == s[i]
    ensures forall i :: c < i < |t| ==> t[i] == s[i - 1]
  {
    s[..c] + [ch] + s[c..]
  }

  /** The superclass typing a character: a valid character goes in at the cursor while the buffer is below `maxchar`. */
  function TypeChar(cfg: Config, st: TextState, ch: char): (st': TextState)
    requires st.cursor <= |st.text|
    ensures st'.cursor <= |st'.text| && st'.autoSep == st.autoSep
  {
    if IsValidChar(cfg, ch) && |st.text| < MaxChar(cfg)
    then st.(text := Insert(st.text, st.cursor, ch), cursor := st.cursor + 1)
    else st
  }

  /** The superclass's handling of a key: typing, deleting left of the cursor, deleting at the cursor. */
  function SuperUpdate(cfg: Config, st: TextState, key: Key): (st': TextState)
    requires st.cursor <= |st.text|
    ensures st'.cursor <= |st'.text| && st'.autoSep == st.autoSep
  {
    var s, c := st.text, st.cursor;
    match key
    case Typed(ch) => TypeChar(cfg, st, ch)
    case Backspace => if c > 0 then st.(text := s[..c - 1] + s[c..], cursor := c - 1) else st
    case Delete => if c < |s| then st.(text := s[..c] + s[c + 1..]) else st
  }

  /** `_push_key_input(separator)`: the superclass typing the separator. */
  function PushSeparator(cfg: Config, st: TextState): (st': TextState)
    requires st.cursor <= |st.text|
    ensures st'.cursor <= |st'.text| && st'.autoSep == st.autoSep
  {
    TypeChar(cfg, st, cfg.separator)
  }

  // ---------------------------------------------------------------------------
  // One key press: the guards of `update`
  // ---------------------------------------------------------------------------

  /** What a guard decides: let the superclass handle the key, return early, or raise. */
  datatype Verdict = Proceed | Stop(updated: bool) | Fail(error: PyError)

  /** Python's `s[i]`, where a negative index counts from the end. */
  function PyIndex(s: string, i: int): char
    requires -|s| <= i < |s|
  {
    if i < 0 then s[|s| + i] else s[i]
  }

  /** Whether the buffer holds two separators in a row. */
  predicate HasDoubleSeparator(s: string, sep: char)
  {
    exists i :: 0 <= i < |s| - 1 && s[i] == sep && s[i + 1] == sep
  }

  /** The RGB rule that refuses to delete a separator with backspace or delete. */
  predicate RemovalBlocked(sep: char, s: string, c: nat, key: Key)
    requires c <= |s|
  {
    && |s| > 0 && |s| > c
    && (!HasDoubleSeparator(s, sep) || (s[c] == sep && |s| == c + 1))
    && match key
       case Backspace => |s| >= 1 && PyIndex(s, c - 1) == sep
       case Delete => s[c] == sep
       case Typed(_) => false
  }

  /** Where the channel holding position c starts: just after the nearest separator left of c, else 0. */
  function SegmentStart(t: string, c: nat, sep: char): (p: nat)
    requires c <= |t|
    ensures p <= c && sep !in t[p..c]
    ensures p == 0 || t[p - 1] == sep
  {
    if c == 0 then 0
    else if t[c - 1] == sep then c
    else
      var p := SegmentStart(t, c - 1, sep);
      assert t[p..c] == t[p..c - 1] + [t[c - 1]];
      p
  }

  /** The first separator at or after position c. */
  function SeparatorFrom(t: string, c: nat, sep: char): (r: Option<nat>)
    requires c <= |t|
    ensures r.Some? ==> c <= r.value < |t| && t[r.value] == sep && sep !in t[c..r.value]
    ensures r.None? ==> sep !in t[c..]
    decreases |t| - c
  {
    if c == |t| then None
    else if t[c] == sep then Some(c)
    else
      var r := SeparatorFrom(t, c + 1, sep);
      assert r.Some? ==> t[c..r.value] == [t[c]] + t[c + 1..r.value];
      assert r.None? ==> t[c..] == [t[c]] + t[c + 1..];
      r
  }

  /** Where the channel holding position c ends: the first separator at or after c, else the end (a hit at 0 also counts as the end). */
  function SegmentEnd(t: string, c: nat, sep: char): (p: nat)
    requires c <= |t|
    ensures c <= p <= |t|
  {
    match SeparatorFrom(t, c, sep)
    case None => |t|
    case Some(j) => if j == 0 then |t| else j
  }

  /** The checks on the channel the typed digit lands in: at most 255, no new leading zero, at most three digits. */
  function NumberVerdict(segment: string, k: char): Verdict
  {
    var stripped := RemoveAll(segment, ',');
    var num := if stripped == [] then "0" else stripped;
    match ParseInt(num)
    case None => Fail(ValueError)
    case Some(v) =>
      if v > 255 then Stop(false)
      else if num != NatToString(v) && k == '0' then Stop(false)
      else if |num| > 3 then Stop(false)
      else Proceed
  }

  /** The channel check for a digit `k` typed at cursor c, on `new_string` t. */
  function DigitVerdict(t: string, c: nat, k: char, sep: char): Verdict
    requires c <= |t|
  {
    var before := SegmentStart(t, c, sep);
    var after := SegmentEnd(t, c, sep);
    NumberVerdict(t[before..after], k)
  }

  /** The RGB guards of `update` as the source writes them. */
  function RgbGuardAsWritten(cfg: Config, s: string, c: nat, key: Key): Verdict
    requires c <= |s|
  {
    var sep := cfg.separator;
    var k := KeyChar(key);
    if RemovalBlocked(sep, s, c, key) then Stop(true)
    else if !IsValidChar(cfg, k) then Proceed
    else if |s| == 0 && k == sep then Stop(false)
    else if |s| > 1 && k == sep then (if Count(s, sep) >= 2 then Stop(false) else Proceed)
    else if |s| > 1 then DigitVerdict(Insert(s, c, k), c, k, sep)
    else Proceed
  }

  /** The RGB guards with "cannot be separator at first" applied to the cursor position rather than to the empty buffer. */
  function RgbGuard(cfg: Config, s: string, c: nat, key: Key): Verdict
    requires c <= |s|
  {
    if !RemovalBlocked(cfg.separator, s, c, key) && KeyChar(key) == cfg.separator && c == 0 then Stop(false)
    else RgbGuardAsWritten(cfg, s, c, key)
  }

  /**
   * The key presses on which the RGB guard as written and the corrected one part ways:
   * the separator typed at cursor 0 of a buffer that is not empty, when the count check
   * at lines 481-490 does not refuse it already.
   */
  predicate SeparatorFirst(cfg: Config, s: string, c: nat, key: Key)
    requires c <= |s|
  {
    && cfg.colorType == Rgb && KeyChar(key) == cfg.separator && c == 0
    && !RemovalBlocked(cfg.separator, s, c, key)
    && s != [] && (|s| == 1 || Count(s, cfg.separator) < 2)
  }

  /** The HEX guards of `update`: the leading '#' can be neither deleted, nor typed, nor pushed right. */
  function HexGuard(cfg: Config, c: nat, key: Key): Verdict
  {
    if key == Backspace && c == 1 then Stop(true)
    else if key == Delete && c == 0 then Stop(true)
    else if IsValidChar(cfg, KeyChar(key)) && (KeyChar(key) == '#' || c == 0) then Stop(true)
    else Proceed
  }

  function Guard(cfg: Config, st: TextState, key: Key): Verdict
    requires st.cursor <= |st.text|
  {
    match cfg.colorType
    case Rgb => RgbGuard(cfg, st.text, st.cursor, key)
    case Hex => HexGuard(cfg, st.cursor, key)
  }

  function GuardAsWritten(cfg: Config, st: TextState, key: Key): Verdict
    requires st.cursor <= |st.text|
  {
    match cfg.colorType
    case Rgb => RgbGuardAsWritten(cfg, st.text, st.cursor, key)
    case Hex => HexGuard(cfg, st.cursor, key)
  }

  // ---------------------------------------------------------------------------
  // One key press: the repairs after the superclass update (RGB mode)
  // ---------------------------------------------------------------------------

  /** Whether typing '0' at the end of a new channel calls for a separator (colorinput.py:560-564). */
  predicate ZeroNeedsSeparator(sep: char, total: nat, st: TextState, k: char)
    requires st.cursor <= |st.text|
  {
    && k == '0' && |st.text| == st.cursor && total < 2
    && (|st.text| == 1 || (|st.text| > 2 && st.text[st.cursor - 2] == sep))
  }

  /** Whether some channel exceeds 255, scanning in order; an unparsable channel raises first. */
  function ChannelsOverflow(colors: seq<string>): Outcome<bool>
  {
    if colors == [] then Returns(false)
    else if colors[0] == [] then ChannelsOverflow(colors[1..])
    else
      match ParseInt(colors[0])
      case None => Raises(ValueError)
      case Some(v) => if v > 255 then Returns(true) else ChannelsOverflow(colors[1..])
  }

  /** Whether the last channel can no longer grow: two digits above 25, or three digits. */
  function ChannelComplete(last: string): Outcome<bool>
  {
    if |last| == 2 then
      match ParseInt(last)
      case None => Raises(ValueError)
      case Some(v) => Returns(v > 25)
    else if |last| == 3 then
      match ParseInt(last)
      case None => Raises(ValueError)
      case Some(v) => Returns(v <= 255)
    else Returns(false)
  }

  /** The final rule: a buffer with no separators that was cleared back to at most "25" forgets its auto separators. */
  function ResetAutoSeparators(total: nat, colors: seq<string>, st: TextState, updated: bool): Step<bool>
    requires colors != []
  {
    if total == 0 && |st.text| < 2 then Step(Returns(updated), st.(autoSep := []))
    else if total == 0 && |st.text| == 2 then
      match ParseInt(colors[0])
      case None => Step(Raises(ValueError), st)
      case Some(v) => Step(Returns(updated), if v <= 25 then st.(autoSep := []) else st)
    else Step(Returns(updated), st)
  }

  /** What `update` does after the superclass, in RGB mode, given the states before (st0) and after (st1) it. */
  function RgbAfter(cfg: Config, st0: TextState, st1: TextState, k: char, updated: bool): Step<bool>
    requires st0.cursor <= |st0.text| && st1.cursor <= |st1.text|
  {
    var total := Count(st0.text, cfg.separator);
    var st2 := if ZeroNeedsSeparator(cfg.separator, total, st1, k) then PushSeparator(cfg, st1) else st1;
    CheckChannels(cfg, st0, st2, total, updated)
  }

  /** The overflow check: a channel above 255 puts back the text and cursor of before the key (st0); three channels set the auto separators to [0, 1]. */
  function CheckChannels(cfg: Config, st0: TextState, st2: TextState, total: nat, updated: bool): Step<bool>
    requires st0.cursor <= |st0.text| && st2.cursor <= |st2.text|
  {
    var colors := Split(st2.text, cfg.separator);
    match ChannelsOverflow(colors)
    case Raises(e) => Step(Raises(e), st2)
    case Returns(over) =>
      var st3 := if over then st2.(text := st0.text, cursor := st0.cursor) else st2;
      var st4 := if |colors| == 3 then st3.(autoSep := [0, 1]) else st3;
      AutoSeparator(cfg, total, colors, st4, updated)
  }

  /** The automatic separator after a complete last channel, typed at most once per channel index, then the final reset. */
  function AutoSeparator(cfg: Config, total: nat, colors: seq<string>, st4: TextState, updated: bool): Step<bool>
    requires colors != [] && st4.cursor <= |st4.text|
  {
    if total < 2 && |st4.text| == st4.cursor then
      var pos := |colors| - 1;
      match ChannelComplete(colors[pos])
      case Raises(e) => Step(Raises(e), st4)
      case Returns(complete) =>
        var st5 := if complete && pos !in st4.autoSep
                   then PushSeparator(cfg, st4).(autoSep := st4.autoSep + [pos])
                   else st4;
        ResetAutoSeparators(total, colors, st5, updated)
    else
      ResetAutoSeparators(total, colors, st4, updated)
  }

  /** `update` for one key press, once the guard has given its verdict. */
  function UpdateWith(cfg: Config, st: TextState, key: Key, verdict: Verdict): Step<bool>
    requires st.cursor <= |st.text|
  {
    match cfg.colorType
    case Rgb =>
      (match verdict
       case Stop(u) => Step(Returns(u), st)
       case Fail(e) => Step(Raises(e), st)
       case Proceed =>
         var st1 := SuperUpdate(cfg, st, key);
         RgbAfter(cfg, st, st1, KeyChar(key), st1 != st))
    case Hex =>
      var st0 := st.(text := FormatHex(cfg, st.text));
      match verdict
      case Stop(u) => Step(Returns(u), st0)
      case Fail(e) => Step(Raises(e), st0)
      case Proceed =>
        var st1 := SuperUpdate(cfg, st0, key);
        Step(Returns(st1 != st0), st1)
  }

  /** `update` for one key press with the RGB "separator at first" rule corrected. */
  function Update(cfg: Config, st: TextState, key: Key): Step<bool>
    requires st.cursor <= |st.text|
  {
    UpdateWith(cfg, st, key, Guard(cfg, st, key))
  }

  /** `update` for one key press as the source writes it. */
  function UpdateAsWritten(cfg: Config, st: TextState, key: Key): Step<bool>
    requires st.cursor <= |st.text|
  {
    UpdateWith(cfg, st, key, GuardAsWritten(cfg, st, key))
  }
}
