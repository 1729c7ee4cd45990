/**
 * The colour input widget as an object. Its text buffer, cursor and list of
 * auto-separator positions are fields that `set_value`, `clear` and `update`
 * change in place. Each method is proved against the function of module
 * ColorInputSpec that specifies it, and keeps the buffer invariant.
 */
module ColorInput {
  import opened PyText
  import opened ColorInputSpec
  import ColorInputProofs

  // ---------------------------------------------------------------------------
  // The loops of the widget
  // ---------------------------------------------------------------------------

  /** The counting loops over a string (`count_hash`, `total_separator`). */
  method CountChar(s: string, ch: char) returns (n: nat)
    ensures n == Count(s, ch)
  {
    n := 0;
    var i := 0;
    while i < |s|
      invariant 0 <= i <= |s|
      invariant n + Count(s[i..], ch) == Count(s, ch)
    {
      assert s[i..][1..] == s[i + 1..];
      if s[i] == ch {
        n := n + 1;
      }
      i := i + 1;
    }
  }

  /** The loop that keeps only the valid characters of a HEX colour string. */
  method FilterChars(cfg: Config, text: string) returns (validText: string)
    requires cfg.colorType == Hex
    ensures validText == HexFilter(text)
  {
    validText := [];
    var i := 0;
    while i < |text|
      invariant 0 <= i <= |text|
      invariant validText + HexFilter(text[i..]) == HexFilter(text)
    {
      assert text[i..][1..] == text[i + 1..];
      ColorInputProofs.ValidCharsMembership(cfg, text[i]);
      if text[i] in ValidChars(cfg) {
        validText := validText + [text[i]];
      }
      i := i + 1;
    }
  }

  /** The backward scan for the separator before the cursor (`pos_before`). */
  method ScanSegmentStart(t: string, c: nat, sep: char) returns (posBefore: nat)
    requires c <= |t|
    ensures posBefore == SegmentStart(t, c, sep)
  {
    posBefore := 0;
    var i := 0;
    while i < c
      invariant 0 <= i <= c
      invariant SegmentStart(t, c, sep) == SegmentStart(t, c - i, sep)
    {
      if t[c - i - 1] == sep {
        posBefore := c - i;
        return;
      }
      i := i + 1;
    }
  }

  /** The forward scan for the separator at or after the cursor (`pos_after`), 0 meaning the end. */
  method ScanSegmentEnd(t: string, c: nat, sep: char) returns (posAfter: nat)
    requires c <= |t|
    ensures posAfter == SegmentEnd(t, c, sep)
  {
    posAfter := 0;
    var i := 0;
    while i < |t| - c
      invariant 0 <= i <= |t| - c
      invariant SeparatorFrom(t, c, sep) == SeparatorFrom(t, c + i, sep)
    {
      if t[c + i] == sep {
        posAfter := c + i;
        break;
      }
      i := i + 1;
    }
    if posAfter == 0 {
      posAfter := |t|;
    }
  }

  /** The loop over the channels that looks for one above 255. */
  method ScanChannels(colors: seq<string>) returns (r: Outcome<bool>)
    ensures r == ChannelsOverflow(colors)
  {
    var i := 0;
    while i < |colors|
      invariant 0 <= i <= |colors|
      invariant ChannelsOverflow(colors[i..]) == ChannelsOverflow(colors)
    {
      assert colors[i..][1..] == colors[i + 1..];
      if colors[i] != [] {
        match ParseInt(colors[i])
        case None =>
          return Raises(ValueError);
        case Some(v) =>
          if v > 255 {
            return Returns(true);
          }
      }
      i := i + 1;
    }
    r := Returns(false);
  }

  /** The checks of a digit typed into the channel at the cursor. */
  method CheckDigit(newString: string, c: nat, k: char, sep: char) returns (verdict: Verdict)
    requires c <= |newString|
    ensures verdict == DigitVerdict(newString, c, k, sep)
  {
    var posBefore := ScanSegmentStart(newString, c, sep);
    var posAfter := ScanSegmentEnd(newString, c, sep);
    var num := RemoveAll(newString[posBefore..posAfter], ',');
    if num == [] {
      num := "0";
    }
    match ParseInt(num)
    case None =>
      verdict := Fail(ValueError);
    case Some(v) =>
      if v > 255 {
        verdict := Stop(false);
      } else if num != NatToString(v) && k == '0' {
        verdict := Stop(false);
      } else if |num| > 3 {
        verdict := Stop(false);
      } else {
        verdict := Proceed;
      }
  }

  /**
   * The RGB guards of `update`, with the separator refused at the start of the buffer
   * (corrected); on every other key press they are the guards as written.
   */
  method CheckRgbKey(cfg: Config, inputStr: string, cursorPos: nat, key: Key) returns (verdict: Verdict)
    requires cfg.colorType == Rgb && cursorPos <= |inputStr|
    ensures verdict == RgbGuard(cfg, inputStr, cursorPos, key)
    ensures !SeparatorFirst(cfg, inputStr, cursorPos, key) ==> verdict == RgbGuardAsWritten(cfg, inputStr, cursorPos, key)
  {
    ColorInputProofs.RgbGuardAgrees(cfg, inputStr, cursorPos, key);
    var sep := cfg.separator;
    if RemovalBlocked(sep, inputStr, cursorPos, key) {
      return Stop(true);
    }
    var k := KeyChar(key);
    ColorInputProofs.ValidCharsMembership(cfg, k);
    if k !in ValidChars(cfg) {
      return Proceed;
    }
    if cursorPos == 0 && k == sep {
      return Stop(false);
    }
    if |inputStr| > 1 {
      if k == sep {
        var totalSeparator := CountChar(inputStr, sep);
        if totalSeparator >= 2 {
          return Stop(false);
        }
        return Proceed;
      }
      var newString := Insert(inputStr, cursorPos, k);
      verdict := CheckDigit(newString, cursorPos, k, sep);
      return;
    }
    verdict := Proceed;
  }

  /** The RGB branch of `set_value` for a value other than None and '': a tuple of three channels. */
  method RgbColorText(cfg: Config, color: ColorArg) returns (r: Outcome<string>)
    requires color != NoColor && color != Text([])
    ensures r == RgbSetText(cfg, color)
  {
    if !color.Tuple? || |color.items| != 3 {
      return Raises(AssertionError);
    }
    var red, green, blue := color.items[0], color.items[1], color.items[2];
    if !(IsChannel(red) && IsChannel(green) && IsChannel(blue)) {
      return Raises(AssertionError);
    }
    r := Returns(RgbString(red, green, blue, cfg.separator));
  }

  /**
   * The HEX branch of `set_value`: strip, keep the hex alphabet, count the '#', check
   * the format, with two or more '#' refused (corrected); on every other value it is
   * the branch as written.
   */
  method HexColorText(cfg: Config, color: ColorArg) returns (r: Outcome<string>)
    requires cfg.colorType == Hex
    ensures r == HexText(color)
    ensures !ExtraHashes(color) ==> r == HexTextAsWritten(color)
  {
    ColorInputProofs.HexTextAgrees(color);
    var text := Strip(ColorStr(color));
    if text == [] || text == "#" {
      return Returns("#");
    }
    var validText := FilterChars(cfg, text);
    var countHash := CountChar(validText, '#');
    if countHash >= 2 {
      return Raises(AssertionError);
    }
    assert HexCheck(text) == HexCheckAsWritten(text);
    if countHash == 1 && validText[0] != '#' {
      return Raises(AssertionError);
    }
    if countHash == 0 {
      validText := "#" + validText;
    }
    if |validText| != 7 {
      return Raises(AssertionError);
    }
    r := Returns(validText);
  }

  // ---------------------------------------------------------------------------
  // The widget
  // ---------------------------------------------------------------------------

  class ColorInput {
    const cfg: Config
    const defaultValue: string
    var inputString: string
    var cursorPosition: nat
    var autoSeparatorPos: seq<int>

    function State(): TextState
      reads this
    {
      TextState(inputString, cursorPosition, autoSeparatorPos)
    }

    /** The constructor's assertions hold, the cursor lies within the buffer, and the buffer keeps its mode's invariant. */
    ghost predicate Valid()
      reads this
    {
      && cfg.WellFormed()
      && cursorPosition <= |inputString|
      && BufferInvariant(cfg, inputString)
    }

    constructor (cfg: Config, defaultValue: string)
      requires cfg.WellFormed()
      ensures Valid()
      ensures this.cfg == cfg && this.defaultValue == defaultValue
      ensures State() == TextState([], 0, [])
    {
      this.cfg := cfg;
      this.defaultValue := defaultValue;
      inputString := [];
      cursorPosition := 0;
      autoSeparatorPos := [];
    }

    /** `get_value()`; on a valid widget it never raises. */
    function GetValue(): (r: Outcome<Color>)
      reads this
      ensures r == ColorInputSpec.GetValue(cfg, inputString)
      ensures Valid() ==> r.Returns?
    {
      ColorInputProofs.GetValueNeverRaises(cfg, inputString);
      ColorInputSpec.GetValue(cfg, inputString)
    }

    /** `value_changed()`. */
    function ValueChanged(): (r: bool)
      reads this
      ensures r == ColorInputSpec.ValueChanged(cfg, inputString, defaultValue)
    {
      ColorInputSpec.ValueChanged(cfg, inputString, defaultValue)
    }

    /** The superclass's `set_value`: the text, with the cursor at its end (a step of `SetValue` and `Clear`, which re-establish `Valid()`). */
    method SuperSetValue(text: string)
      modifies this
      ensures State() == old(State()).(text := text, cursor := |text|)
    {
      inputString := text;
      cursorPosition := |text|;
    }

    /** `_format_hex()`. */
    method ApplyHexFormat()
      modifies this
      ensures State() == old(State()).(text := FormatHex(cfg, old(inputString)))
      ensures old(Valid()) ==> Valid()
    {
      ColorInputProofs.FormatHexKeepsValue(cfg, inputString);
      if cfg.colorType != Hex || cfg.hexFormat == FormatNone {
        return;
      } else if cfg.hexFormat == FormatLower {
        inputString := Lower(inputString);
      } else {
        inputString := Upper(inputString);
      }
    }

    /**
     * `set_value(color)`: the text it stores, or the assertion it fails with the state
     * unchanged. A HEX value with two or more '#' is refused (corrected); every other
     * value is handled as the source writes it.
     */
    method SetValue(color: ColorArg) returns (r: Outcome<()>)
      modifies this
      requires Valid()
      ensures Valid()
      ensures Step(r, State()) == SetValueSpec(cfg, old(State()), color)
      ensures !(cfg.colorType == Hex && ExtraHashes(color)) ==> Step(r, State()) == SetValueSpecAsWritten(cfg, old(State()), color)
    {
      ColorInputProofs.SetValueAgrees(cfg, State(), color);
      ColorInputProofs.SetValueKeepsInvariant(cfg, State(), color);
      match cfg.colorType {
        case Rgb => r := SetRgbValue(color);
        case Hex => r := SetHexValue(color);
      }
    }

    /** The RGB branch of `set_value`: an empty value clears the buffer, a tuple also resets the auto separators. */
    method SetRgbValue(color: ColorArg) returns (r: Outcome<()>)
      modifies this
      requires cfg.colorType == Rgb
      ensures Step(r, State()) == SetValueSpec(cfg, old(State()), color)
      ensures Step(r, State()) == SetValueSpecAsWritten(cfg, old(State()), color)
    {
      ColorInputProofs.SetValueAgrees(cfg, State(), color);
      if color.NoColor? || color == Text([]) {
        SuperSetValue([]);
        return Returns(());
      }
      var checked := RgbColorText(cfg, color);
      assert SetValueText(cfg, color) == checked;
      if checked.Raises? {
        return Raises(checked.error);
      }
      autoSeparatorPos := [0, 1];
      SuperSetValue(checked.value);
      ApplyHexFormat();
      r := Returns(());
    }

    /** The HEX branch of `set_value`: the checked text (corrected for two or more '#'), then the letter-case rule. */
    method SetHexValue(color: ColorArg) returns (r: Outcome<()>)
      modifies this
      requires cfg.colorType == Hex
      ensures Step(r, State()) == SetValueSpec(cfg, old(State()), color)
      ensures !ExtraHashes(color) ==> Step(r, State()) == SetValueSpecAsWritten(cfg, old(State()), color)
    {
      ColorInputProofs.SetValueAgrees(cfg, State(), color);
      var checked := HexColorText(cfg, color);
      ghost var st := State();
      assert SetValueText(cfg, color) == if checked.Returns? then Returns(FormatHex(cfg, checked.value)) else checked;
      assert SetValueSpec(cfg, st, color) == if checked.Raises? then Step(Raises(checked.error), st)
        else Step(Returns(()), TextState(FormatHex(cfg, checked.value), |checked.value|, st.autoSep));
      if checked.Raises? {
        return Raises(checked.error);
      }
      SuperSetValue(checked.value);
      ApplyHexFormat();
      r := Returns(());
    }

    /** `clear()`. */
    method Clear()
      modifies this
      requires Valid()
      ensures Valid()
      ensures State() == Cleared(cfg)
    {
      SuperSetValue([]);
      autoSeparatorPos := [];
      if cfg.colorType == Hex {
        SuperSetValue("#");
      }
    }

    /** The superclass typing a character at the cursor (a step of `Update`, whose guards keep `Valid()`). */
    method TypeCharacter(ch: char)
      modifies this
      requires cursorPosition <= |inputString|
      ensures State() == TypeChar(cfg, old(State()), ch)
    {
      ColorInputProofs.ValidCharsMembership(cfg, ch);
      if ch in ValidChars(cfg) && |inputString| < MaxChar(cfg) {
        inputString := Insert(inputString, cursorPosition, ch);
        cursorPosition := cursorPosition + 1;
      }
    }

    /** The superclass handling one key press (a step of `Update`); in RGB mode it keeps `Valid()` by itself. */
    method TextInputUpdate(key: Key)
      modifies this
      requires cursorPosition <= |inputString|
      ensures State() == SuperUpdate(cfg, old(State()), key)
      ensures old(Valid()) && cfg.colorType == Rgb ==> Valid()
    {
      if Valid() && cfg.colorType == Rgb {
        ColorInputProofs.RgbSuperUpdateKeeps(cfg, State(), key);
      }
      match key
      case Typed(ch) =>
        TypeCharacter(ch);
      case Backspace =>
        if cursorPosition > 0 {
          inputString := inputString[..cursorPosition - 1] + inputString[cursorPosition..];
          cursorPosition := cursorPosition - 1;
        }
      case Delete =>
        if cursorPosition < |inputString| {
          inputString := inputString[..cursorPosition] + inputString[cursorPosition + 1..];
        }
    }

    /**
     * `update` after the superclass in RGB mode, from the overflow check on: st0 is
     * the state before the key. The buffer invariant rules out every ValueError here.
     */
    method RepairChannels(ghost st0: TextState, inputStr: string, cursorPos: nat, totalSeparator: nat, upd: bool)
      returns (updated: bool)
      modifies this
      requires Valid() && cfg.colorType == Rgb
      requires st0.text == inputStr && st0.cursor == cursorPos && cursorPos <= |inputStr|
      requires BufferInvariant(cfg, inputStr) && totalSeparator == Count(inputStr, cfg.separator)
      requires totalSeparator == 0 ==> inputString == [] || inputString[0] != cfg.separator
      ensures Valid()
      ensures Step(Returns(updated), State()) == CheckChannels(cfg, st0, old(State()), totalSeparator, upd)
    {
      ColorInputProofs.CheckChannelsSafe(cfg, st0, State(), totalSeparator, upd);
      var sep := cfg.separator;
      var colors := Split(inputString, sep);
      ColorInputProofs.SplitPartsDigits(inputString, sep);
      ColorInputProofs.ChannelsOverflowDigits(colors);
      SplitFirstPart(inputString, sep);
      if inputString == [] {
        assert colors == [[]];
      }
      var overflow := ScanChannels(colors);
      if overflow.value {
        inputString := inputStr;
        cursorPosition := cursorPos;
      }
      if |colors| == 3 {
        autoSeparatorPos := [0, 1];
      }
      updated := AddAutoSeparator(totalSeparator, colors, upd);
    }

    /** `update`'s automatic separator after a complete last channel, and the final reset of the auto-separator list (a step of `RepairChannels`). */
    method AddAutoSeparator(totalSeparator: nat, colors: seq<string>, upd: bool) returns (updated: bool)
      modifies this
      requires cfg.colorType == Rgb && colors != [] && cursorPosition <= |inputString|
      requires forall i :: 0 <= i < |colors| ==> AllDigits(colors[i])
      requires totalSeparator == 0 ==> colors[0] != [] || (inputString == [] && colors == [[]])
      ensures Step(Returns(updated), State()) == AutoSeparator(cfg, totalSeparator, colors, old(State()), upd)
    {
      ghost var st4 := State();
      if totalSeparator < 2 && |inputString| == cursorPosition {
        var autoPos := |colors| - 1;
        var lastNum := colors[autoPos];
        var complete := ChannelComplete(lastNum);
        if complete.value && autoPos !in autoSeparatorPos {
          TypeCharacter(cfg.separator);
          autoSeparatorPos := autoSeparatorPos + [autoPos];
        }
      }
      if totalSeparator == 0 && |inputString| < 2 {
        autoSeparatorPos := [];
      } else if totalSeparator == 0 && |inputString| == 2 {
        if ParseInt(colors[0]).value <= 25 {
          autoSeparatorPos := [];
        }
      }
      updated := upd;
    }

    /** `update` for one key press in RGB mode: a separator at cursor 0 is refused (corrected); every other key as the source writes it. */
    method UpdateRgb(key: Key) returns (updated: bool)
      modifies this
      requires Valid() && cfg.colorType == Rgb
      ensures Valid()
      ensures Step(Returns(updated), State()) == ColorInputSpec.Update(cfg, old(State()), key)
      ensures !SeparatorFirst(cfg, old(inputString), old(cursorPosition), key) ==>
        Step(Returns(updated), State()) == UpdateAsWritten(cfg, old(State()), key)
    {
      ghost var st := State();
      ColorInputProofs.RgbGuardNeverFails(cfg, st, key);
      ColorInputProofs.UpdateAgrees(cfg, st, key);
      var verdict := CheckRgbKey(cfg, inputString, cursorPosition, key);
      if verdict.Stop? {
        return verdict.updated;
      }
      updated := UpdateRgbAccepted(key);
    }

    /** `update` in RGB mode once the guards let the key through: the superclass, the zero push and the repairs. */
    method UpdateRgbAccepted(key: Key) returns (updated: bool)
      modifies this
      requires Valid() && cfg.colorType == Rgb
      requires RgbGuard(cfg, inputString, cursorPosition, key) == Proceed
      ensures Valid()
      ensures Step(Returns(updated), State()) == UpdateWith(cfg, old(State()), key, Proceed)
    {
      var st := State();
      var inputStr, cursorPos := inputString, cursorPosition;
      TextInputUpdate(key);
      ghost var st1 := State();
      ColorInputProofs.RgbSuperUpdateKeeps(cfg, st, key);
      var upd := State() != st;
      var totalSeparator := CountChar(inputStr, cfg.separator);
      if totalSeparator == 0 {
        ColorInputProofs.RgbProceedHead(cfg, st, key);
      }
      if ZeroNeedsSeparator(cfg.separator, totalSeparator, State(), KeyChar(key)) {
        TypeCharacter(cfg.separator);
      }
      updated := RepairChannels(st, inputStr, cursorPos, totalSeparator, upd);
    }

    /** `update` for one key press in HEX mode. */
    method UpdateHex(key: Key) returns (updated: bool)
      modifies this
      requires Valid() && cfg.colorType == Hex
      ensures Valid()
      ensures Step(Returns(updated), State()) == ColorInputSpec.Update(cfg, old(State()), key)
    {
      ghost var st := State();
      var cursorPos := cursorPosition;
      ColorInputProofs.FormatHexKeepsValue(cfg, inputString);
      ApplyHexFormat();
      var verdict := HexGuard(cfg, cursorPos, key);
      if verdict.Stop? {
        return verdict.updated;
      }
      ColorInputProofs.HexSuperUpdateKeeps(cfg, State(), key);
      ColorInputProofs.HexGuardIff(cfg, st, key);
      var before := State();
      TextInputUpdate(key);
      updated := State() != before;
    }

    /**
     * `update` for one key press; on a valid widget it never raises. A separator typed
     * at cursor 0 of a non-empty RGB buffer is refused (corrected); every other key
     * press is handled as the source writes it.
     */
    method Update(key: Key) returns (updated: bool)
      modifies this
      requires Valid()
      ensures Valid()
      ensures Step(Returns(updated), State()) == ColorInputSpec.Update(cfg, old(State()), key)
      ensures !SeparatorFirst(cfg, old(inputString), old(cursorPosition), key) ==>
        Step(Returns(updated), State()) == UpdateAsWritten(cfg, old(State()), key)
    {
      ColorInputProofs.UpdateAgrees(cfg, State(), key);
      match cfg.colorType
      case Rgb =>
        updated := UpdateRgb(key);
      case Hex =>
        updated := UpdateHex(key);
    }
  }
}
