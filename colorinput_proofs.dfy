/**
 * What the colour input widget promises, proved about the functions of module
 * ColorInputSpec: reading a colour back after setting it, the range of what
 * `get_value` returns, the effect of the letter-case rule, the key guards, and
 * the buffer invariant that every key press keeps.
 */
module ColorInputProofs {
  import opened PyText
  import opened ColorInputSpec

  // ---------------------------------------------------------------------------
  // Small facts about the alphabets
  // ---------------------------------------------------------------------------

  /** The character-class test used by the model agrees with membership in `_valid_chars`. */
  lemma ValidCharsMembership(cfg: Config, ch: char)
    ensures ch in ValidChars(cfg) <==> IsValidChar(cfg, ch)
  {
  }

  /** Filtering a string made only of HEX characters keeps all of it. */
  lemma {:induction false} HexFilterKeepsAll(s: string)
    requires forall i :: 0 <= i < |s| ==> IsHexDigit(s[i]) || s[i] == '#'
    ensures HexFilter(s) == s
  {
    if s != [] {
      HexFilterKeepsAll(s[1..]);
    }
  }

  /** Every part of an RGB buffer split at the separator is a run of digits. */
  lemma {:induction false} SplitPartsDigits(s: string, sep: char)
    requires forall i :: 0 <= i < |s| ==> IsDigit(s[i]) || s[i] == sep
    ensures forall i :: 0 <= i < |Split(s, sep)| ==> AllDigits(Split(s, sep)[i])
  {
    if s != [] {
      SplitPartsDigits(s[1..], sep);
      var rest := Split(s[1..], sep);
      if s[0] != sep {
        assert AllDigits([s[0]] + rest[0]);
      }
    }
  }

  // ---------------------------------------------------------------------------
  // get_value and is_valid
  // ---------------------------------------------------------------------------

  /** RGB `get_value` on a buffer of digits and separators: which colour it reads, and that it never raises. */
  lemma RgbGetValue(cfg: Config, s: string)
    requires cfg.colorType == Rgb && BufferInvariant(cfg, s)
    ensures forall i :: 0 <= i < |Split(s, cfg.separator)| ==> AllDigits(Split(s, cfg.separator)[i])
    ensures var parts := Split(s, cfg.separator);
      GetValue(cfg, s) ==
        if |parts| == 3 && parts[0] != [] && parts[1] != [] && parts[2] != [] then
          var r, g, b := DecimalValue(parts[0]), DecimalValue(parts[1]), DecimalValue(parts[2]);
          if r <= 255 && g <= 255 then Returns(Color(r, g, b)) else Returns(Invalid)
        else Returns(Invalid)
  {
    SplitPartsDigits(s, cfg.separator);
  }

  /** The RGB text of three channels reads back as those channels; the blue channel is never range-checked. */
  lemma RgbRoundTrip(cfg: Config, r: nat, g: nat, b: nat)
    requires cfg.colorType == Rgb && cfg.WellFormed()
    ensures GetValue(cfg, RgbString(r, g, b, cfg.separator)) ==
      if r <= 255 && g <= 255 then Returns(Color(r, g, b)) else Returns(Invalid)
  {
    var parts := RgbStringParts(cfg, r, g, b);
    ParseNatToString(r);
    ParseNatToString(g);
    ParseNatToString(b);
    assert ParseInt(parts[0]) == Some(r) && ParseInt(parts[1]) == Some(g) && ParseInt(parts[2]) == Some(b);
  }

  /** "r<sep>g<sep>b" splits back into the three numerals. */
  lemma RgbStringParts(cfg: Config, r: nat, g: nat, b: nat) returns (parts: seq<string>)
    requires cfg.colorType == Rgb && cfg.WellFormed()
    ensures parts == [NatToString(r), NatToString(g), NatToString(b)]
    ensures Split(RgbString(r, g, b, cfg.separator), cfg.separator) == parts
  {
    var sep := cfg.separator;
    parts := [NatToString(r), NatToString(g), NatToString(b)];
    assert forall i :: 0 <= i < 3 ==> AllDigits(parts[i]);
    assert Join(parts, sep) == RgbString(r, g, b, sep) by {
      assert Join(parts[1..], sep) == NatToString(g) + [sep] + NatToString(b);
    }
    SplitJoin(parts, sep);
  }

  /** HEX `get_value`: a seven-character buffer reads as its three hex pairs, raises on a non-hex character, else is Invalid. */
  lemma HexGetValue(cfg: Config, s: string)
    requires cfg.colorType == Hex
    ensures |s| != 7 ==> GetValue(cfg, s) == Returns(Invalid)
    ensures |s| == 7 && (forall i :: 1 <= i < 7 ==> IsHexDigit(s[i])) ==>
      GetValue(cfg, s) == Returns(Color(16 * HexDigitValue(s[1]) + HexDigitValue(s[2]),
                                        16 * HexDigitValue(s[3]) + HexDigitValue(s[4]),
                                        16 * HexDigitValue(s[5]) + HexDigitValue(s[6])))
    ensures |s| == 7 && (exists i :: 1 <= i < 7 && !IsHexDigit(s[i])) ==> GetValue(cfg, s) == Raises(ValueError)
  {
    if |s| == 7 {
      assert s[1..3] == [s[1], s[2]] && s[3..5] == [s[3], s[4]] && s[5..7] == [s[5], s[6]];
    }
  }

  /** Every colour `get_value` returns is Invalid or has its red and green channels (and in HEX mode all three) within 0..255. */
  lemma GetValueRange(cfg: Config, s: string)
    requires GetValue(cfg, s).Returns?
    ensures var c := GetValue(cfg, s).value;
      c == Invalid || (0 <= c.r <= 255 && 0 <= c.g <= 255 && 0 <= c.b && (cfg.colorType == Hex ==> c.b <= 255))
  {
  }

  /** `is_valid` holds exactly when `get_value` returns something other than Invalid, and raises exactly when it does. */
  lemma IsValidIff(cfg: Config, s: string)
    ensures IsValid(cfg, s).Raises? <==> GetValue(cfg, s).Raises?
    ensures IsValid(cfg, s) == Returns(true) <==> GetValue(cfg, s).Returns? && GetValue(cfg, s).value != Invalid
  {
    if GetValue(cfg, s).Returns? {
      GetValueRange(cfg, s);
    }
  }

  /** A buffer that keeps its mode's invariant never makes `get_value` raise. */
  lemma GetValueNeverRaises(cfg: Config, s: string)
    ensures BufferInvariant(cfg, s) ==> GetValue(cfg, s).Returns?
  {
    match cfg.colorType
    case Rgb => if BufferInvariant(cfg, s) { RgbGetValue(cfg, s); }
    case Hex => HexGetValue(cfg, s);
  }

  // ---------------------------------------------------------------------------
  // _format_hex
  // ---------------------------------------------------------------------------

  lemma CaseKeepsHexDigit(ch: char)
    ensures IsHexDigit(LowerChar(ch)) == IsHexDigit(ch) && IsHexDigit(UpperChar(ch)) == IsHexDigit(ch)
    ensures (LowerChar(ch) == '#') == (ch == '#') && (UpperChar(ch) == '#') == (ch == '#')
  {
  }

  /** The letter-case rule changes nothing in RGB mode or with no format, and applying it twice is applying it once. */
  lemma FormatHexIdempotent(cfg: Config, s: string)
    ensures cfg.colorType == Rgb || cfg.hexFormat == FormatNone ==> FormatHex(cfg, s) == s
    ensures FormatHex(cfg, FormatHex(cfg, s)) == FormatHex(cfg, s)
  {
  }

  /** The letter-case rule keeps the buffer invariant and the colour the buffer reads as. */
  lemma FormatHexKeepsValue(cfg: Config, s: string)
    ensures BufferInvariant(cfg, s) ==> BufferInvariant(cfg, FormatHex(cfg, s))
    ensures GetValue(cfg, FormatHex(cfg, s)) == GetValue(cfg, s)
  {
    var t := FormatHex(cfg, s);
    if cfg.colorType == Hex && cfg.hexFormat != FormatNone {
      forall i | 0 <= i < |s|
        ensures IsHexDigit(t[i]) == IsHexDigit(s[i]) && (t[i] == '#') == (s[i] == '#')
        ensures IsHexDigit(s[i]) ==> HexDigitValue(t[i]) == HexDigitValue(s[i])
      {
        CaseKeepsHexDigit(s[i]);
        if IsHexDigit(s[i]) {
          HexDigitCase(s[i]);
        }
      }
      HexGetValue(cfg, s);
      HexGetValue(cfg, t);
      if |s| == 7 && (exists i :: 1 <= i < 7 && !IsHexDigit(s[i])) {
        var i :| 1 <= i < 7 && !IsHexDigit(s[i]);
        assert !IsHexDigit(t[i]);
      }
    }
  }

  // ---------------------------------------------------------------------------
  // set_value and clear
  // ---------------------------------------------------------------------------

  /** `set_value((r, g, b))` in RGB mode stores "r<sep>g<sep>b" with the cursor at its end and auto separators [0, 1], and reads back as (r, g, b). */
  lemma RgbSetThenGet(cfg: Config, st: TextState, r: nat, g: nat, b: nat)
    requires cfg.colorType == Rgb && cfg.WellFormed()
    requires IsChannel(r) && IsChannel(g) && IsChannel(b)
    ensures var t := RgbString(r, g, b, cfg.separator);
      && SetValueSpec(cfg, st, Tuple([r, g, b])) == Step(Returns(()), TextState(t, |t|, [0, 1]))
      && GetValue(cfg, t) == Returns(Color(r, g, b))
  {
    RgbRoundTrip(cfg, r, g, b);
  }

  /** In RGB mode `set_value` accepts nothing but the empty value and a tuple of three channels. */
  lemma RgbSetValueAccepts(cfg: Config, color: ColorArg)
    requires cfg.colorType == Rgb
    ensures SetValueText(cfg, color).Returns? <==>
      color.NoColor? || color == Text([]) ||
      (color.Tuple? && |color.items| == 3 && forall i :: 0 <= i < 3 ==> IsChannel(color.items[i]))
  {
  }

  /** `set_value(None)` and `set_value('')` leave the text `clear` leaves, with the cursor at its end, and keep the auto separators. */
  lemma SetValueEmpty(cfg: Config, st: TextState, color: ColorArg)
    requires color == NoColor || color == Text([])
    ensures SetValueSpec(cfg, st, color) == Step(Returns(()), Cleared(cfg).(autoSep := st.autoSep))
  {
    if cfg.colorType == Hex {
      assert Strip(ColorStr(color)) == [];
      assert FormatHex(cfg, "#") == "#" by {
        assert LowerChar('#') == '#' && UpperChar('#') == '#';
      }
    }
  }

  /** What the corrected HEX format check lets through: "#" or '#' followed by six hex digits. */
  lemma HexCheckShape(text: string)
    requires HexCheck(text).Returns?
    ensures var t := HexCheck(text).value;
      t == "#" || (|t| == 7 && t[0] == '#' && forall i :: 1 <= i < 7 ==> IsHexDigit(t[i]))
  {
    if text != [] && text != "#" {
      var valid := HexFilter(text);
      var hashes := Count(valid, '#');
      if hashes == 0 {
        assert forall i :: 0 <= i < |valid| ==> valid[i] != '#';
      } else {
        assert valid != [] && valid[0] == '#';
        assert Count(valid[1..], '#') == 0;
        assert forall i :: 1 <= i < |valid| ==> valid[i] == valid[1..][i - 1];
      }
    }
  }

  /** What the corrected HEX `set_value` stores: "#" or '#' followed by six hex digits, namely the hex digits of the stripped value. */
  lemma HexTextShape(color: ColorArg)
    requires HexText(color).Returns?
    ensures var t := HexText(color).value;
      t == "#" || (|t| == 7 && t[0] == '#' && forall i :: 1 <= i < 7 ==> IsHexDigit(t[i]))
    ensures HexText(color).value == "#" + HexDigitsOf(Strip(ColorStr(color)))
  {
    HexCheckShape(Strip(ColorStr(color)));
    HexNormalises(color);
  }

  /** "r<sep>g<sep>b" consists of digits and separators. */
  lemma RgbStringChars(r: nat, g: nat, b: nat, sep: char)
    ensures var t := RgbString(r, g, b, sep);
      forall i :: 0 <= i < |t| ==> IsDigit(t[i]) || t[i] == sep
  {
    var x, y, z := NatToString(r), NatToString(g), NatToString(b);
    var t := x + [sep] + y + [sep] + z;
    forall i | 0 <= i < |t|
      ensures IsDigit(t[i]) || t[i] == sep
    {
      if i < |x| {
        assert t[i] == x[i];
      } else if |x| < i <= |x| + |y| {
        assert t[i] == y[i - |x| - 1];
      } else if i > |x| + |y| + 1 {
        assert t[i] == z[i - |x| - |y| - 2];
      }
    }
  }

  lemma RgbSetValueKeeps(cfg: Config, color: ColorArg)
    requires cfg.colorType == Rgb && SetValueText(cfg, color).Returns?
    ensures BufferInvariant(cfg, SetValueText(cfg, color).value)
  {
    if color.Tuple? {
      RgbStringChars(color.items[0], color.items[1], color.items[2], cfg.separator);
    }
  }

  lemma HexSetValueKeeps(cfg: Config, color: ColorArg)
    requires cfg.colorType == Hex && SetValueText(cfg, color).Returns?
    ensures BufferInvariant(cfg, SetValueText(cfg, color).value)
  {
    var text := Strip(ColorStr(color));
    assert HexText(color) == HexCheck(text);
    HexCheckKeeps(cfg, text);
  }

  lemma HexCheckKeeps(cfg: Config, text: string)
    requires cfg.colorType == Hex && HexCheck(text).Returns?
    ensures BufferInvariant(cfg, FormatHex(cfg, HexCheck(text).value))
  {
    HexCheckShape(text);
    HexShapeKeeps(cfg, HexCheck(text).value);
  }

  lemma HexShapeKeeps(cfg: Config, t: string)
    requires cfg.colorType == Hex
    requires t == "#" || (|t| == 7 && t[0] == '#' && forall i :: 1 <= i < 7 ==> IsHexDigit(t[i]))
    ensures BufferInvariant(cfg, FormatHex(cfg, t))
  {
    FormatHexKeepsValue(cfg, t);
  }

  /** Every text `set_value` stores satisfies the buffer invariant, with the cursor at its end. */
  lemma SetValueKeepsInvariant(cfg: Config, st: TextState, color: ColorArg)
    requires BufferInvariant(cfg, st.text) && st.cursor <= |st.text|
    ensures var st' := SetValueSpec(cfg, st, color).state;
      BufferInvariant(cfg, st'.text) && st'.cursor <= |st'.text|
  {
    if SetValueText(cfg, color).Returns? {
      if cfg.colorType == Rgb {
        RgbSetValueKeeps(cfg, color);
      } else {
        HexSetValueKeeps(cfg, color);
      }
    }
  }

  /** `clear` leaves a state that satisfies the buffer invariant and that `value_changed` compares with the default. */
  lemma ClearedState(cfg: Config, default: string)
    ensures BufferInvariant(cfg, Cleared(cfg).text) && Cleared(cfg).cursor == |Cleared(cfg).text|
    ensures GetValue(cfg, Cleared(cfg).text) == Returns(Invalid)
    ensures ValueChanged(cfg, Cleared(cfg).text, default) <==>
      (if cfg.colorType == Hex then default != [] && default != "#" else default != [])
  {
    if cfg.colorType == Hex && '#' !in default {
      assert ("#" + default == "#") <==> default == [];
    }
  }

  lemma StripUnpadded(t: string)
    requires t != [] && !IsSpace(t[0]) && !IsSpace(t[|t| - 1])
    ensures Strip(t) == t
  {
  }

  /** Six hex digits, with or without a leading '#', are stored as '#' and the six digits. */
  lemma HexAcceptsSixDigits(d: string)
    requires |d| == 6 && forall i :: 0 <= i < 6 ==> IsHexDigit(d[i])
    ensures HexText(Text(d)) == Returns("#" + d)
    ensures HexText(Text("#" + d)) == Returns("#" + d)
  {
    var t := "#" + d;
    StripUnpadded(d);
    StripUnpadded(t);
    assert forall i :: 1 <= i < |t| ==> t[i] == d[i - 1];
    HexFilterKeepsAll(d);
    HexFilterKeepsAll(t);
    assert Count(d, '#') == 0;
    assert Count(t, '#') == 1 by {
      assert t[1..] == d;
    }
    HexAcceptsBare(d);
    HexAcceptsHashed(t);
  }

  lemma HexAcceptsBare(d: string)
    requires |d| == 6 && Strip(d) == d && HexFilter(d) == d && Count(d, '#') == 0
    ensures HexText(Text(d)) == Returns("#" + d)
  {
    var text := Strip(ColorStr(Text(d)));
    assert text == d && text != [] && text != "#";
    assert Count(HexFilter(text), '#') == 0;
  }

  lemma HexAcceptsHashed(t: string)
    requires |t| == 7 && t[0] == '#' && Strip(t) == t && HexFilter(t) == t && Count(t, '#') == 1
    ensures HexText(Text(t)) == Returns(t)
  {
    var text := Strip(ColorStr(Text(t)));
    assert text == t && text != [] && text != "#";
    assert Count(HexFilter(text), '#') == 1;
  }

  /** A HEX default of six hex digits, with or without '#', set as the value, does not count as a change (with no letter-case rule). */
  lemma HexDefaultUnchanged(cfg: Config, d: string)
    requires cfg.colorType == Hex && cfg.hexFormat == FormatNone
    requires |d| == 6 && forall i :: 0 <= i < 6 ==> IsHexDigit(d[i])
    ensures SetValueText(cfg, Text(d)) == Returns("#" + d) && !ValueChanged(cfg, "#" + d, d)
    ensures SetValueText(cfg, Text("#" + d)) == Returns("#" + d) && !ValueChanged(cfg, "#" + d, "#" + d)
    ensures forall s :: ValueChanged(cfg, s, d) <==> s != "#" + d
  {
    HexAcceptsSixDigits(d);
    assert '#' !in d by {
      assert forall i :: 0 <= i < |d| ==> d[i] != '#';
    }
  }

  /** '#' and three hex pairs read back as the three channels. */
  lemma HexPairsRead(cfg: Config, r: nat, g: nat, b: nat)
    requires cfg.colorType == Hex
    requires IsChannel(r) && IsChannel(g) && IsChannel(b)
    ensures var d := HexPair(r) + HexPair(g) + HexPair(b);
      && |d| == 6 && (forall i :: 0 <= i < 6 ==> IsHexDigit(d[i]))
      && GetValue(cfg, "#" + d) == Returns(Color(r, g, b))
  {
    var d := HexPair(r) + HexPair(g) + HexPair(b);
    var t := "#" + d;
    assert forall i :: 0 <= i < 6 ==> IsHexDigit(d[i]);
    ParseHexPairOf(r);
    ParseHexPairOf(g);
    ParseHexPairOf(b);
    assert t[1..3] == HexPair(r) && t[3..5] == HexPair(g) && t[5..7] == HexPair(b);
  }

  /** A HEX colour written as '#' and three hex pairs, with or without the '#', is stored (in the widget's case) and reads back. */
  lemma HexRoundTrip(cfg: Config, r: nat, g: nat, b: nat)
    requires cfg.colorType == Hex
    requires IsChannel(r) && IsChannel(g) && IsChannel(b)
    ensures var d := HexPair(r) + HexPair(g) + HexPair(b);
      && SetValueText(cfg, Text("#" + d)) == Returns(FormatHex(cfg, "#" + d))
      && SetValueText(cfg, Text(d)) == Returns(FormatHex(cfg, "#" + d))
      && GetValue(cfg, FormatHex(cfg, "#" + d)) == Returns(Color(r, g, b))
  {
    var d := HexPair(r) + HexPair(g) + HexPair(b);
    HexPairsRead(cfg, r, g, b);
    HexAcceptsSixDigits(d);
    FormatHexKeepsValue(cfg, "#" + d);
  }

  lemma CountTwoHashes(t: string)
    requires |t| == 7 && t[0] == '#' && t[1] == '#' && forall i :: 2 <= i < 7 ==> IsHexDigit(t[i])
    ensures Count(t, '#') == 2
  {
    assert t[1..][1..] == t[2..];
    assert '#' !in t[2..];
  }

  /** The HEX `set_value` as written accepts two '#' followed by five hex digits, which `get_value` then cannot read; the corrected one refuses it. */
  lemma HexTwoHashes(cfg: Config, t: string)
    requires cfg.colorType == Hex
    requires |t| == 7 && t[0] == '#' && t[1] == '#' && forall i :: 2 <= i < 7 ==> IsHexDigit(t[i])
    ensures HexTextAsWritten(Text(t)) == Returns(t)
    ensures GetValue(cfg, FormatHex(cfg, t)) == Raises(ValueError)
    ensures HexText(Text(t)) == Raises(AssertionError)
  {
    StripUnpadded(t);
    HexFilterKeepsAll(t);
    CountTwoHashes(t);
    var text := Strip(ColorStr(Text(t)));
    assert text == t && text != [] && text != "#";
    assert Count(HexFilter(text), '#') == 2;
    FormatHexKeepsValue(cfg, t);
    HexGetValue(cfg, t);
    assert !IsHexDigit(t[1]);
  }

  /** The concrete input of the finding: `set_value('##12345')`. */
  lemma HexTwoHashesExample(cfg: Config)
    requires cfg.colorType == Hex
    ensures HexTextAsWritten(Text("##12345")) == Returns("##12345")
    ensures GetValue(cfg, FormatHex(cfg, "##12345")) == Raises(ValueError)
    ensures HexText(Text("##12345")) == Raises(AssertionError)
  {
    HexTwoHashes(cfg, "##12345");
  }

  // ---------------------------------------------------------------------------
  // The key guards
  // ---------------------------------------------------------------------------

  /** The channel around a digit at position c of an RGB buffer is a non-empty run of digits bounded by separators or the ends. */
  lemma DigitSegment(t: string, c: nat, sep: char)
    requires !IsDigit(sep) && c < |t| && IsDigit(t[c])
    requires forall i :: 0 <= i < |t| ==> IsDigit(t[i]) || t[i] == sep
    ensures var p, q := SegmentStart(t, c, sep), SegmentEnd(t, c, sep);
      && p <= c < q && sep !in t[p..q] && AllDigits(t[p..q])
      && (p == 0 || t[p - 1] == sep) && (q == |t| || t[q] == sep)
  {
    var p := SegmentStart(t, c, sep);
    match SeparatorFrom(t, c, sep)
    case None =>
      assert t[p..|t|] == t[p..c] + t[c..];
    case Some(j) =>
      assert j != c;
      assert t[p..j] == t[p..c] + t[c..j];
  }

  /** The verdict on a run of digits: refused above 255, for a new leading zero, and beyond three digits. */
  lemma NumberVerdictOfDigits(segment: string, k: char)
    requires segment != [] && AllDigits(segment)
    ensures NumberVerdict(segment, k) ==
      if DecimalValue(segment) > 255 || (k == '0' && |segment| > 1 && segment[0] == '0') || |segment| > 3
      then Stop(false) else Proceed
  {
    RemoveAbsent(segment, ',');
    CanonicalNumeral(segment);
  }

  /** A digit typed into an RGB buffer of two or more characters is refused exactly when its channel would exceed 255, gain a leading zero, or grow past three digits. */
  lemma RgbDigitGuard(cfg: Config, st: TextState, k: char)
    requires cfg.colorType == Rgb && cfg.WellFormed()
    requires st.cursor <= |st.text| && BufferInvariant(cfg, st.text)
    requires |st.text| > 1 && IsDigit(k)
    ensures var t := Insert(st.text, st.cursor, k);
      var p, q := SegmentStart(t, st.cursor, cfg.separator), SegmentEnd(t, st.cursor, cfg.separator);
      && p <= st.cursor < q && cfg.separator !in t[p..q] && AllDigits(t[p..q])
      && Guard(cfg, st, Typed(k)) == GuardAsWritten(cfg, st, Typed(k))
      && Guard(cfg, st, Typed(k)) ==
        if DecimalValue(t[p..q]) > 255 || (k == '0' && q - p > 1 && t[p] == '0') || q - p > 3
        then Stop(false) else Proceed
  {
    var t := Insert(st.text, st.cursor, k);
    DigitSegment(t, st.cursor, cfg.separator);
    var p, q := SegmentStart(t, st.cursor, cfg.separator), SegmentEnd(t, st.cursor, cfg.separator);
    NumberVerdictOfDigits(t[p..q], k);
  }

  /** The separator is refused in an empty RGB buffer, at the start of the buffer, and once two are present. */
  lemma RgbSeparatorGuard(cfg: Config, st: TextState)
    requires cfg.colorType == Rgb && st.cursor <= |st.text|
    ensures var sep := cfg.separator;
      && (st.text == [] ==> GuardAsWritten(cfg, st, Typed(sep)) == Stop(false))
      && (|st.text| > 1 && Count(st.text, sep) >= 2 ==> GuardAsWritten(cfg, st, Typed(sep)) == Stop(false))
      && (st.cursor == 0 || Count(st.text, sep) >= 2 ==> Guard(cfg, st, Typed(sep)) == Stop(false))
      && (st.cursor > 0 && Count(st.text, sep) < 2 ==> Guard(cfg, st, Typed(sep)) == Proceed)
  {
  }

  /** In RGB mode (with a separator other than the key's control character) backspace and delete are refused on a separator unless two separators lie side by side (or the separator is last). */
  lemma RgbRemovalGuard(cfg: Config, st: TextState, key: Key)
    requires cfg.colorType == Rgb && cfg.WellFormed() && st.cursor <= |st.text|
    requires key == Backspace || key == Delete
    requires cfg.separator != KeyChar(key)
    ensures Guard(cfg, st, key) == GuardAsWritten(cfg, st, key)
    ensures Guard(cfg, st, key) == if RemovalBlocked(cfg.separator, st.text, st.cursor, key) then Stop(true) else Proceed
  {
  }

  /** The HEX guards refuse exactly: backspace just after the '#', delete before it, and typing '#' or typing at position 0. */
  lemma HexGuardIff(cfg: Config, st: TextState, key: Key)
    requires cfg.colorType == Hex && st.cursor <= |st.text|
    ensures Guard(cfg, st, key) != Proceed <==>
      (key == Backspace && st.cursor == 1) || (key == Delete && st.cursor == 0) ||
      (key.Typed? && (IsHexDigit(key.ch) || key.ch == '#') && (key.ch == '#' || st.cursor == 0))
    ensures Guard(cfg, st, key) == Proceed || Guard(cfg, st, key) == Stop(true)
  {
  }

  // ---------------------------------------------------------------------------
  // The buffer invariant across a key press
  // ---------------------------------------------------------------------------

  /** Removing one character keeps the others in order. */
  lemma RemoveAt(s: string, i: nat)
    requires i < |s|
    ensures var t := s[..i] + s[i + 1..];
      |t| == |s| - 1 && forall j :: 0 <= j < |t| ==> t[j] == if j < i then s[j] else s[j + 1]
  {
  }

  /** The superclass keeps an RGB buffer to digits and separators. */
  lemma RgbSuperUpdateKeeps(cfg: Config, st: TextState, key: Key)
    requires cfg.colorType == Rgb && st.cursor <= |st.text| && BufferInvariant(cfg, st.text)
    ensures BufferInvariant(cfg, SuperUpdate(cfg, st, key).text)
  {
    var s, c := st.text, st.cursor;
    match key
    case Typed(ch) =>
    case Backspace => if c > 0 { RemoveAt(s, c - 1); }
    case Delete => if c < |s| { RemoveAt(s, c); }
  }

  /** No channel of an RGB buffer fails to parse. */
  lemma {:induction false} ChannelsOverflowDigits(colors: seq<string>)
    requires forall i :: 0 <= i < |colors| ==> AllDigits(colors[i])
    ensures ChannelsOverflow(colors).Returns?
  {
    if colors != [] {
      ChannelsOverflowDigits(colors[1..]);
    }
  }

  /** The automatic separator keeps the buffer invariant and raises nothing when the first channel is there to be read. */
  lemma AutoSeparatorSafe(cfg: Config, total: nat, colors: seq<string>, st4: TextState, updated: bool)
    requires cfg.colorType == Rgb && colors != [] && st4.cursor <= |st4.text|
    requires forall i :: 0 <= i < |colors| ==> AllDigits(colors[i])
    requires BufferInvariant(cfg, st4.text)
    requires total == 0 ==> colors[0] != [] || (st4.text == [] && colors == [[]])
    ensures var r := AutoSeparator(cfg, total, colors, st4, updated);
      r.result.Returns? && BufferInvariant(cfg, r.state.text) && r.state.cursor <= |r.state.text|
  {
  }

  /** The overflow check keeps the buffer invariant and raises nothing on a buffer that does not start with a separator. */
  lemma CheckChannelsSafe(cfg: Config, st0: TextState, st2: TextState, total: nat, updated: bool)
    requires cfg.colorType == Rgb && cfg.WellFormed()
    requires st0.cursor <= |st0.text| && st2.cursor <= |st2.text|
    requires BufferInvariant(cfg, st0.text) && BufferInvariant(cfg, st2.text)
    requires total == 0 ==> st2.text == [] || st2.text[0] != cfg.separator
    ensures var r := CheckChannels(cfg, st0, st2, total, updated);
      r.result.Returns? && BufferInvariant(cfg, r.state.text) && r.state.cursor <= |r.state.text|
  {
    var colors := Split(st2.text, cfg.separator);
    SplitPartsDigits(st2.text, cfg.separator);
    ChannelsOverflowDigits(colors);
    SplitFirstPart(st2.text, cfg.separator);
    var over := ChannelsOverflow(colors).value;
    var st3 := if over then st2.(text := st0.text, cursor := st0.cursor) else st2;
    var st4 := if |colors| == 3 then st3.(autoSep := [0, 1]) else st3;
    if st2.text == [] {
      assert colors == [[]];
    }
    AutoSeparatorSafe(cfg, total, colors, st4, updated);
  }

  /**
   * The RGB repairs after the superclass keep the buffer to digits and separators and
   * never raise, provided the superclass did not leave a separator in front of a buffer
   * that had none.
   */
  lemma RgbAfterSafe(cfg: Config, st0: TextState, st1: TextState, k: char, updated: bool)
    requires cfg.colorType == Rgb && cfg.WellFormed()
    requires st0.cursor <= |st0.text| && st1.cursor <= |st1.text|
    requires BufferInvariant(cfg, st0.text) && BufferInvariant(cfg, st1.text)
    requires Count(st0.text, cfg.separator) == 0 ==> st1.text == [] || st1.text[0] != cfg.separator
    ensures var r := RgbAfter(cfg, st0, st1, k, updated);
      r.result.Returns? && BufferInvariant(cfg, r.state.text) && r.state.cursor <= |r.state.text|
  {
    var sep := cfg.separator;
    var total := Count(st0.text, sep);
    var st2 := if ZeroNeedsSeparator(sep, total, st1, k) then PushSeparator(cfg, st1) else st1;
    CheckChannelsSafe(cfg, st0, st2, total, updated);
  }

  /** The RGB guards never raise on a buffer of digits and separators. */
  lemma RgbGuardNeverFails(cfg: Config, st: TextState, key: Key)
    requires cfg.colorType == Rgb && cfg.WellFormed()
    requires st.cursor <= |st.text| && BufferInvariant(cfg, st.text)
    ensures !Guard(cfg, st, key).Fail? && !GuardAsWritten(cfg, st, key).Fail?
  {
    var k := KeyChar(key);
    if !RemovalBlocked(cfg.separator, st.text, st.cursor, key) && IsValidChar(cfg, k)
      && k != cfg.separator && |st.text| > 1
    {
      var t := Insert(st.text, st.cursor, k);
      DigitSegment(t, st.cursor, cfg.separator);
      var p, q := SegmentStart(t, st.cursor, cfg.separator), SegmentEnd(t, st.cursor, cfg.separator);
      NumberVerdictOfDigits(t[p..q], k);
    }
  }

  /** Once the corrected guard lets a key through, a buffer without separators does not come to start with one. */
  lemma RgbProceedHead(cfg: Config, st: TextState, key: Key)
    requires cfg.colorType == Rgb && st.cursor <= |st.text|
    requires Guard(cfg, st, key) == Proceed && Count(st.text, cfg.separator) == 0
    ensures var t := SuperUpdate(cfg, st, key).text;
      t == [] || t[0] != cfg.separator
  {
    var s, c := st.text, st.cursor;
    assert cfg.separator !in s;
    match key
    case Typed(ch) =>
      assert c == 0 ==> ch != cfg.separator;
    case Backspace =>
      if c > 0 { RemoveAt(s, c - 1); }
    case Delete =>
      if c < |s| { RemoveAt(s, c); }
  }

  /** The superclass keeps a HEX buffer that passed the HEX guards to a leading '#' and at most six hex digits. */
  lemma HexSuperUpdateKeeps(cfg: Config, st: TextState, key: Key)
    requires cfg.colorType == Hex && st.cursor <= |st.text| && BufferInvariant(cfg, st.text)
    requires HexGuard(cfg, st.cursor, key) == Proceed
    ensures BufferInvariant(cfg, SuperUpdate(cfg, st, key).text)
  {
    var s, c := st.text, st.cursor;
    match key
    case Typed(ch) =>
    case Backspace => if c > 0 { RemoveAt(s, c - 1); }
    case Delete => if c < |s| { RemoveAt(s, c); }
  }

  /**
   * One key press keeps the buffer invariant and the cursor within the buffer, and
   * with the corrected RGB guard it never raises.
   */
  lemma UpdateKeepsInvariant(cfg: Config, st: TextState, key: Key)
    requires cfg.WellFormed() && st.cursor <= |st.text| && BufferInvariant(cfg, st.text)
    ensures var r := Update(cfg, st, key);
      r.result.Returns? && BufferInvariant(cfg, r.state.text) && r.state.cursor <= |r.state.text|
  {
    match cfg.colorType
    case Rgb =>
      RgbGuardNeverFails(cfg, st, key);
      if Guard(cfg, st, key) == Proceed {
        var st1 := SuperUpdate(cfg, st, key);
        RgbSuperUpdateKeeps(cfg, st, key);
        if Count(st.text, cfg.separator) == 0 {
          RgbProceedHead(cfg, st, key);
        }
        RgbAfterSafe(cfg, st, st1, KeyChar(key), st1 != st);
      }
    case Hex =>
      var st0 := st.(text := FormatHex(cfg, st.text));
      FormatHexKeepsValue(cfg, st.text);
      if Guard(cfg, st, key) == Proceed {
        HexSuperUpdateKeeps(cfg, st0, key);
      }
  }

  /** In HEX mode a leading '#' is never removed or moved, whatever the key. */
  lemma HexLeadingHashKept(cfg: Config, st: TextState, key: Key)
    requires cfg.colorType == Hex && st.cursor <= |st.text|
    requires st.text != [] && st.text[0] == '#'
    ensures var r := Update(cfg, st, key);
      r.result.Returns? && r.state.text != [] && r.state.text[0] == '#'
  {
    var st0 := st.(text := FormatHex(cfg, st.text));
    CaseKeepsHexDigit(st.text[0]);
    assert st0.text[0] == '#';
    var s, c := st0.text, st0.cursor;
    if Guard(cfg, st, key) == Proceed {
      match key
      case Typed(ch) =>
      case Backspace => if c > 0 { RemoveAt(s, c - 1); }
      case Delete => if c < |s| { RemoveAt(s, c); }
    }
  }

  /**
   * As written, the separator typed at the start of a one-digit RGB buffer is let
   * through and the final reset then parses the empty first channel and raises; the
   * corrected guard refuses the key and leaves the state alone.
   */
  lemma SeparatorAtStart(cfg: Config, d: char, a: seq<int>)
    requires cfg.colorType == Rgb && cfg.WellFormed() && IsDigit(d)
    ensures var sep := cfg.separator;
      UpdateAsWritten(cfg, TextState([d], 0, a), Typed(sep)) == Step(Raises(ValueError), TextState([sep, d], 1, a))
    ensures Update(cfg, TextState([d], 0, a), Typed(cfg.separator)) == Step(Returns(false), TextState([d], 0, a))
  {
    var sep := cfg.separator;
    var st := TextState([d], 0, a);
    assert GuardAsWritten(cfg, st, Typed(sep)) == Proceed;
    var st1 := SuperUpdate(cfg, st, Typed(sep));
    assert st1 == TextState([sep, d], 1, a);
    assert Count([d], sep) == 0;
    assert !ZeroNeedsSeparator(sep, 0, st1, sep);
    var colors := Split(st1.text, sep);
    assert colors == [[], [d]] by {
      assert st1.text[1..] == [d];
      SplitNoSeparator([d], sep);
    }
    assert ChannelsOverflow(colors) == Returns(false) by {
      assert ChannelsOverflow(colors[1..]) == Returns(false) by {
        assert colors[1..][0] == [d] && colors[1..][1..] == [];
        assert DecimalValue([d]) == DigitValue(d) by {
          assert [d][..0] == [];
        }
      }
    }
  }

  /** The concrete input of the finding: "5" with the cursor at 0 and ',' typed. */
  lemma SeparatorAtStartExample(hexFormat: HexFormat)
    ensures UpdateAsWritten(Config(Rgb, hexFormat, ','), TextState("5", 0, []), Typed(',')).result == Raises(ValueError)
    ensures Update(Config(Rgb, hexFormat, ','), TextState("5", 0, []), Typed(',')).result == Returns(false)
  {
    SeparatorAtStart(Config(Rgb, hexFormat, ','), '5', []);
  }

  // ---------------------------------------------------------------------------
  // Overflow and the auto-separator list
  // ---------------------------------------------------------------------------

  /** Typing the separator at the end of the buffer appends it. */
  lemma PushAtEnd(cfg: Config, st: TextState)
    requires st.cursor == |st.text|
    ensures PushSeparator(cfg, st).text == st.text || PushSeparator(cfg, st) == st.(text := st.text + [cfg.separator], cursor := st.cursor + 1)
  {
    assert Insert(st.text, |st.text|, cfg.separator) == st.text + [cfg.separator];
  }

  /** The final step adds at most a separator at the end of the text it is given. */
  lemma AutoSeparatorText(cfg: Config, total: nat, colors: seq<string>, st4: TextState, updated: bool)
    requires colors != [] && st4.cursor <= |st4.text|
    ensures var st' := AutoSeparator(cfg, total, colors, st4, updated).state;
      (st'.text == st4.text && st'.cursor == st4.cursor) ||
      (st'.text == st4.text + [cfg.separator] && st'.cursor == |st'.text| &&
       total < 2 && st4.cursor == |st4.text| && colors[|colors| - 1] != [])
  {
    if total < 2 && |st4.text| == st4.cursor {
      var last := colors[|colors| - 1];
      assert ChannelComplete(last) == Returns(true) ==> last != [];
      PushAtEnd(cfg, st4);
    }
  }

  /**
   * A channel above 255 puts back the text and cursor of before the key (perhaps
   * followed by an automatic separator); otherwise the text after the superclass
   * stays, perhaps followed by an automatic separator.
   */
  lemma OverflowReverts(cfg: Config, st0: TextState, st2: TextState, total: nat, updated: bool)
    requires st0.cursor <= |st0.text| && st2.cursor <= |st2.text|
    requires ChannelsOverflow(Split(st2.text, cfg.separator)).Returns?
    ensures var st' := CheckChannels(cfg, st0, st2, total, updated).state;
      if ChannelsOverflow(Split(st2.text, cfg.separator)).value then
        (st'.text == st0.text && st'.cursor == st0.cursor) ||
        (st'.text == st0.text + [cfg.separator] && st'.cursor == |st'.text|)
      else
        (st'.text == st2.text && st'.cursor == st2.cursor) ||
        (st'.text == st2.text + [cfg.separator] && st'.cursor == |st'.text|)
  {
    var colors := Split(st2.text, cfg.separator);
    var over := ChannelsOverflow(colors).value;
    var st3 := if over then st2.(text := st0.text, cursor := st0.cursor) else st2;
    var st4 := if |colors| == 3 then st3.(autoSep := [0, 1]) else st3;
    AutoSeparatorText(cfg, total, colors, st4, updated);
  }

  predicate Distinct(xs: seq<int>)
  {
    forall i, j :: 0 <= i < j < |xs| ==> xs[i] != xs[j]
  }

  /** What the auto-separator list can become: emptied, [0, 1], unchanged, or one of the last two with a new index appended. */
  predicate AutoSepStep(before: seq<int>, after: seq<int>)
  {
    || after == [] || after == [0, 1] || after == before
    || (after != [] && (after[..|after| - 1] == before || after[..|after| - 1] == [0, 1])
        && after[|after| - 1] !in after[..|after| - 1])
  }

  lemma AutoSepStepDistinct(before: seq<int>, after: seq<int>)
    requires AutoSepStep(before, after) && Distinct(before)
    ensures Distinct(after)
  {
    if after != [] && after != [0, 1] && after != before {
      var init := after[..|after| - 1];
      assert Distinct(init);
      forall i, j | 0 <= i < j < |after|
        ensures after[i] != after[j]
      {
        if j < |after| - 1 {
          assert after[i] == init[i] && after[j] == init[j];
        } else {
          assert after[i] == init[i];
        }
      }
    }
  }

  lemma AutoSeparatorList(cfg: Config, total: nat, colors: seq<string>, st4: TextState, updated: bool, before: seq<int>)
    requires colors != [] && st4.cursor <= |st4.text|
    requires st4.autoSep == before || st4.autoSep == [0, 1]
    ensures AutoSepStep(before, AutoSeparator(cfg, total, colors, st4, updated).state.autoSep)
  {
    if total < 2 && |st4.text| == st4.cursor {
      var a := st4.autoSep + [|colors| - 1];
      assert a[..|a| - 1] == st4.autoSep;
    }
  }

  /**
   * One key press changes the auto-separator list only by emptying it, setting it to
   * [0, 1], or appending a channel index not yet in it; so it never holds an index twice.
   */
  lemma UpdateAutoSeparators(cfg: Config, st: TextState, key: Key)
    requires st.cursor <= |st.text|
    ensures AutoSepStep(st.autoSep, Update(cfg, st, key).state.autoSep)
    ensures Distinct(st.autoSep) ==> Distinct(Update(cfg, st, key).state.autoSep)
    ensures cfg.colorType == Hex ==> Update(cfg, st, key).state.autoSep == st.autoSep
  {
    if cfg.colorType == Rgb && Guard(cfg, st, key) == Proceed {
      var st1 := SuperUpdate(cfg, st, key);
      var total := Count(st.text, cfg.separator);
      var st2 := if ZeroNeedsSeparator(cfg.separator, total, st1, KeyChar(key)) then PushSeparator(cfg, st1) else st1;
      var colors := Split(st2.text, cfg.separator);
      if ChannelsOverflow(colors).Returns? {
        var over := ChannelsOverflow(colors).value;
        var st3 := if over then st2.(text := st.text, cursor := st.cursor) else st2;
        var st4 := if |colors| == 3 then st3.(autoSep := [0, 1]) else st3;
        AutoSeparatorList(cfg, total, colors, st4, st1 != st, st.autoSep);
      }
    }
    if Distinct(st.autoSep) {
      AutoSepStepDistinct(st.autoSep, Update(cfg, st, key).state.autoSep);
    }
  }

  // ---------------------------------------------------------------------------
  // At most three channels
  // ---------------------------------------------------------------------------

  lemma CountInsert(s: string, c: nat, ch: char, x: char)
    requires c <= |s|
    ensures Count(Insert(s, c, ch), x) == Count(s, x) + (if ch == x then 1 else 0)
  {
    var a, b := s[..c], s[c..];
    assert Insert(s, c, ch) == (a + [ch]) + b;
    CountConcat(a + [ch], b, x);
    CountConcat(a, [ch], x);
    CountConcat(a, b, x);
    assert a + b == s;
  }

  lemma CountRemove(s: string, i: nat, x: char)
    requires i < |s|
    ensures Count(s[..i] + s[i + 1..], x) <= Count(s, x)
  {
    assert s == s[..i] + ([s[i]] + s[i + 1..]);
    CountConcat(s[..i], [s[i]] + s[i + 1..], x);
    CountConcat([s[i]], s[i + 1..], x);
    CountConcat(s[..i], s[i + 1..], x);
  }

  /** A text that ends with the separator splits into parts the last of which is empty. */
  lemma {:induction false} SplitLastEmpty(t: string, sep: char)
    requires t != [] && t[|t| - 1] == sep
    ensures Split(t, sep)[|Split(t, sep)| - 1] == []
  {
    var rest := t[1..];
    if rest != [] {
      SplitLastEmpty(rest, sep);
      assert rest[|rest| - 1] == sep;
      assert Count(rest, sep) >= 1;
    }
  }

  /** The automatic separator is only typed after a non-empty last channel. */
  lemma AutoSeparatorCount(cfg: Config, total: nat, colors: seq<string>, st4: TextState, updated: bool)
    requires colors != [] && st4.cursor <= |st4.text|
    requires Count(st4.text, cfg.separator) <= 2
    requires total < 2 && st4.cursor == |st4.text| && colors[|colors| - 1] != [] ==> Count(st4.text, cfg.separator) <= 1
    ensures Count(AutoSeparator(cfg, total, colors, st4, updated).state.text, cfg.separator) <= 2
  {
    AutoSeparatorText(cfg, total, colors, st4, updated);
    CountConcat(st4.text, [cfg.separator], cfg.separator);
  }

  /** The superclass adds a separator only when the key is the separator, and a typed separator is last or before the cursor's end. */
  lemma SuperUpdateCount(cfg: Config, st: TextState, key: Key)
    requires st.cursor <= |st.text|
    ensures var st1 := SuperUpdate(cfg, st, key);
      && Count(st1.text, cfg.separator) <= Count(st.text, cfg.separator) + (if key == Typed(cfg.separator) then 1 else 0)
      && (Count(st1.text, cfg.separator) > Count(st.text, cfg.separator) ==>
            st1.cursor < |st1.text| || st1.text[|st1.text| - 1] == cfg.separator)
  {
    var s, c := st.text, st.cursor;
    match key
    case Typed(ch) =>
      if IsValidChar(cfg, ch) && |s| < MaxChar(cfg) {
        CountInsert(s, c, ch, cfg.separator);
      }
    case Backspace => if c > 0 { CountRemove(s, c - 1, cfg.separator); }
    case Delete => if c < |s| { CountRemove(s, c, cfg.separator); }
  }

  lemma CheckChannelsCount(cfg: Config, st0: TextState, st2: TextState, total: nat, updated: bool)
    requires st0.cursor <= |st0.text| && st2.cursor <= |st2.text|
    requires total == Count(st0.text, cfg.separator) && total <= 2 && Count(st2.text, cfg.separator) <= 2
    requires Count(st2.text, cfg.separator) > total ==>
      st2.cursor < |st2.text| || st2.text[|st2.text| - 1] == cfg.separator
    ensures Count(CheckChannels(cfg, st0, st2, total, updated).state.text, cfg.separator) <= 2
  {
    var sep := cfg.separator;
    var colors := Split(st2.text, sep);
    if ChannelsOverflow(colors).Returns? {
      var over := ChannelsOverflow(colors).value;
      var st3 := if over then st2.(text := st0.text, cursor := st0.cursor) else st2;
      var st4 := if |colors| == 3 then st3.(autoSep := [0, 1]) else st3;
      if !over && st2.cursor == |st2.text| && Count(st2.text, sep) > total {
        SplitLastEmpty(st2.text, sep);
      }
      AutoSeparatorCount(cfg, total, colors, st4, updated);
    }
  }

  lemma RgbAfterCount(cfg: Config, st0: TextState, st1: TextState, k: char, updated: bool)
    requires st0.cursor <= |st0.text| && st1.cursor <= |st1.text|
    requires Count(st0.text, cfg.separator) <= 2 && Count(st1.text, cfg.separator) <= 2
    requires k == '0' ==> Count(st1.text, cfg.separator) <= Count(st0.text, cfg.separator)
    requires Count(st1.text, cfg.separator) > Count(st0.text, cfg.separator) ==>
      st1.cursor < |st1.text| || st1.text[|st1.text| - 1] == cfg.separator
    ensures Count(RgbAfter(cfg, st0, st1, k, updated).state.text, cfg.separator) <= 2
  {
    var sep := cfg.separator;
    var total := Count(st0.text, sep);
    var st2 := if ZeroNeedsSeparator(sep, total, st1, k) then PushSeparator(cfg, st1) else st1;
    if ZeroNeedsSeparator(sep, total, st1, k) {
      PushAtEnd(cfg, st1);
      CountInsert(st1.text, st1.cursor, sep, sep);
    }
    CheckChannelsCount(cfg, st0, st2, total, updated);
  }

  /** An RGB buffer never comes to hold more than two separators, that is more than three channels. */
  lemma UpdateKeepsThreeChannels(cfg: Config, st: TextState, key: Key)
    requires cfg.colorType == Rgb && cfg.WellFormed() && st.cursor <= |st.text|
    requires Count(st.text, cfg.separator) <= 2
    ensures Count(Update(cfg, st, key).state.text, cfg.separator) <= 2
  {
    if Guard(cfg, st, key) == Proceed {
      RgbSeparatorGuard(cfg, st);
      SuperUpdateCount(cfg, st, key);
      RgbAfterCount(cfg, st, SuperUpdate(cfg, st, key), KeyChar(key), SuperUpdate(cfg, st, key) != st);
    }
  }

  // ---------------------------------------------------------------------------
  // HEX normalisation of set_value
  // ---------------------------------------------------------------------------

  /** The hex digits of `s`, in order. */
  function HexDigitsOf(s: string): (r: string)
    ensures |r| <= |s| && forall i :: 0 <= i < |r| ==> IsHexDigit(r[i])
  {
    if s == [] then [] else (if IsHexDigit(s[0]) then [s[0]] else []) + HexDigitsOf(s[1..])
  }

  /** Dropping the '#' from what the HEX filter keeps leaves the hex digits. */
  lemma {:induction false} FilterThenDropHashes(s: string)
    ensures RemoveAll(HexFilter(s), '#') == HexDigitsOf(s)
  {
    if s != [] {
      FilterThenDropHashes(s[1..]);
      var head := if IsHexDigit(s[0]) || s[0] == '#' then [s[0]] else [];
      assert HexFilter(s) == head + HexFilter(s[1..]);
      RemoveAllConcat(head, HexFilter(s[1..]), '#');
    }
  }

  lemma {:induction false} RemoveAllConcat(a: string, b: string, ch: char)
    ensures RemoveAll(a + b, ch) == RemoveAll(a, ch) + RemoveAll(b, ch)
  {
    if a != [] {
      var h := if a[0] == ch then [] else [a[0]];
      assert (a + b)[0] == a[0] && (a + b)[1..] == a[1..] + b;
      assert RemoveAll(a + b, ch) == h + RemoveAll(a[1..] + b, ch);
      RemoveAllConcat(a[1..], b, ch);
      assert RemoveAll(a, ch) == h + RemoveAll(a[1..], ch);
      assert h + (RemoveAll(a[1..], ch) + RemoveAll(b, ch)) == (h + RemoveAll(a[1..], ch)) + RemoveAll(b, ch);
    } else {
      assert a + b == b;
    }
  }

  /**
   * HEX `set_value` on any value: '' or '#' (after stripping) stores '#'; otherwise
   * the corrected check accepts the value exactly when the hex characters kept are
   * six hex digits, or '#' and six hex digits, and what is stored is '#' followed by
   * the value's hex digits in order, every other character dropped. The check as
   * written also accepts seven kept characters with two or more '#', and stores them.
   */
  lemma HexNormalises(color: ColorArg)
    ensures var t := Strip(ColorStr(color));
      t == [] || t == "#" ==> HexText(color) == Returns("#")
    ensures var t := Strip(ColorStr(color)); var v := HexFilter(t);
      t != [] && t != "#" ==>
        (HexText(color).Returns? <==>
          (Count(v, '#') == 0 && |v| == 6) || (Count(v, '#') == 1 && |v| == 7 && v[0] == '#'))
    ensures var t := Strip(ColorStr(color));
      t != [] && t != "#" && HexText(color).Returns? ==> HexText(color).value == "#" + HexDigitsOf(t)
    ensures var t := Strip(ColorStr(color)); var v := HexFilter(t);
      t != [] && t != "#" && HexText(color).Returns? ==>
        HexText(color).value == (if Count(v, '#') == 0 then "#" + v else v)
    ensures var t := Strip(ColorStr(color)); var v := HexFilter(t);
      t != [] && t != "#" ==>
        (HexTextAsWritten(color).Returns? <==>
          (Count(v, '#') == 0 && |v| == 6) || (Count(v, '#') == 1 && |v| == 7 && v[0] == '#') ||
          (Count(v, '#') >= 2 && |v| == 7))
    ensures var t := Strip(ColorStr(color)); var v := HexFilter(t);
      t == [] || t == "#" ==> HexTextAsWritten(color) == Returns("#")
    ensures var t := Strip(ColorStr(color)); var v := HexFilter(t);
      t != [] && t != "#" && Count(v, '#') >= 2 && |v| == 7 ==> HexTextAsWritten(color) == Returns(v)
  {
    var t := Strip(ColorStr(color));
    if t != [] && t != "#" {
      HexCheckAsWrittenAccepts(t);
      HexCheckAccepts(t);
      if HexCheck(t).Returns? {
        HexCheckStores(t);
      }
    }
  }

  /** When the format check as written accepts a text other than '' and '#', and what it stores when two or more '#' are kept. */
  lemma HexCheckAsWrittenAccepts(t: string)
    requires t != [] && t != "#"
    ensures var v := HexFilter(t);
      HexCheckAsWritten(t).Returns? <==>
        (Count(v, '#') == 0 && |v| == 6) || (Count(v, '#') == 1 && |v| == 7 && v[0] == '#') ||
        (Count(v, '#') >= 2 && |v| == 7)
    ensures var v := HexFilter(t); Count(v, '#') >= 2 && |v| == 7 ==> HexCheckAsWritten(t) == Returns(v)
  {
  }

  /** When the format check accepts a text other than '' and '#'. */
  lemma HexCheckAccepts(t: string)
    requires t != [] && t != "#"
    ensures var v := HexFilter(t);
      HexCheck(t).Returns? <==> (Count(v, '#') == 0 && |v| == 6) || (Count(v, '#') == 1 && |v| == 7 && v[0] == '#')
  {
  }

  /** What the format check stores for a text other than '' and '#': '#' and the text's hex digits. */
  lemma HexCheckStores(t: string)
    requires t != [] && t != "#" && HexCheck(t).Returns?
    ensures HexCheck(t).value == "#" + HexDigitsOf(t)
    ensures var v := HexFilter(t); HexCheck(t).value == (if Count(v, '#') == 0 then "#" + v else v)
  {
    var v := HexFilter(t);
    FilterThenDropHashes(t);
    if Count(v, '#') == 0 {
      RemoveAbsent(v, '#');
      assert HexCheck(t).value == "#" + v;
    } else {
      assert Count(v, '#') == 1 && v[0] == '#';
      assert v == [v[0]] + v[1..];
      CountConcat([v[0]], v[1..], '#');
      RemoveAbsent(v[1..], '#');
      assert RemoveAll(v, '#') == v[1..];
      assert HexCheck(t).value == v;
    }
  }

  // ---------------------------------------------------------------------------
  // Where the corrected functions and the code as written part ways
  // ---------------------------------------------------------------------------

  lemma HashAfterStart(v: string)
    requires Count(v, '#') >= 2
    ensures v != [] && '#' in v[1..]
  {
    assert v != [];
    assert v == [v[0]] + v[1..];
    CountConcat([v[0]], v[1..], '#');
  }

  /**
   * The HEX branch as written and corrected agree except on `ExtraHashes`, where
   * the code as written stores the seven filtered characters and the corrected
   * check fails its assertion.
   */
  lemma HexTextAgrees(color: ColorArg)
    ensures HexText(color) == HexTextAsWritten(color) <==> !ExtraHashes(color)
    ensures ExtraHashes(color) ==>
      HexTextAsWritten(color) == Returns(HexFilter(Strip(ColorStr(color)))) &&
      HexText(color) == Raises(AssertionError)
  {
  }

  /**
   * `set_value` as written and corrected agree except on a HEX value with
   * `ExtraHashes`. There the code as written stores a buffer that breaks the HEX
   * invariant (a '#' after the first character), and the corrected one leaves the
   * state alone with AssertionError.
   */
  lemma SetValueAgrees(cfg: Config, st: TextState, color: ColorArg)
    ensures !(cfg.colorType == Hex && ExtraHashes(color)) ==>
      SetValueSpec(cfg, st, color) == SetValueSpecAsWritten(cfg, st, color)
    ensures cfg.colorType == Hex && ExtraHashes(color) ==>
      SetValueSpec(cfg, st, color) == Step(Raises(AssertionError), st) &&
      SetValueSpecAsWritten(cfg, st, color).result == Returns(()) &&
      !BufferInvariant(cfg, SetValueSpecAsWritten(cfg, st, color).state.text)
  {
    HexTextAgrees(color);
    if cfg.colorType == Hex && ExtraHashes(color) {
      var v := HexFilter(Strip(ColorStr(color)));
      assert SetValueTextAsWritten(cfg, color) == Returns(FormatHex(cfg, v));
      ExtraHashBreaks(cfg, v);
    }
  }

  /** A '#' after the first character survives the letter-case rule and breaks the HEX invariant. */
  lemma ExtraHashBreaks(cfg: Config, v: string)
    requires cfg.colorType == Hex && Count(v, '#') >= 2
    ensures !BufferInvariant(cfg, FormatHex(cfg, v))
  {
    var w := FormatHex(cfg, v);
    HashAfterStart(v);
    var j :| 0 <= j < |v[1..]| && v[1..][j] == '#';
    CaseKeepsHexDigit(v[j + 1]);
    assert w[j + 1] == '#' && !IsHexDigit(w[j + 1]);
  }

  /**
   * The RGB guard as written and corrected agree except on `SeparatorFirst`, where
   * the code as written lets the separator through and the corrected one refuses it.
   */
  lemma RgbGuardAgrees(cfg: Config, s: string, c: nat, key: Key)
    requires cfg.colorType == Rgb && c <= |s|
    ensures RgbGuard(cfg, s, c, key) == RgbGuardAsWritten(cfg, s, c, key) <==> !SeparatorFirst(cfg, s, c, key)
    ensures SeparatorFirst(cfg, s, c, key) ==>
      RgbGuard(cfg, s, c, key) == Stop(false) && RgbGuardAsWritten(cfg, s, c, key) == Proceed
  {
  }

  /**
   * `update` as written and corrected agree except on `SeparatorFirst`. There the
   * corrected one leaves the state alone and returns False, and the code as written
   * goes on to the superclass and the repairs.
   */
  lemma UpdateAgrees(cfg: Config, st: TextState, key: Key)
    requires st.cursor <= |st.text|
    ensures !SeparatorFirst(cfg, st.text, st.cursor, key) ==> Update(cfg, st, key) == UpdateAsWritten(cfg, st, key)
    ensures SeparatorFirst(cfg, st.text, st.cursor, key) ==>
      Update(cfg, st, key) == Step(Returns(false), st) &&
      UpdateAsWritten(cfg, st, key) == UpdateWith(cfg, st, key, Proceed)
  {
    if cfg.colorType == Rgb {
      RgbGuardAgrees(cfg, st.text, st.cursor, key);
    }
  }

  /** A separator typed at cursor 0 of "12": as written it is inserted and nothing raises; corrected, it is refused. */
  lemma SeparatorFirstExample(hexFormat: HexFormat)
    ensures UpdateAsWritten(Config(Rgb, hexFormat, ','), TextState("12", 0, []), Typed(',')) ==
      Step(Returns(true), TextState(",12", 1, []))
    ensures Update(Config(Rgb, hexFormat, ','), TextState("12", 0, []), Typed(',')) ==
      Step(Returns(false), TextState("12", 0, []))
  {
    var cfg := Config(Rgb, hexFormat, ',');
    var st := TextState("12", 0, []);
    assert Count("12", ',') == 0;
    assert Insert("12", 0, ',') == ",12";
    var st1 := TextState(",12", 1, []);
    assert SuperUpdate(cfg, st, Typed(',')) == st1;
    assert Split(",12", ',') == ["", "12"] by {
      SplitNoSeparator("12", ',');
      SplitAfterPart("", ',', "12");
    }
    assert "12"[..1] == "1" && "1"[..0] == [];
    assert ParseInt("12") == Some(12);
  }

  // ---------------------------------------------------------------------------
  // The automatic separator and the list that records it
  // ---------------------------------------------------------------------------

  /**
   * The automatic separator of channel k = |colors| - 1 is appended exactly when
   * fewer than two separators were there, the cursor is at the end, the last channel
   * is complete and k is not in the list yet; k is then recorded at the end of the
   * list. Otherwise the buffer stays and the list stays or is reset to [].
   */
  lemma AutoSeparatorRecord(cfg: Config, total: nat, colors: seq<string>, st4: TextState, updated: bool)
    requires cfg.colorType == Rgb && st4.cursor <= |st4.text| && |st4.text| < MaxChar(cfg)
    requires colors == Split(st4.text, cfg.separator)
    ensures var r := AutoSeparator(cfg, total, colors, st4, updated);
      var k := |colors| - 1;
      var push := total < 2 && |st4.text| == st4.cursor && ChannelComplete(colors[k]) == Returns(true) &&
        k !in st4.autoSep;
      && r.state.text == (if push then st4.text + [cfg.separator] else st4.text)
      && (push ==> r.state.autoSep == st4.autoSep + [k] && r.state.cursor == |r.state.text|)
      && (!push ==> r.state.autoSep == st4.autoSep || r.state.autoSep == [])
  {
    var k := |colors| - 1;
    if total < 2 && |st4.text| == st4.cursor {
      match ChannelComplete(colors[k])
      case Raises(e) =>
      case Returns(complete) =>
        var st5 := if complete && k !in st4.autoSep
                   then PushSeparator(cfg, st4).(autoSep := st4.autoSep + [k])
                   else st4;
        ResetKeeps(total, colors, st5, updated);
        if complete && k !in st4.autoSep {
          PartShorter(st4.text, cfg.separator, k);
          assert Insert(st4.text, st4.cursor, cfg.separator) == st4.text + [cfg.separator];
        }
    } else {
      ResetKeeps(total, colors, st4, updated);
    }
  }

  /** Resetting the auto separators keeps the buffer and cursor, and keeps a list of more than two characters' buffer. */
  lemma ResetKeeps(total: nat, colors: seq<string>, st: TextState, updated: bool)
    requires colors != []
    ensures var r := ResetAutoSeparators(total, colors, st, updated);
      r.state.text == st.text && r.state.cursor == st.cursor &&
      (r.state.autoSep == st.autoSep || r.state.autoSep == []) &&
      (|st.text| > 2 ==> r.state == st)
  {
  }

  lemma {:induction false} PartShorter(s: string, sep: char, i: nat)
    requires i < |Split(s, sep)|
    ensures |Split(s, sep)[i]| <= |s|
  {
    if s != [] {
      var rest := Split(s[1..], sep);
      if s[0] == sep {
        if i > 0 {
          PartShorter(s[1..], sep, i - 1);
        }
      } else if i == 0 {
        PartShorter(s[1..], sep, 0);
      } else {
        PartShorter(s[1..], sep, i);
      }
    }
  }
}
