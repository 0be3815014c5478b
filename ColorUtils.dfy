/** `addOpacityToHexColor`: gives a "#rrggbb" colour an alpha component, or
    shifts the alpha of a "#rrggbbaa" colour, with the result rounded,
    clamped to [0, 255] and written back with `toString(16)`. */
module ColorUtils {
  import opened Wrappers
  import opened Strings
  import opened JsMath
  import Theme

  /** The `ValueError` thrown for a code of the wrong length. */
  datatype ValueError = ValueError(message: string)

  function LengthMessage(length: nat): string {
    "hexCode has a length of " + NatToString(length) + ", expected 7 or 9."
  }

  /** The new alpha value: `opacity * 255` for a seven-character code, the
      code's own alpha (read with `parseInt(…, 16)`) plus `opacity * 255` for
      a nine-character one; rounded and clamped. `None` is `NaN`, the value
      when the existing alpha is not hexadecimal. */
  function NewAlpha(hexCode: string, opacity: real): (r: Option<int>)
    requires |hexCode| == 7 || |hexCode| == 9
    ensures r.Some? ==> 0 <= r.value <= 255
    ensures |hexCode| == 7 ==> r.Some?
  {
    var newOpacity: Option<real> :=
      if |hexCode| == 7 then Some(opacity * 255.0)
      else
        match ParseIntHex(hexCode[7..])
        case Some(alpha) => Some(alpha as real + opacity * 255.0)
        case None => None;
    match newOpacity
    case Some(x) => Some(Clamp(Round(x), 0, 255))
    case None => None
  }

  /** `addOpacityToHexColor(hexCode, opacity)`: the first seven characters of
      the code followed by the new alpha in lower-case hexadecimal without
      zero-padding (`NaN` when the alpha is not a number); a `ValueError`
      unless the code has 7 or 9 characters. */
  function AddOpacityToHexColor(hexCode: string, opacity: real): (r: Result<string, ValueError>)
    ensures r.Err? <==> |hexCode| != 7 && |hexCode| != 9
    ensures r.Err? ==> r.error.message == LengthMessage(|hexCode|)
    ensures r.Ok? ==> |r.value| > 7 && r.value[..7] == hexCode[..7]
  {
    if |hexCode| != 7 && |hexCode| != 9 then
      Err(ValueError(LengthMessage(|hexCode|)))
    else
      var alphaText :=
        match NewAlpha(hexCode, opacity)
        case Some(alpha) => HexString(alpha)
        case None => "NaN";
      Ok(hexCode[..7] + alphaText)
  }

  /** Whenever the alpha is a number, the output is 8 or 9 characters long
      (one hex digit below 16, two otherwise) and its tail reads back, with
      `parseInt(…, 16)`, as exactly the clamped alpha. */
  lemma AlphaReadsBack(hexCode: string, opacity: real)
    requires |hexCode| == 7 || |hexCode| == 9
    requires NewAlpha(hexCode, opacity).Some?
    ensures var out := AddOpacityToHexColor(hexCode, opacity).value;
            && (|out| == 8 <==> NewAlpha(hexCode, opacity).value < 16)
            && |out| <= 9
            && ParseIntHex(out[7..]) == NewAlpha(hexCode, opacity)
  {
    var alpha := NewAlpha(hexCode, opacity).value;
    var out := AddOpacityToHexColor(hexCode, opacity).value;
    assert out[7..] == HexString(alpha);
    HexStringRoundTrip(alpha);
  }

  /** A seven-character code gets `round(opacity * 255)` clamped to [0, 255];
      for an opacity between 0 and 1, as documented, the clamp never bites. */
  lemma SevenCharacterAlpha(hexCode: string, opacity: real)
    requires |hexCode| == 7
    ensures NewAlpha(hexCode, opacity) == Some(Clamp(Round(opacity * 255.0), 0, 255))
    ensures 0.0 <= opacity <= 1.0 ==> NewAlpha(hexCode, opacity) == Some(Round(opacity * 255.0))
  {
  }

  /** A nine-character code whose alpha is two hex digits gets that alpha plus
      `opacity * 255` (a negative opacity subtracts), rounded and clamped; an
      opacity of 0 keeps the alpha value. */
  lemma NineCharacterAlpha(hexCode: string, opacity: real)
    requires |hexCode| == 9 && IsHexDigit(hexCode[7]) && IsHexDigit(hexCode[8])
    ensures var alpha := 16 * HexDigitValue(hexCode[7]) + HexDigitValue(hexCode[8]);
            && NewAlpha(hexCode, opacity) == Some(Clamp(Round(alpha as real + opacity * 255.0), 0, 255))
            && NewAlpha(hexCode, 0.0) == Some(alpha)
  {
    assert hexCode[7..] == [hexCode[7], hexCode[8]];
    ParseTwoHexDigits(hexCode[7], hexCode[8]);
    var alpha := 16 * HexDigitValue(hexCode[7]) + HexDigitValue(hexCode[8]);
    RoundOfInteger(alpha);
  }

  /** Adding zero opacity to a lower-case "#rrggbbaa" code whose alpha has no
      leading zero gives the code back unchanged. */
  lemma ZeroOpacityIsIdentity(hexCode: string)
    requires |hexCode| == 9
    requires IsLowerHexDigit(hexCode[7]) && IsLowerHexDigit(hexCode[8]) && hexCode[7] != '0'
    ensures AddOpacityToHexColor(hexCode, 0.0) == Ok(hexCode)
  {
    NineCharacterAlpha(hexCode, 0.0);
    HexStringOfTwoDigits(hexCode[7], hexCode[8]);
    assert hexCode[..7] + [hexCode[7], hexCode[8]] == hexCode;
  }

  /** A nine-character code whose alpha `parseInt` reads as `NaN` keeps its
      first seven characters followed by the text "NaN", and only such a
      code does: a numeric alpha is written in hexadecimal digits. */
  lemma NonHexAlphaGivesNaN(hexCode: string, opacity: real)
    requires |hexCode| == 9
    ensures ParseIntHex(hexCode[7..]).None? <==> AddOpacityToHexColor(hexCode, opacity) == Ok(hexCode[..7] + "NaN")
  {
    var out := AddOpacityToHexColor(hexCode, opacity).value;
    if ParseIntHex(hexCode[7..]).Some? {
      var alpha := NewAlpha(hexCode, opacity).value;
      assert out == hexCode[..7] + HexString(alpha);
      assert out[7] == HexString(alpha)[0];
      assert IsLowerHexDigit(out[7]);
    }
  }

  /** The upper-case colour with the alpha "zz": `parseInt("zz", 16)` is `NaN`. */
  lemma NonHexAlphaExample()
    ensures AddOpacityToHexColor("#1B1B1Bzz", 0.5) == Ok("#1B1B1BNaN")
  {
    var s := "zz";
    assert "#1B1B1Bzz"[7..] == s;
    assert HexPrefixLength(s) == 0;
    NonHexAlphaGivesNaN("#1B1B1Bzz", 0.5);
    assert "#1B1B1Bzz"[..7] + "NaN" == "#1B1B1BNaN";
  }

  /** The placeholder and inactive border colour of the search field: the
      primary text colour at the theme's inactive opacity 0.6 (153 = 0x99). */
  lemma InactiveTextColour()
    ensures AddOpacityToHexColor(Theme.TextPrimary, Theme.InputInactiveOpacity) == Ok("#1B1B1B99")
  {
    var code := Theme.TextPrimary;
    assert Round(0.6 * 255.0) == 153;
    assert NewAlpha(code, 0.6) == Some(153);
    assert HexString(153) == "99";
    assert code[..7] + "99" == "#1B1B1B99";
  }
}
