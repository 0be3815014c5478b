/** The two computed parts of a recipe card: the preparation time written as
    "H h M min" (or "M min" under an hour) and the favourite toggle, whose
    mode follows `isFavorite` and picks which heart icon is shown and which
    is shown on hover. */
module RecipeCard {
  import opened Wrappers
  import opened Strings

  // ---------------------------------------------------------------------------
  // Time

  /** `hours = Math.floor(t / 60)` and `mins = t - hours * 60`: the whole
      hours and the remaining minutes, the minutes always in [0, 60). (For a
      positive divisor Dafny's `/` is JavaScript's floor division.) */
  function SplitMinutes(timeInMinutes: int): (r: (int, int))
    ensures 60 * r.0 + r.1 == timeInMinutes
    ensures 0 <= r.1 < 60
  {
    var hours := timeInMinutes / 60;
    (hours, timeInMinutes - hours * 60)
  }

  /** There is only one such split, so `SplitMinutes` is floor division. */
  lemma SplitMinutesUnique(timeInMinutes: int, hours: int, mins: int)
    requires 60 * hours + mins == timeInMinutes && 0 <= mins < 60
    ensures SplitMinutes(timeInMinutes) == (hours, mins)
  {
  }

  /** `Time`: "H h M min" when the hours are non-zero, otherwise "M min";
      the minutes are not zero-padded. */
  function TimeString(timeInMinutes: int): string
  {
    var (hours, mins) := SplitMinutes(timeInMinutes);
    if hours != 0 then IntToString(hours) + " h " + IntToString(mins) + " min"
    else IntToString(mins) + " min"
  }

  /** Every time text ends in " min"; below an hour it is just the minutes,
      and from an hour on it starts with the whole hours and " h ". */
  lemma TimeStringShape(timeInMinutes: int)
    ensures var r := TimeString(timeInMinutes);
            && |r| >= 5 && r[|r| - 4..] == " min"
            && (0 <= timeInMinutes < 60 ==> r == NatToString(timeInMinutes) + " min")
            && (timeInMinutes >= 60 ==> StartsWith(r, NatToString(timeInMinutes / 60) + " h "))
  {
    var (hours, mins) := SplitMinutes(timeInMinutes);
    var r := TimeString(timeInMinutes);
    if hours != 0 {
      var prefix := IntToString(hours) + " h ";
      assert r == prefix + IntToString(mins) + " min";
      assert r[..|prefix|] == prefix;
    }
  }

  /** Reads a text of the form "H h M min" or "M min" back as minutes. */
  function ParseTimeString(s: string): Option<nat>
  {
    if |s| >= 4 && s[|s| - 4..] == " min" then ParseDuration(s[..|s| - 4]) else None
  }

  /** Reads "H h M" or "M" as minutes. */
  function ParseDuration(body: string): Option<nat>
  {
    if ' ' !in body then ParseNat(body)
    else
      var i := IndexOf(body, ' ');
      ParseHoursPart(body[..i], body[i..])
  }

  function ParseHoursPart(hoursText: string, rest: string): Option<nat>
  {
    if !StartsWith(rest, " h ") then None
    else
      match ParseNat(hoursText)
      case None => None
      case Some(h) =>
        match ParseNat(rest[3..])
        case None => None
        case Some(m) => Some(60 * h + m)
  }

  lemma NoSpaceInDigits(d: string)
    requires AllDigits(d)
    ensures ' ' !in d
  {
    forall k | 0 <= k < |d| ensures d[k] != ' ' { assert IsDigit(d[k]); }
  }

  lemma ParseWithSuffix(body: string)
    ensures ParseTimeString(body + " min") == ParseDuration(body)
  {
    var s := body + " min";
    assert s[|s| - 4..] == " min";
    assert s[..|s| - 4] == body;
  }

  lemma {:induction false} FirstSpaceAfterDigits(d: string, rest: string)
    requires AllDigits(d) && |rest| > 0 && rest[0] == ' '
    ensures ' ' in d + rest && IndexOf(d + rest, ' ') == |d|
  {
    assert (d + rest)[|d|] == ' ';
    if d != [] {
      assert (d + rest)[1..] == d[1..] + rest;
      FirstSpaceAfterDigits(d[1..], rest);
    }
  }

  lemma ParseHoursText(hours: nat, mins: nat)
    ensures ParseHoursPart(NatToString(hours), " h " + NatToString(mins)) == Some(60 * hours + mins)
  {
    var m := NatToString(mins);
    NatToStringRoundTrip(hours);
    NatToStringRoundTrip(mins);
    assert (" h " + m)[..3] == " h ";
    assert (" h " + m)[3..] == m;
  }

  lemma ParseHoursAndMinutes(hours: nat, mins: nat)
    ensures ParseDuration(NatToString(hours) + " h " + NatToString(mins)) == Some(60 * hours + mins)
  {
    var h, rest := NatToString(hours), " h " + NatToString(mins);
    var body := h + rest;
    assert body == NatToString(hours) + " h " + NatToString(mins);
    FirstSpaceAfterDigits(h, rest);
    assert body[..|h|] == h;
    assert body[|h|..] == rest;
    ParseHoursText(hours, mins);
  }

  /** The time text of a non-negative duration reads back as that duration,
      so the hours and minutes shown always add up to the recipe's time. */
  lemma TimeStringRoundTrip(timeInMinutes: nat)
    ensures ParseTimeString(TimeString(timeInMinutes)) == Some(timeInMinutes)
  {
    var (hours, mins) := SplitMinutes(timeInMinutes);
    NatToStringRoundTrip(mins);
    if hours == 0 {
      ParseWithSuffix(NatToString(mins));
      NoSpaceInDigits(NatToString(mins));
    } else {
      var body := NatToString(hours) + " h " + NatToString(mins);
      assert TimeString(timeInMinutes) == body + " min";
      ParseWithSuffix(body);
      ParseHoursAndMinutes(hours, mins);
    }
  }

  /** The time text of a duration whose hours and minutes print as the given
      texts. */
  lemma TimeStringOfParts(timeInMinutes: int, hoursText: string, minsText: string)
    requires IntToString(SplitMinutes(timeInMinutes).0) == hoursText
    requires IntToString(SplitMinutes(timeInMinutes).1) == minsText
    ensures SplitMinutes(timeInMinutes).0 != 0 ==> TimeString(timeInMinutes) == hoursText + " h " + minsText + " min"
    ensures SplitMinutes(timeInMinutes).0 == 0 ==> TimeString(timeInMinutes) == minsText + " min"
  {
  }

  lemma TwoHoursTwentyFive()
    ensures TimeString(145) == "2 h 25 min"
  {
    assert IntToString(2) == "2" && IntToString(25) == "25";
    TimeStringOfParts(145, "2", "25");
  }

  lemma OneHourExactly()
    ensures TimeString(60) == "1 h 0 min"
  {
    assert IntToString(1) == "1" && IntToString(0) == "0";
    TimeStringOfParts(60, "1", "0");
  }

  lemma OneHourFifty()
    ensures TimeString(110) == "1 h 50 min"
  {
    assert IntToString(1) == "1" && IntToString(50) == "50";
    TimeStringOfParts(110, "1", "50");
  }

  lemma FortyFiveMinutes()
    ensures TimeString(45) == "45 min"
  {
    assert IntToString(0) == "0" && IntToString(45) == "45";
    TimeStringOfParts(45, "0", "45");
  }

  /** The examples the card shows: 145 minutes, 60 minutes, 45 minutes. */
  lemma TimeStringExamples()
    ensures TimeString(145) == "2 h 25 min"
    ensures TimeString(60) == "1 h 0 min"
    ensures TimeString(45) == "45 min"
  {
    TwoHoursTwentyFive();
    OneHourExactly();
    FortyFiveMinutes();
  }

  // ---------------------------------------------------------------------------
  // Favourite toggle

  datatype Mode = Add | Remove
  datatype Icon = FavoriteIcon | NotFavoriteIcon

  /** The card's `mode={isFavorite ? "remove" : "add"}`. */
  function ToggleMode(isFavorite: bool): (m: Mode)
    ensures m == Remove <==> isFavorite
  {
    if isFavorite then Remove else Add
  }

  /** `FavoriteToggle`: the icon it shows and the icon it shows on hover. */
  function ToggleIcons(mode: Mode): (icons: (Icon, Icon))
    ensures icons.0 != icons.1
  {
    if mode == Add then (NotFavoriteIcon, FavoriteIcon) else (FavoriteIcon, NotFavoriteIcon)
  }

  /** The icon shows the current state (a filled heart for a favourite), and
      hovering previews the state after toggling: the hover icon is the icon
      of the opposite mode. */
  lemma ToggleIconsShowStateAndPreview(isFavorite: bool)
    ensures ToggleIcons(ToggleMode(isFavorite)).0 == (if isFavorite then FavoriteIcon else NotFavoriteIcon)
    ensures ToggleIcons(ToggleMode(isFavorite)).1 == ToggleIcons(ToggleMode(!isFavorite)).0
  {
  }
}
