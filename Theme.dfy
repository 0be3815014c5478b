/** The theme constants the modelled components read (colours, the tablet
    breakpoint, the mobile page padding, the inactive-input opacity), and the
    conversion both search components apply to a breakpoint such as "768px"
    to compare it with the viewport width. */
module Theme {
  import opened Wrappers
  import opened Strings

  const Primary: string := "#2F5607"
  const Accent: string := "#64336C"
  const TextPrimary: string := "#1B1B1B"
  const TextPrimaryHover: string := "#505050"
  const TabletBreakpoint: string := "768px"
  const DesktopBreakpoint: string := "1100px"
  const MobilePadding: string := "18px"
  const InputInactiveOpacity: real := 0.6

  /** `+bp.slice(0, bp.length - 2)`: the breakpoint with its two-letter unit
      dropped, converted with unary plus. The empty string converts to 0 and
      anything that is not a run of decimal digits to `NaN` (`None`). */
  function BreakpointNumber(bp: string): (r: Option<int>)
    ensures r.Some? ==> r.value >= 0
    ensures |bp| <= 2 ==> r == Some(0)
    ensures |bp| > 2 ==> (r.Some? <==> AllDigits(bp[..|bp| - 2]))
  {
    var number := if |bp| >= 2 then bp[..|bp| - 2] else "";
    if number == "" then Some(0)
    else
      match ParseNat(number)
      case Some(n) => Some(n)
      case None => None
  }

  /** A breakpoint written as a number followed by a two-letter unit converts
      back to that number. */
  lemma BreakpointRoundTrip(n: nat, unit: string)
    requires |unit| == 2
    ensures BreakpointNumber(NatToString(n) + unit) == Some(n)
  {
    var bp := NatToString(n) + unit;
    assert bp[..|bp| - 2] == NatToString(n);
    NatToStringRoundTrip(n);
  }

  /** The tablet breakpoint both search components compare against is 768. */
  lemma TabletBreakpointNumber()
    ensures BreakpointNumber(TabletBreakpoint) == Some(768)
  {
    assert NatToString(768) == "768";
    assert TabletBreakpoint == NatToString(768) + "px";
    BreakpointRoundTrip(768, "px");
  }
}
