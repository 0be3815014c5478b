/** The search field with autocomplete suggestions. The field keeps whether it
    has focus, the text the user typed, the suggestion list and the index of
    the highlighted suggestion (or none), and it writes into the input element
    either the typed text or the highlighted suggestion's phrase. Arrow keys
    move the highlight through the list with a wrap-around to "no highlight";
    the pointer highlights the item it is over. A separate rule places the
    floating suggestion panel below the form. */
module SearchField {
  import opened Wrappers
  import opened Strings
  import Theme

  datatype Suggestion = Suggestion(suggestionId: string, suggestionPhrase: string)

  /** The list the suggestion panel installs whenever it is shown or the typed
      phrase changes; no suggestions are fetched yet. */
  const TestSuggestions: seq<Suggestion> := [
    Suggestion("df3aef", "dgdfdfg"),
    Suggestion("dfa", "dgdfdfg sdfwe"),
    Suggestion("dffgncv", "dgdfdfg er5yfbg"),
    Suggestion("4tdfgfg", "dgdfdfg sdae sdfsf")
  ]

  // ---------------------------------------------------------------------------
  // Moving the highlight

  /** A highlight is either none or an index into a list of `n` suggestions. */
  predicate InRange(highlight: Option<nat>, n: nat) {
    highlight.None? || highlight.value < n
  }

  /** ArrowDown: none → the first suggestion, the last suggestion → none,
      otherwise the next suggestion. With no suggestions nothing changes (see
      `SelectNextAsWritten` for what the code does then). */
  function NextIndex(highlight: Option<nat>, n: nat): (r: Option<nat>)
    requires InRange(highlight, n)
    ensures InRange(r, n)
    ensures n == 0 ==> r == None
    ensures n > 0 && highlight.None? ==> r == Some(0)
  {
    if n == 0 then None
    else
      match highlight
      case None => Some(0)
      case Some(i) => if i == n - 1 then None else Some(i + 1)
  }

  /** ArrowUp, the mirror image: none → the last suggestion, the first
      suggestion → none, otherwise the previous suggestion. */
  function PreviousIndex(highlight: Option<nat>, n: nat): (r: Option<nat>)
    requires InRange(highlight, n)
    ensures InRange(r, n)
    ensures n == 0 ==> r == None
    ensures n > 0 && highlight.None? ==> r == Some(n - 1)
  {
    if n == 0 then None
    else
      match highlight
      case None => Some(n - 1)
      case Some(i) => if i == 0 then None else Some(i - 1)
  }

  /** ArrowUp exactly undoes ArrowDown and ArrowDown exactly undoes ArrowUp,
      from every state. */
  lemma PreviousUndoesNext(highlight: Option<nat>, n: nat)
    requires InRange(highlight, n)
    ensures PreviousIndex(NextIndex(highlight, n), n) == highlight
    ensures NextIndex(PreviousIndex(highlight, n), n) == highlight
  {
  }

  /** The highlight after `k` ArrowDown presses from none. */
  function NextTimes(k: nat, n: nat): (r: Option<nat>)
    ensures InRange(r, n)
  {
    if k == 0 then None else NextIndex(NextTimes(k - 1, n), n)
  }

  /** The highlight after `k` ArrowUp presses from none. */
  function PreviousTimes(k: nat, n: nat): (r: Option<nat>)
    ensures InRange(r, n)
  {
    if k == 0 then None else PreviousIndex(PreviousTimes(k - 1, n), n)
  }

  /** From none, the k-th ArrowDown (k ≤ n) highlights suggestion k − 1 and
      the (n + 1)-th returns to none; so ArrowDown cycles with period n + 1. */
  lemma {:induction false} NextTimesFromNone(k: nat, n: nat)
    requires 0 < n && k <= n + 1
    ensures NextTimes(k, n) == if k == 0 || k == n + 1 then None else Some(k - 1)
  {
    if k > 0 {
      NextTimesFromNone(k - 1, n);
    }
  }

  /** From none, the k-th ArrowUp (k ≤ n) highlights suggestion n − k and the
      (n + 1)-th returns to none. */
  lemma {:induction false} PreviousTimesFromNone(k: nat, n: nat)
    requires 0 < n && k <= n + 1
    ensures PreviousTimes(k, n) == if k == 0 || k == n + 1 then None else Some(n - k)
  {
    if k > 0 {
      PreviousTimesFromNone(k - 1, n);
    }
  }

  /** The text the input shows for a highlight: the typed text when nothing is
      highlighted, else the highlighted suggestion's phrase. */
  function DisplayValue(typedText: string, suggestions: seq<Suggestion>, highlight: Option<nat>): (r: string)
    requires InRange(highlight, |suggestions|)
    ensures highlight.None? ==> r == typedText
    ensures highlight.Some? ==> r == suggestions[highlight.value].suggestionPhrase
  {
    match highlight
    case None => typedText
    case Some(i) => suggestions[i].suggestionPhrase
  }

  /** Per rendered item, whether it is highlighted (`index === highlightedIndex`):
      at most one item is, and one is exactly when there is a highlight. */
  function HighlightFlags(highlight: Option<nat>, n: nat): (flags: seq<bool>)
    requires InRange(highlight, n)
    ensures |flags| == n
    ensures forall i, j :: 0 <= i < n && 0 <= j < n && flags[i] && flags[j] ==> i == j
    ensures (exists i :: 0 <= i < n && flags[i]) <==> highlight.Some?
    ensures forall i :: 0 <= i < n ==> (flags[i] <==> highlight == Some(i))
  {
    var flags := seq(n, i requires 0 <= i < n => highlight == Some(i));
    if highlight.Some? then
      assert flags[highlight.value];
      flags
    else
      flags
  }

  // ---------------------------------------------------------------------------
  // The arrow-key handlers as written

  /** The outcome of an arrow-key handler as the code is written: it completes
      with a new highlight and input text, or it reads a suggestion that does
      not exist and throws a `TypeError` after having set the highlight. */
  datatype KeyOutcome =
    | Completed(highlight: Option<int>, inputValue: string)
    | ThrowsTypeError(highlight: Option<int>)

  /** `selectNextSuggestion` as written: `suggestions[0]` is read without
      checking that the list is non-empty. */
  function SelectNextAsWritten(highlight: Option<int>, suggestions: seq<Suggestion>, typedText: string): (r: KeyOutcome)
    ensures r.ThrowsTypeError? <==> r.highlight.Some? && !(0 <= r.highlight.value < |suggestions|)
    ensures r.Completed? && r.highlight.None? ==> r.inputValue == typedText
    ensures r.Completed? && r.highlight.Some? ==> r.inputValue == suggestions[r.highlight.value].suggestionPhrase
  {
    match highlight
    case None =>
      if 0 < |suggestions| then Completed(Some(0), suggestions[0].suggestionPhrase)
      else ThrowsTypeError(Some(0))
    case Some(i) =>
      if i == |suggestions| - 1 then Completed(None, typedText)
      else if 0 <= i + 1 < |suggestions| then Completed(Some(i + 1), suggestions[i + 1].suggestionPhrase)
      else ThrowsTypeError(Some(i + 1))
  }

  /** `selectPreviousSuggestion` as written: `suggestions[suggestions.length - 1]`
      is read without checking that the list is non-empty. */
  function SelectPreviousAsWritten(highlight: Option<int>, suggestions: seq<Suggestion>, typedText: string): (r: KeyOutcome)
    ensures r.ThrowsTypeError? <==> r.highlight.Some? && !(0 <= r.highlight.value < |suggestions|)
    ensures r.Completed? && r.highlight.None? ==> r.inputValue == typedText
    ensures r.Completed? && r.highlight.Some? ==> r.inputValue == suggestions[r.highlight.value].suggestionPhrase
  {
    match highlight
    case None =>
      if 0 < |suggestions| then Completed(Some(|suggestions| - 1), suggestions[|suggestions| - 1].suggestionPhrase)
      else ThrowsTypeError(Some(|suggestions| - 1))
    case Some(i) =>
      if i == 0 then Completed(None, typedText)
      else if 0 <= i - 1 < |suggestions| then Completed(Some(i - 1), suggestions[i - 1].suggestionPhrase)
      else ThrowsTypeError(Some(i - 1))
  }

  /** Before anything has been typed the suggestion list is still empty, and
      an arrow key then leaves the highlight outside the list and throws. */
  lemma ArrowKeyOnEmptyListThrows(typedText: string)
    ensures SelectNextAsWritten(None, [], typedText) == ThrowsTypeError(Some(0))
    ensures SelectPreviousAsWritten(None, [], typedText) == ThrowsTypeError(Some(-1))
  {
  }

  /** On a non-empty list the handlers as written complete and agree with
      `NextIndex`/`PreviousIndex`, writing the text `DisplayValue` gives. */
  lemma AsWrittenAgreesOnNonEmptyList(highlight: Option<nat>, suggestions: seq<Suggestion>, typedText: string)
    requires 0 < |suggestions| && InRange(highlight, |suggestions|)
    ensures var next := NextIndex(highlight, |suggestions|);
            SelectNextAsWritten(highlight, suggestions, typedText)
              == Completed(next, DisplayValue(typedText, suggestions, next))
    ensures var previous := PreviousIndex(highlight, |suggestions|);
            SelectPreviousAsWritten(highlight, suggestions, typedText)
              == Completed(previous, DisplayValue(typedText, suggestions, previous))
  {
  }

  /** The walk through the installed suggestions: two ArrowDowns show the
      second phrase, three more return to the typed text. */
  lemma WalkThroughTestSuggestions(typedText: string)
    ensures NextTimes(2, |TestSuggestions|) == Some(1)
    ensures DisplayValue(typedText, TestSuggestions, NextTimes(2, |TestSuggestions|)) == "dgdfdfg sdfwe"
    ensures NextTimes(5, |TestSuggestions|) == None
    ensures DisplayValue(typedText, TestSuggestions, NextTimes(5, |TestSuggestions|)) == typedText
  {
    NextTimesFromNone(2, 4);
    NextTimesFromNone(5, 4);
  }

  /** The same walk on a two-item list: after typing "pa", two ArrowDowns
      show "paella" and a third brings back "pa". */
  lemma PastaPaellaWalk()
    ensures var suggestions := [Suggestion("1", "pasta"), Suggestion("2", "paella")];
            && NextTimes(2, 2) == Some(1)
            && DisplayValue("pa", suggestions, NextTimes(2, 2)) == "paella"
            && NextTimes(3, 2) == None
            && DisplayValue("pa", suggestions, NextTimes(3, 2)) == "pa"
  {
    NextTimesFromNone(2, 2);
    NextTimesFromNone(3, 2);
  }

  // ---------------------------------------------------------------------------
  // The field's state and its event handlers

  class SearchFieldState {
    var hasFocus: bool
    /** The text the user typed (`nonAutocompletedInputValue`). */
    var typedText: string
    var suggestions: seq<Suggestion>
    var highlighted: Option<nat>
    /** What the input element shows (`inputRef.current.value`). */
    var inputValue: string

    /** The highlight is none or an index into the list, and the list is empty
        until the panel has installed its suggestions. */
    ghost predicate Valid()
      reads this
    {
      InRange(highlighted, |suggestions|)
      && (suggestions == [] || suggestions == TestSuggestions)
    }

    /** The suggestion panel is rendered iff something was typed and the field
        has focus. */
    predicate ListShown()
      reads this
      ensures ListShown() <==> hasFocus && !SearchButtonDisabled()
    {
      typedText != "" && hasFocus
    }

    /** The search button is `aria-disabled` iff nothing was typed. */
    predicate SearchButtonDisabled()
      reads this
      ensures SearchButtonDisabled() <==> |typedText| == 0
    {
      typedText == ""
    }

    constructor ()
      ensures Valid()
      ensures !hasFocus && typedText == "" && suggestions == [] && highlighted == None && inputValue == ""
      ensures !ListShown() && SearchButtonDisabled()
    {
      hasFocus := false;
      typedText := "";
      suggestions := [];
      highlighted := None;
      inputValue := "";
    }

    /** `handleFocus`. */
    method HandleFocus()
      requires Valid()
      modifies this
      ensures Valid()
      ensures hasFocus
      ensures typedText == old(typedText) && suggestions == old(suggestions)
      ensures highlighted == old(highlighted) && inputValue == old(inputValue)
      ensures ListShown() <==> typedText != ""
    {
      hasFocus := true;
    }

    /** `handleBlur`: the panel closes and the highlight is cleared; the input
        keeps whatever text it shows. */
    method HandleBlur()
      requires Valid()
      modifies this
      ensures Valid()
      ensures !hasFocus && highlighted == None && !ListShown()
      ensures typedText == old(typedText) && suggestions == old(suggestions) && inputValue == old(inputValue)
    {
      hasFocus := false;
      highlighted := None;
    }

    /** `handleChange`: typing replaces the typed text (which the input then
        shows) and clears the highlight. */
    method HandleChange(value: string)
      requires Valid()
      modifies this
      ensures Valid()
      ensures typedText == value && inputValue == value && highlighted == None
      ensures hasFocus == old(hasFocus) && suggestions == old(suggestions)
      ensures inputValue == DisplayValue(typedText, suggestions, highlighted)
      ensures SearchButtonDisabled() <==> value == ""
    {
      typedText := value;
      inputValue := value;
      highlighted := None;
    }

    /** The panel's effect, run while it is shown: it installs the suggestion
        list and leaves the highlight alone. */
    method InstallSuggestions()
      requires Valid() && ListShown()
      modifies this
      ensures Valid()
      ensures suggestions == TestSuggestions
      ensures hasFocus == old(hasFocus) && typedText == old(typedText)
      ensures highlighted == old(highlighted) && inputValue == old(inputValue)
    {
      suggestions := TestSuggestions;
    }

    /** `selectNextSuggestion`, with the empty list left alone. */
    method SelectNextSuggestion()
      requires Valid()
      modifies this
      ensures Valid()
      ensures hasFocus == old(hasFocus) && typedText == old(typedText) && suggestions == old(suggestions)
      ensures highlighted == NextIndex(old(highlighted), |suggestions|)
      ensures suggestions != [] ==> inputValue == DisplayValue(typedText, suggestions, highlighted)
      ensures suggestions == [] ==> inputValue == old(inputValue)
    {
      if suggestions == [] {
        return;
      }
      if highlighted.None? {
        highlighted := Some(0);
        inputValue := suggestions[0].suggestionPhrase;
        return;
      }
      if highlighted.value == |suggestions| - 1 {
        highlighted := None;
        inputValue := typedText;
        return;
      }
      highlighted := Some(highlighted.value + 1);
      inputValue := suggestions[highlighted.value].suggestionPhrase;
    }

    /** `selectPreviousSuggestion`, with the empty list left alone. */
    method SelectPreviousSuggestion()
      requires Valid()
      modifies this
      ensures Valid()
      ensures hasFocus == old(hasFocus) && typedText == old(typedText) && suggestions == old(suggestions)
      ensures highlighted == PreviousIndex(old(highlighted), |suggestions|)
      ensures suggestions != [] ==> inputValue == DisplayValue(typedText, suggestions, highlighted)
      ensures suggestions == [] ==> inputValue == old(inputValue)
    {
      if suggestions == [] {
        return;
      }
      if highlighted.None? {
        highlighted := Some(|suggestions| - 1);
        inputValue := suggestions[|suggestions| - 1].suggestionPhrase;
        return;
      }
      if highlighted.value == 0 {
        highlighted := None;
        inputValue := typedText;
        return;
      }
      highlighted := Some(highlighted.value - 1);
      inputValue := suggestions[highlighted.value].suggestionPhrase;
    }

    /** `handleKeyDown`: ArrowUp and ArrowDown move the highlight; every other
        key changes nothing. */
    method HandleKeyDown(key: string)
      requires Valid()
      modifies this
      ensures Valid()
      ensures hasFocus == old(hasFocus) && typedText == old(typedText) && suggestions == old(suggestions)
      ensures key == "ArrowUp" ==> highlighted == PreviousIndex(old(highlighted), |suggestions|)
      ensures key == "ArrowDown" ==> highlighted == NextIndex(old(highlighted), |suggestions|)
      ensures (key == "ArrowUp" || key == "ArrowDown") && suggestions != [] ==>
                inputValue == DisplayValue(typedText, suggestions, highlighted)
      ensures (key == "ArrowUp" || key == "ArrowDown") && suggestions == [] ==>
                highlighted == None && inputValue == old(inputValue)
      ensures key != "ArrowUp" && key != "ArrowDown" ==>
                highlighted == old(highlighted) && inputValue == old(inputValue)
    {
      if key == "ArrowUp" {
        SelectPreviousSuggestion();
      } else if key == "ArrowDown" {
        SelectNextSuggestion();
      }
    }

    /** `handlePointerMove`: the item under the pointer is highlighted; its
        position among the list items is `index`, −1 when it is not found.
        The input text is not touched. */
    method HandlePointerMove(index: int)
      requires Valid()
      requires -1 <= index < |suggestions|
      modifies this
      ensures Valid()
      ensures highlighted == if index == -1 then None else Some(index)
      ensures hasFocus == old(hasFocus) && typedText == old(typedText)
      ensures suggestions == old(suggestions) && inputValue == old(inputValue)
    {
      highlighted := if index == -1 then None else Some(index);
    }

    /** `handlePointerLeave`: the highlight is cleared; the input text is not touched. */
    method HandlePointerLeave()
      requires Valid()
      modifies this
      ensures Valid()
      ensures highlighted == None
      ensures hasFocus == old(hasFocus) && typedText == old(typedText)
      ensures suggestions == old(suggestions) && inputValue == old(inputValue)
    {
      highlighted := None;
    }
  }

  // ---------------------------------------------------------------------------
  // Placing the suggestion panel

  /** The measured box of the search form, in pixels. */
  datatype Rect = Rect(left: int, right: int, bottom: int)

  function Px(n: int): string {
    IntToString(n) + "px"
  }

  /** The panel spans the viewport below the breakpoint (`innerWidth < bp`);
      a breakpoint that is not a number (`NaN`) compares false. */
  predicate FullWidthPanel(innerWidth: int, breakpoint: Option<int>) {
    breakpoint.Some? && innerWidth < breakpoint.value
  }

  /** With the theme's "768px", the panel spans the viewport exactly for
      widths below 768. */
  lemma FullWidthBelowTablet(innerWidth: int)
    ensures FullWidthPanel(innerWidth, Theme.BreakpointNumber(Theme.TabletBreakpoint)) <==> innerWidth < 768
  {
    Theme.TabletBreakpointNumber();
  }

  /** The inline style of the suggestion panel. */
  class SuggestionListStyle {
    var top: string
    var left: string
    var width: string

    constructor ()
      ensures top == "" && left == "" && width == ""
    {
      top, left, width := "", "", "";
    }

    /** `setStyle`: nothing happens unless the form and the list are mounted;
        otherwise the panel's top is the form's bottom, and below the tablet
        breakpoint it spans the viewport from the left edge, else it has the
        form's left edge and width. */
    method SetStyle(refsMounted: bool, form: Rect, innerWidth: int)
      modifies this
      ensures !refsMounted ==> top == old(top) && left == old(left) && width == old(width)
      ensures refsMounted ==> top == Px(form.bottom)
      ensures refsMounted && innerWidth < 768 ==> left == "0" && width == "100%"
      ensures refsMounted && innerWidth >= 768 ==> left == Px(form.left) && width == Px(form.right - form.left)
    {
      if !refsMounted {
        return;
      }
      var tabletBreakpoint := Theme.BreakpointNumber(Theme.TabletBreakpoint);
      FullWidthBelowTablet(innerWidth);
      top := Px(form.bottom);
      if FullWidthPanel(innerWidth, tabletBreakpoint) {
        left := "0";
        width := "100%";
      } else {
        left := Px(form.left);
        width := Px(form.right - form.left);
      }
    }
  }
}
