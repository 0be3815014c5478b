/** The navbar's collapsible search. Opening it shows the field container and,
    on narrow viewports, stretches the content across the page by inline
    `right` and `width` styles that a window resize handler keeps up to date;
    closing it hides the field, clears those styles and removes the handler. */
module SearchFieldForNavbar {
  import opened Wrappers
  import opened Strings
  import Theme
  import SearchField

  /** The window resize listeners this component registers: only
      `setMobileStyle`, whose identity is stable across renders, so
      registering it twice leaves one registration. */
  datatype Listener = MobileStyleListener

  /** What `setMobileStyle` measures: the window's inner width, the body's
      client width and the right edge of the component's container. */
  datatype Viewport = Viewport(innerWidth: int, bodyWidth: int, containerRight: int)

  /** The mobile layout applies unless the viewport is wider than the tablet
      breakpoint (`innerWidth > bp`; against `NaN` the test is false). With
      the theme's "768px" that is exactly up to and including 768 pixels. */
  predicate MobileLayout(innerWidth: int)
    ensures MobileLayout(innerWidth) <==> innerWidth <= 768
  {
    Theme.TabletBreakpointNumber();
    var bp := Theme.BreakpointNumber(Theme.TabletBreakpoint);
    !(bp.Some? && innerWidth > bp.value)
  }

  /** The navbar and the suggestion panel disagree at exactly 768 pixels: the
      navbar stretches its search across the page (`>` is strict) while the
      panel keeps the form's width (`<` is strict too). At every other width
      both are in the same layout. */
  lemma TabletWidthBoundary(innerWidth: int)
    ensures var panelFull := SearchField.FullWidthPanel(innerWidth, Theme.BreakpointNumber(Theme.TabletBreakpoint));
            (MobileLayout(innerWidth) && !panelFull) <==> innerWidth == 768
    ensures innerWidth != 768 ==>
              (MobileLayout(innerWidth) <==> SearchField.FullWidthPanel(innerWidth, Theme.BreakpointNumber(Theme.TabletBreakpoint)))
  {
    SearchField.FullWidthBelowTablet(innerWidth);
  }

  /** `-offsetFromRight`, where the offset is the distance from the
      container's right edge to the body's right edge. */
  function RightShift(v: Viewport): int {
    -(v.bodyWidth - v.containerRight)
  }

  /** Reads a `calc(<n>px …)` text back: the integer before the first `p`,
      and the text from that `p` on. */
  function ReadCalc(s: string): Option<(int, string)>
  {
    if |s| >= 5 && s[..5] == "calc(" && 'p' in s[5..] then
      var k := 5 + IndexOf(s[5..], 'p');
      match ParseInt(s[5..k])
      case Some(n) => Some((n, s[k..]))
      case None => None
    else
      None
  }

  lemma ReadCalcOf(n: int, tail: string)
    requires |tail| > 0 && tail[0] == 'p'
    ensures ReadCalc("calc(" + IntToString(n) + tail) == Some((n, tail))
  {
    var d := IntToString(n);
    var s := "calc(" + d + tail;
    IntToStringChars(n);
    assert 'p' !in d;
    assert s[..5] == "calc(";
    assert s[5..] == d + tail;
    IndexOfAfterPrefix(d, tail, 'p');
    assert s[5..5 + |d|] == d;
    assert s[5 + |d|..] == tail;
    IntToStringRoundTrip(n);
  }

  /** The content's `right` style on mobile: it reads back as the shift
      `-(bodyWidth - containerRight)` in pixels plus the page padding. */
  function MobileRight(v: Viewport): (r: string)
    ensures ReadCalc(r) == Some((RightShift(v), "px + " + Theme.MobilePadding + ")"))
  {
    var tail := "px + " + Theme.MobilePadding + ")";
    ReadCalcOf(RightShift(v), tail);
    "calc(" + IntToString(RightShift(v)) + tail
  }

  /** The content's `width` style on mobile: it reads back as the body's
      width in pixels minus the page padding. */
  function MobileWidth(v: Viewport): (r: string)
    ensures ReadCalc(r) == Some((v.bodyWidth, "px - " + Theme.MobilePadding + ")"))
  {
    var tail := "px - " + Theme.MobilePadding + ")";
    ReadCalcOf(v.bodyWidth, tail);
    "calc(" + IntToString(v.bodyWidth) + tail
  }

  /** The page padding both `calc` texts use converts to 18 pixels. */
  lemma MobilePaddingNumber()
    ensures Theme.BreakpointNumber(Theme.MobilePadding) == Some(18)
  {
    assert NatToString(18) == "18";
    assert Theme.MobilePadding == NatToString(18) + "px";
    Theme.BreakpointRoundTrip(18, "px");
  }

  class NavbarSearch {
    /** Whether the elements the refs point at are mounted: the outer
        container, the content, the field container and the search field. */
    const containerMounted: bool
    const contentMounted: bool
    const fieldContainerMounted: bool
    const searchFieldMounted: bool

    var showField: bool
    /** The field container's inline `display`. */
    var fieldContainerDisplay: string
    /** The content's inline `right` and `width`. */
    var contentRight: string
    var contentWidth: string
    var resizeListeners: set<Listener>

    /** The resize handler is registered exactly while the field is shown, the
        field container is displayed as flex exactly then, and while the field
        is hidden the content has no inline position. The field is only ever
        shown through mounted elements, and an unmounted content element is
        never positioned. */
    ghost predicate Valid()
      reads this
    {
      && (resizeListeners == if showField then {MobileStyleListener} else {})
      && fieldContainerDisplay == (if showField then "flex" else "")
      && (!showField ==> contentRight == "" && contentWidth == "")
      && (showField ==> fieldContainerMounted && searchFieldMounted)
      && (!contentMounted ==> contentRight == "" && contentWidth == "")
    }

    constructor (containerMounted: bool, contentMounted: bool, fieldContainerMounted: bool, searchFieldMounted: bool)
      ensures Valid()
      ensures this.containerMounted == containerMounted && this.contentMounted == contentMounted
      ensures this.fieldContainerMounted == fieldContainerMounted && this.searchFieldMounted == searchFieldMounted
      ensures !showField && resizeListeners == {}
    {
      this.containerMounted := containerMounted;
      this.contentMounted := contentMounted;
      this.fieldContainerMounted := fieldContainerMounted;
      this.searchFieldMounted := searchFieldMounted;
      showField := false;
      fieldContainerDisplay := "";
      contentRight := "";
      contentWidth := "";
      resizeListeners := {};
    }

    /** `resetMobileStyle`: clears the content's inline position when the
        content is mounted. */
    method ResetMobileStyle()
      modifies this
      ensures contentMounted ==> contentRight == "" && contentWidth == ""
      ensures !contentMounted ==> contentRight == old(contentRight) && contentWidth == old(contentWidth)
      ensures showField == old(showField) && fieldContainerDisplay == old(fieldContainerDisplay)
      ensures resizeListeners == old(resizeListeners)
    {
      if contentMounted {
        contentRight := "";
        contentWidth := "";
      }
    }

    /** `setMobileStyle`: above the tablet breakpoint the inline position is
        cleared; otherwise, when the container and the content are mounted,
        the content is stretched across the body. */
    method SetMobileStyle(v: Viewport)
      requires Valid() && showField
      modifies this
      ensures Valid() && showField
      ensures !MobileLayout(v.innerWidth) && contentMounted ==> contentRight == "" && contentWidth == ""
      ensures MobileLayout(v.innerWidth) && containerMounted && contentMounted ==>
                contentRight == MobileRight(v) && contentWidth == MobileWidth(v)
      ensures (MobileLayout(v.innerWidth) && !(containerMounted && contentMounted)) || !contentMounted ==>
                contentRight == old(contentRight) && contentWidth == old(contentWidth)
      ensures fieldContainerDisplay == old(fieldContainerDisplay) && resizeListeners == old(resizeListeners)
    {
      var tabletBreakpointNumber := Theme.BreakpointNumber(Theme.TabletBreakpoint);
      if tabletBreakpointNumber.Some? && v.innerWidth > tabletBreakpointNumber.value {
        ResetMobileStyle();
        return;
      }
      if !containerMounted || !contentMounted {
        return;
      }
      contentRight := MobileRight(v);
      contentWidth := MobileWidth(v);
    }

    /** `open`: does nothing unless the field container and the search field
        are mounted; otherwise shows the field, displays its container as
        flex, positions the content for the current viewport and registers
        the resize handler. */
    method Open(v: Viewport)
      requires Valid()
      modifies this
      ensures Valid()
      ensures !(fieldContainerMounted && searchFieldMounted) ==>
                && showField == old(showField) && fieldContainerDisplay == old(fieldContainerDisplay)
                && resizeListeners == old(resizeListeners)
                && contentRight == old(contentRight) && contentWidth == old(contentWidth)
      ensures fieldContainerMounted && searchFieldMounted ==>
                && showField && fieldContainerDisplay == "flex"
                && resizeListeners == old(resizeListeners) + {MobileStyleListener}
      ensures fieldContainerMounted && searchFieldMounted && !MobileLayout(v.innerWidth) && contentMounted ==>
                contentRight == "" && contentWidth == ""
      ensures fieldContainerMounted && searchFieldMounted && MobileLayout(v.innerWidth) && containerMounted && contentMounted ==>
                contentRight == MobileRight(v) && contentWidth == MobileWidth(v)
      ensures fieldContainerMounted && searchFieldMounted
              && ((MobileLayout(v.innerWidth) && !containerMounted) || !contentMounted) ==>
                contentRight == old(contentRight) && contentWidth == old(contentWidth)
    {
      if !fieldContainerMounted || !searchFieldMounted {
        return;
      }
      showField := true;
      fieldContainerDisplay := "flex";
      resizeListeners := {MobileStyleListener};
      SetMobileStyle(v);
      assert resizeListeners == old(resizeListeners) + {MobileStyleListener};
    }

    /** `close`: hides the field, clears its container's display and the
        content's inline position, and unregisters the resize handler. */
    method Close()
      requires Valid()
      modifies this
      ensures Valid()
      ensures !showField && resizeListeners == {}
      ensures resizeListeners == old(resizeListeners) - {MobileStyleListener}
      ensures fieldContainerDisplay == "" && contentRight == "" && contentWidth == ""
    {
      showField := false;
      if fieldContainerMounted {
        fieldContainerDisplay := "";
      }
      ResetMobileStyle();
      resizeListeners := resizeListeners - {MobileStyleListener};
    }

    /** `onBlur`, attached to the search form: focus moving to an element
        inside the form keeps the field as it is; any other blur closes it,
        including focus moving to the navbar's close button or to the
        suggestion panel, which are outside the form. */
    method OnBlur(relatedTargetInForm: bool)
      requires Valid()
      modifies this
      ensures Valid()
      ensures relatedTargetInForm ==>
                && showField == old(showField) && fieldContainerDisplay == old(fieldContainerDisplay)
                && resizeListeners == old(resizeListeners)
                && contentRight == old(contentRight) && contentWidth == old(contentWidth)
      ensures !relatedTargetInForm ==>
                && !showField && resizeListeners == {}
                && fieldContainerDisplay == "" && contentRight == "" && contentWidth == ""
    {
      if relatedTargetInForm {
        return;
      }
      Close();
    }

    /** A window resize: the registered handler, if any, repositions the content. */
    method OnResize(v: Viewport)
      requires Valid()
      modifies this
      ensures Valid()
      ensures showField == old(showField) && resizeListeners == old(resizeListeners)
      ensures fieldContainerDisplay == old(fieldContainerDisplay)
      ensures !showField ==> contentRight == old(contentRight) && contentWidth == old(contentWidth)
      ensures showField && !MobileLayout(v.innerWidth) && contentMounted ==>
                contentRight == "" && contentWidth == ""
      ensures showField && MobileLayout(v.innerWidth) && containerMounted && contentMounted ==>
                contentRight == MobileRight(v) && contentWidth == MobileWidth(v)
      ensures showField && ((MobileLayout(v.innerWidth) && !containerMounted) || !contentMounted) ==>
                contentRight == old(contentRight) && contentWidth == old(contentWidth)
    {
      if MobileStyleListener in resizeListeners {
        SetMobileStyle(v);
      }
    }
  }
}
