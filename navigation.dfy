/**
 * The navigation overlay: a flag shown while a page change is under way, ended by the change of
 * pathname or, failing that, by an 8000 ms timer. Time is a counter of milliseconds advanced by
 * explicit ticks; the pending timer is its due time.
 */
module Navigation {
  import opened Wrappers
  import opened JsStrings

  const NAV_TIMEOUT_MS: nat := 8000

  /** The parts of the clicked element's nearest anchor the click listener reads. */
  datatype Anchor = Anchor(href: Option<string>, target: Option<string>)

  /**
   * The click listener starts a navigation only for an anchor whose href is a same-origin path:
   * non-empty, starting with '/', not with '//', and not opened in a new tab.
   */
  predicate IsInternalLinkClick(anchor: Option<Anchor>) {
    anchor.Some? && Truthy(anchor.value.href)
    && IsPrefixOf("/", anchor.value.href.value) && !IsPrefixOf("//", anchor.value.href.value)
    && anchor.value.target != Some("_blank")
  }

  /** What the listener accepts, character by character. */
  lemma InternalLinkShape(anchor: Option<Anchor>)
    ensures IsInternalLinkClick(anchor) <==>
      anchor.Some? && anchor.value.href.Some? && |anchor.value.href.value| >= 1
      && anchor.value.href.value[0] == '/'
      && !(|anchor.value.href.value| >= 2 && anchor.value.href.value[1] == '/')
      && anchor.value.target != Some("_blank")
  {
    if anchor.Some? && anchor.value.href.Some? {
      var h := anchor.value.href.value;
      if |h| >= 2 {
        assert IsPrefixOf("//", h) <==> h[..2] == "//";
      }
    }
  }

  class NavigationState {
    var isNavigating: bool
    /** The due time of the pending timer (`timeoutRef.current`), if any. */
    var pending: Option<nat>
    /** Milliseconds elapsed since the provider mounted. */
    var now: nat

    /** The overlay is up exactly while a timer is pending, and that timer is due within the timeout. */
    ghost predicate Valid()
      reads this
    {
      (isNavigating <==> pending.Some?)
      && (pending.Some? ==> now < pending.value <= now + NAV_TIMEOUT_MS)
    }

    constructor()
      ensures Valid() && !isNavigating && pending == None && now == 0
    {
      isNavigating := false;
      pending := None;
      now := 0;
    }

    /** The overlay is rendered exactly while a navigation is under way. */
    predicate OverlayShown()
      reads this
    {
      isNavigating
    }

    /** startNavigation: any pending timer is replaced by one due a full timeout from now. */
    method StartNavigation()
      requires Valid()
      modifies this
      ensures Valid() && isNavigating && OverlayShown()
      ensures pending == Some(now + NAV_TIMEOUT_MS) && now == old(now)
    {
      isNavigating := true;
      pending := Some(now + NAV_TIMEOUT_MS);
    }

    /** endNavigation: cancels the pending timer and hides the overlay; the end state does not depend on the start state. */
    method EndNavigation()
      requires Valid()
      modifies this
      ensures Valid() && !isNavigating && !OverlayShown()
      ensures pending == None && now == old(now)
    {
      pending := None;
      isNavigating := false;
    }

    /** Every change of pathname ends the navigation. */
    method PathnameChanged()
      requires Valid()
      modifies this
      ensures Valid() && !isNavigating && pending == None && now == old(now)
    {
      EndNavigation();
    }

    /** A click: a same-origin link starts a navigation, anything else is ignored. */
    method Click(anchor: Option<Anchor>)
      requires Valid()
      modifies this
      ensures Valid() && now == old(now)
      ensures IsInternalLinkClick(anchor) ==> isNavigating && pending == Some(now + NAV_TIMEOUT_MS)
      ensures !IsInternalLinkClick(anchor) ==> isNavigating == old(isNavigating) && pending == old(pending)
    {
      if IsInternalLinkClick(anchor) {
        StartNavigation();
      }
    }

    /** Time passes; a timer falling due clears itself and hides the overlay. */
    method Tick(ms: nat)
      requires Valid()
      modifies this
      ensures Valid() && now == old(now) + ms
      ensures old(pending).Some? && old(pending).value <= now ==> !isNavigating && pending == None
      ensures !(old(pending).Some? && old(pending).value <= now) ==>
        isNavigating == old(isNavigating) && pending == old(pending)
    {
      now := now + ms;
      if pending.Some? && pending.value <= now {
        pending := None;
        isNavigating := false;
      }
    }
  }

  /** Whatever happens in between, the overlay is gone a full timeout after a start unless a new start came. */
  method StartThenWait(nav: NavigationState)
    requires nav.Valid()
    modifies nav
    ensures nav.Valid() && !nav.isNavigating
    ensures nav.now == old(nav.now) + NAV_TIMEOUT_MS
  {
    nav.StartNavigation();
    nav.Tick(NAV_TIMEOUT_MS);
  }
}
