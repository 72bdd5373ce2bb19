/**
 * The "signed out" banner: shown when the URL carries `signedOut=1`, which is then removed from
 * the address, and hidden again 3000 ms later. Time is a counter advanced by explicit ticks.
 */
module SignOutMessage {
  import opened Wrappers
  import opened UrlParams

  const HIDE_AFTER_MS: nat := 3000

  /** The banner is triggered only by the exact value '1'. */
  predicate SignedOut(params: Params) {
    Get(params, "signedOut") == Some("1")
  }

  /** The address the page is replaced with: the same path and every parameter but `signedOut`. */
  function CleanedPath(pathname: string, params: Params): (r: string)
    ensures !HasName(Delete(params, "signedOut"), "signedOut")
    ensures Delete(params, "signedOut") == [] ==> r == pathname
    ensures Delete(params, "signedOut") != [] ==> r == pathname + "?" + Serialize(Delete(params, "signedOut"))
  {
    WithQuery(pathname, Delete(params, "signedOut"))
  }

  /** Every other parameter reads back as it was. */
  lemma CleanedPathKeepsOthers(params: Params, name: string)
    requires name != "signedOut"
    ensures Get(Delete(params, "signedOut"), name) == Get(params, name)
  {
    GetDeleteOther(params, "signedOut", name);
  }

  /** Removing `signedOut` a second time changes nothing, so the replaced address no longer triggers the banner. */
  lemma CleanedParamsStayClean(params: Params)
    ensures Delete(Delete(params, "signedOut"), "signedOut") == Delete(params, "signedOut")
    ensures !SignedOut(Delete(params, "signedOut"))
  {
    DeleteAbsent(Delete(params, "signedOut"), "signedOut");
  }

  class Banner {
    var show: bool
    /** The due time of the hide timer, if one is pending. */
    var hideAt: Option<nat>
    var now: nat

    ghost predicate Valid()
      reads this
    {
      (show <==> hideAt.Some?) && (hideAt.Some? ==> now < hideAt.value <= now + HIDE_AFTER_MS)
    }

    constructor()
      ensures Valid() && !show && now == 0
    {
      show := false;
      hideAt := None;
      now := 0;
    }

    /** Nothing is rendered while the banner is hidden. */
    predicate Rendered()
      reads this
    {
      show
    }

    /**
     * The effect on the current pathname and parameters: with `signedOut=1` the banner shows
     * (its hide timer starts when it was hidden) and the cleaned address replaces the current one.
     */
    method ParamsChanged(pathname: string, params: Params) returns (replaceWith: Option<string>)
      requires Valid()
      modifies this
      ensures Valid() && now == old(now)
      ensures SignedOut(params) ==> show && replaceWith == Some(CleanedPath(pathname, params))
      ensures SignedOut(params) && !old(show) ==> hideAt == Some(now + HIDE_AFTER_MS)
      ensures SignedOut(params) && old(show) ==> hideAt == old(hideAt)
      ensures !SignedOut(params) ==> replaceWith.None? && show == old(show) && hideAt == old(hideAt)
    {
      replaceWith := None;
      if SignedOut(params) {
        if !show {
          show := true;
          hideAt := Some(now + HIDE_AFTER_MS);
        }
        replaceWith := Some(CleanedPath(pathname, params));
      }
    }

    /** Time passes; once the hide timer is due the banner is hidden. */
    method Tick(ms: nat)
      requires Valid()
      modifies this
      ensures Valid() && now == old(now) + ms
      ensures old(hideAt).Some? && old(hideAt).value <= now ==> !show
      ensures !(old(hideAt).Some? && old(hideAt).value <= now) ==> show == old(show) && hideAt == old(hideAt)
    {
      now := now + ms;
      if hideAt.Some? && hideAt.value <= now {
        show := false;
        hideAt := None;
      }
    }
  }
}
