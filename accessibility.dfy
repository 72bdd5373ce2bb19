/**
 * The high-contrast setting: stored in localStorage as '1' or '0', read once on mount, and
 * mirrored on the document's `high-contrast` class once mounted.
 */
module Accessibility {
  import opened Wrappers

  /** The stored value means high contrast only when it is exactly '1'. */
  function Decode(stored: Option<string>): (on: bool)
    ensures on <==> stored == Some("1")
  {
    stored == Some("1")
  }

  /** `value ? '1' : '0'`. */
  function Encode(on: bool): (s: string)
    ensures s == "1" || s == "0"
  {
    if on then "1" else "0"
  }

  /** Reading back what was stored gives the setting that was stored. */
  lemma DecodeEncode(on: bool)
    ensures Decode(Some(Encode(on))) == on
  {
  }

  /** Encoding after decoding keeps every value that decoding can tell apart: '1' and '0'. */
  lemma EncodeDecode(stored: string)
    requires stored == "1" || stored == "0"
    ensures Encode(Decode(Some(stored))) == stored
  {
  }

  class AccessibilitySettings {
    /** Whether there is a window and a document (false while rendering on the server). */
    const hasWindow: bool
    var highContrast: bool
    var mounted: bool
    /** The localStorage entry under the high-contrast key. */
    var stored: Option<string>
    /** Whether the document element carries the `high-contrast` class. */
    var classApplied: bool

    /** Once mounted, the document class follows the setting. */
    ghost predicate Valid()
      reads this
    {
      mounted ==> classApplied == highContrast
    }

    constructor(hasWindow: bool, stored: Option<string>, classApplied: bool)
      ensures Valid() && !highContrast && !mounted
      ensures this.hasWindow == hasWindow && this.stored == stored && this.classApplied == classApplied
    {
      this.hasWindow := hasWindow;
      this.stored := stored;
      this.classApplied := classApplied;
      highContrast := false;
      mounted := false;
    }

    /** The mount effect: the stored value is read and the class brought in line with it. */
    method Mount()
      requires Valid()
      modifies this
      ensures Valid() && stored == old(stored)
      ensures hasWindow ==> mounted && highContrast == Decode(stored) && classApplied == highContrast
      ensures !hasWindow ==> highContrast == old(highContrast) && mounted == old(mounted) && classApplied == old(classApplied)
    {
      if !hasWindow {
        return;
      }
      highContrast := Decode(stored);
      mounted := true;
      classApplied := highContrast;
    }

    /** setHighContrast: stores the encoded value and takes the setting; nothing happens without a window. */
    method SetHighContrast(on: bool)
      requires Valid()
      modifies this
      ensures Valid() && mounted == old(mounted)
      ensures hasWindow ==> stored == Some(Encode(on)) && highContrast == on && Decode(stored) == on
      ensures !hasWindow ==> stored == old(stored) && highContrast == old(highContrast) && classApplied == old(classApplied)
      ensures hasWindow && !mounted ==> classApplied == old(classApplied)
    {
      if !hasWindow {
        return;
      }
      stored := Some(Encode(on));
      highContrast := on;
      if mounted {
        classApplied := highContrast;
      }
    }
  }
}
