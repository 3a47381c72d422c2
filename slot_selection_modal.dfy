/**
 * The seat-count dialog of the event page: a number input clamped to
 * between 1 and the slot's seats, and the confirm button that hands the
 * count on.
 */
module SlotSelectionModal {
  import opened Wrappers
  import opened Strings

  function Min(a: int, b: int): int { if a <= b then a else b }
  function Max(a: int, b: int): int { if a >= b then a else b }

  /** `parseInt(text) || 1`: NaN and 0 both become 1. */
  function TypedCount(text: string): (v: int)
    ensures v != 0
    ensures ParseInt(text).Some? && ParseInt(text).value != 0 ==> v == ParseInt(text).value
    ensures ParseInt(text).None? || ParseInt(text) == Some(0) ==> v == 1
  {
    var p := ParseInt(text);
    if p.Some? && p.value != 0 then p.value else 1
  }

  /** `Math.min(Math.max(1, parseInt(text) || 1), maxSlots)`. With a
   *  maximum of at least 1 the count lies in [1, maxSlots]; a typed count
   *  in that range is kept, a larger one becomes the maximum, and anything
   *  below 1 becomes 1. */
  function ClampCount(text: string, maxSlots: int): (r: int)
    ensures r <= maxSlots
    ensures maxSlots >= 1 ==> 1 <= r
    ensures 1 <= TypedCount(text) <= maxSlots ==> r == TypedCount(text)
    ensures TypedCount(text) > maxSlots ==> r == maxSlots
    ensures TypedCount(text) < 1 ==> r == Min(1, maxSlots)
  {
    Min(Max(1, TypedCount(text)), maxSlots)
  }

  /** Typing back a count the dialog shows keeps it. */
  lemma ClampShownCount(text: string, maxSlots: int)
    requires maxSlots >= 1
    ensures ClampCount(IntToString(ClampCount(text, maxSlots)), maxSlots) == ClampCount(text, maxSlots)
  {
    ParseIntToString(ClampCount(text, maxSlots));
  }

  /** Text that does not parse, and "0", give one seat. */
  lemma UnparsableIsOne(text: string, maxSlots: int)
    requires maxSlots >= 1
    requires ParseInt(text).None? || ParseInt(text) == Some(0)
    ensures ClampCount(text, maxSlots) == 1
  {
  }

  class SlotDialog {
    var slotCount: int
    const maxSlots: int

    /** The count is one the input allows. */
    predicate Valid()
      reads this
    {
      maxSlots >= 1 ==> 1 <= slotCount <= maxSlots
    }

    /** The count starts at 1. */
    constructor(maxSlots: int)
      ensures slotCount == 1 && this.maxSlots == maxSlots
      ensures maxSlots >= 1 ==> Valid()
    {
      this.maxSlots := maxSlots;
      slotCount := 1;
    }

    /** The input's `onChange`. */
    method Change(text: string)
      modifies this
      ensures Valid()
      ensures slotCount == ClampCount(text, maxSlots)
    {
      slotCount := ClampCount(text, maxSlots);
    }

    /** `handleConfirm`: the count as it stands. */
    method Confirm() returns (count: int)
      requires Valid()
      ensures count == slotCount
      ensures maxSlots >= 1 ==> 1 <= count <= maxSlots
    {
      count := slotCount;
    }
  }
}
