/** The condition word's read-modify-write steps (`xEventGroupSetBits`,
    `xEventGroupClearBits`) and the change-detection rule the three state
    mutators share. */
module StateWord {
  import opened Flags

  /** `xEventGroupSetBits`: turns on every bit of `mask`, keeps the others. */
  function SetBits(w: bv32, mask: bv32): (r: bv32)
    ensures r & mask == mask
    ensures r & !mask == w & !mask
  {
    w | mask
  }

  /** `xEventGroupClearBits`: turns off every bit of `mask`, keeps the others. */
  function ClearBits(w: bv32, mask: bv32): (r: bv32)
    ensures r & mask == 0
    ensures r & !mask == w & !mask
  {
    w & !mask
  }

  /** Setting keeps the word exactly when every bit of the mask was already set. */
  lemma SetKeepsIffPresent(w: bv32, mask: bv32)
    ensures SetBits(w, mask) == w <==> Has(w, mask)
  {
    if Has(w, mask) {
      SetPresentKeeps(w, mask);
    }
  }

  /** One direction of `SetKeepsIffPresent`, kept apart to keep its proof small. */
  lemma SetPresentKeeps(w: bv32, mask: bv32)
    requires Has(w, mask)
    ensures SetBits(w, mask) == w
  {
  }

  /** Clearing keeps the word exactly when every bit of the mask was already clear. */
  lemma ClearKeepsIffAbsent(w: bv32, mask: bv32)
    ensures ClearBits(w, mask) == w <==> w & mask == 0
  {
    if w & mask == 0 {
      ClearAbsentKeeps(w, mask);
    }
  }

  /** One direction of `ClearKeepsIffAbsent`, kept apart to keep its proof small. */
  lemma ClearAbsentKeeps(w: bv32, mask: bv32)
    requires w & mask == 0
    ensures ClearBits(w, mask) == w
  {
  }

  /** Setting a 24-bit mask keeps a word inside the application's 24 bits. */
  lemma SetFits24(w: bv32, mask: bv32)
    requires Fits24(w) && Fits24(mask)
    ensures Fits24(SetBits(w, mask))
  {
  }

  /** Clearing any mask keeps a word inside the application's 24 bits. */
  lemma ClearFits24(w: bv32, mask: bv32)
    requires Fits24(w)
    ensures Fits24(ClearBits(w, mask))
  {
  }

  /** The change-detection rule shared by the three state mutators. */
  predicate Dispatches(forced: bool, before: bv32, after: bv32) {
    forced || before != after
  }

  /** Setting bits that are all already set, unforced, sends nothing;
      setting a bit that was clear always sends. */
  lemma SetDispatchesIffNew(w: bv32, mask: bv32)
    ensures Dispatches(false, w, SetBits(w, mask)) <==> !Has(w, mask)
  {
    SetKeepsIffPresent(w, mask);
  }

  /** Clearing bits that are all already clear, unforced, sends nothing;
      clearing a bit that was set always sends. */
  lemma ClearDispatchesIffPresent(w: bv32, mask: bv32)
    ensures Dispatches(false, w, ClearBits(w, mask)) <==> w & mask != 0
  {
    ClearKeepsIffAbsent(w, mask);
  }

  /** An empty mask keeps the word, so only a forced call re-sends its pattern. */
  lemma ForcedEmptyMaskResends(w: bv32)
    ensures SetBits(w, 0) == w && ClearBits(w, 0) == w
    ensures Dispatches(true, w, SetBits(w, 0)) && !Dispatches(false, w, SetBits(w, 0))
    ensures Dispatches(true, w, ClearBits(w, 0)) && !Dispatches(false, w, ClearBits(w, 0))
  {
    SetPresentKeeps(w, 0);
    ClearAbsentKeeps(w, 0);
  }

  /** Clearing a mask undoes setting it on a word where it was clear. */
  lemma ClearUndoesSet(w: bv32, mask: bv32)
    requires w & mask == 0
    ensures ClearBits(SetBits(w, mask), mask) == w
  {
  }

  /** Raising a clear flag and lowering it again dispatches twice and returns
      the word to where it started. */
  lemma {:induction false} ToggleDispatchesTwice(w: bv32, mask: bv32)
    requires mask != 0 && w & mask == 0
    ensures Dispatches(false, w, SetBits(w, mask))
    ensures Dispatches(false, SetBits(w, mask), ClearBits(SetBits(w, mask), mask))
    ensures ClearBits(SetBits(w, mask), mask) == w
  {
    SetKeepsIffPresent(w, mask);
    ClearKeepsIffAbsent(SetBits(w, mask), mask);
    ClearUndoesSet(w, mask);
  }
}
