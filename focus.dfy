/**
 * The rule by which `focusElement` (InputsArray.js:91-108), through
 * `focusEmptyInput` (InputsArray.js:85-89), updates `currentFocusIndex`, and
 * which elements it calls `focus()` on. The inputs are positions 0 to
 * length - 1; the trailing empty input stands at position `length`.
 */
module Focus {

  /** The argument of `focusElement`: the string 'empty' or a number. */
  datatype FocusRequest = EmptyInput | Index(i: int)

  /** An element that receives `focus()`. */
  datatype FocusTarget = EmptyField | InputAt(i: nat)

  /** The new `currentFocusIndex` and the `focus()` calls made, in order. */
  datatype FocusOutcome = FocusOutcome(currentFocusIndex: int, focused: seq<FocusTarget>)

  /** Where an element stands in the list of inputs followed by the empty input. */
  function Position(f: FocusTarget, length: nat): nat {
    match f
    case EmptyField => length
    case InputAt(i) => i
  }

  /**
   * `focusElement(index)` as written. An index below 0 first focuses the
   * empty input, which sets the index to `length` (line 87); line 107 then
   * overwrites it with the negative index.
   */
  function FocusElement(req: FocusRequest, length: nat): (r: FocusOutcome)
    ensures |r.focused| <= 1
    ensures r.currentFocusIndex <= length
    ensures r.currentFocusIndex < 0 <==> req.Index? && req.i < 0
    ensures r.currentFocusIndex >= 0 ==> FocusConsistent(r, length)
  {
    if req.EmptyInput? || req.i == length then
      FocusOutcome(length, [EmptyField])
    else
      var newIndex := if req.i > length then 0 else req.i;
      var viaEmpty := if newIndex < 0 then [EmptyField] else [];
      var viaInput := if 0 <= newIndex < length then [InputAt(newIndex)] else [];
      FocusOutcome(newIndex, viaEmpty + viaInput)
  }

  /** The index rule, case by case, for `focusElement` as written. */
  lemma FocusIndexRule(req: FocusRequest, length: nat)
    ensures req.EmptyInput? ==> FocusElement(req, length).currentFocusIndex == length
    ensures req.Index? && req.i == length ==> FocusElement(req, length).currentFocusIndex == length
    ensures req.Index? && req.i > length ==> FocusElement(req, length).currentFocusIndex == 0
    ensures req.Index? && 0 <= req.i < length ==> FocusElement(req, length).currentFocusIndex == req.i
    ensures req.Index? && req.i < 0 ==> FocusElement(req, length).currentFocusIndex == req.i
  {
  }

  /** The element focused last, for `focusElement` as written. */
  lemma FocusTargetRule(req: FocusRequest, length: nat)
    ensures req.EmptyInput? || req.i == length || req.i < 0 ==> FocusElement(req, length).focused == [EmptyField]
    ensures req.Index? && 0 <= req.i < length ==> FocusElement(req, length).focused == [InputAt(req.i)]
    ensures req.Index? && req.i > length ==>
              FocusElement(req, length).focused == if length == 0 then [] else [InputAt(0)]
  {
  }

  /** The index names the element that has focus, and lies within 0 .. length. */
  predicate FocusConsistent(r: FocusOutcome, length: nat) {
    && 0 <= r.currentFocusIndex <= length
    && (r.focused != [] ==> Position(r.focused[|r.focused| - 1], length) == r.currentFocusIndex)
  }

  /**
   * As written, `focusElement(-1)` with two inputs (ArrowUp on the first
   * input, line 159) focuses the empty input at position 2 but leaves the
   * index at -1.
   */
  lemma NegativeIndexDesync()
    ensures FocusElement(Index(-1), 2) == FocusOutcome(-1, [EmptyField])
    ensures !FocusConsistent(FocusElement(Index(-1), 2), 2)
  {
  }

  /** `focusElement` with the index of the empty input kept for an index below 0. */
  function FocusElementIntended(req: FocusRequest, length: nat): (r: FocusOutcome)
    ensures FocusConsistent(r, length)
    ensures req.Index? && req.i >= 0 ==> r == FocusElement(req, length)
  {
    if req.EmptyInput? || req.i == length || req.i < 0 then
      FocusOutcome(length, [EmptyField])
    else
      var newIndex := if req.i > length then 0 else req.i;
      FocusOutcome(newIndex, if newIndex < length then [InputAt(newIndex)] else [])
  }
}
