/** The quantity widget of src/components/ui/QuantityInput.tsx: the step
    buttons and the mapping between the numeric value and the text of the
    input field. */
module QuantityInput {
  import opened Decimal

  /** The amounts of the four step buttons, in their on-screen order. */
  const StepAmounts: seq<int> := [-6, 6, -12, 12]

  /** `handleAdd`: `Math.max(0, value + amount)`. */
  function HandleAdd(value: int, amount: int): (r: int)
    ensures r >= 0
    ensures value + amount >= 0 ==> r == value + amount
    ensures value + amount < 0 ==> r == 0
  {
    if value + amount < 0 then 0 else value + amount
  }

  /** Every step button changes the value by six or twelve, in either direction. */
  lemma StepAmountsAre()
    ensures |StepAmounts| == 4
    ensures forall i :: 0 <= i < |StepAmounts| ==> StepAmounts[i] in {-6, 6, -12, 12}
    ensures forall i :: 0 <= i < |StepAmounts| ==> -StepAmounts[i] in StepAmounts
  {
  }

  /** For a value that is not negative, stepping up by `k` and back down by
      `k` returns to it. */
  lemma StepUpThenDown(value: int, k: int)
    requires value >= 0 && k >= 0
    ensures HandleAdd(HandleAdd(value, k), -k) == value
  {
  }

  /** Stepping down clamps at zero, so stepping back up need not restore the value. */
  lemma StepDownThenUp(value: int, k: int)
    requires value >= 0 && k >= 0
    ensures HandleAdd(HandleAdd(value, -k), k) == if value >= k then value else k
  {
  }

  /** The text in the field: empty for zero, the number's digits otherwise. */
  function DisplayValue(v: int): string {
    if v == 0 then "" else IntToString(v)
  }

  /** What the field's text is read as: `parseInt(text || '0')`. */
  function ParseTyped(t: string): int
    requires t == "" || IsIntText(t)
  {
    if t == "" then 0 else ParseInt(t)
  }

  /** The field shows nothing exactly for zero, and reading back what it
      shows gives the value. */
  lemma DisplayRoundTrip(v: int)
    ensures DisplayValue(v) == "" <==> v == 0
    ensures DisplayValue(v) == "" || IsIntText(DisplayValue(v))
    ensures ParseTyped(DisplayValue(v)) == v
  {
    if v != 0 {
      IntTextRoundTrip(v);
    }
  }

  /** Typed text is read as the integer it denotes, with no clamping: a
      typed negative number stays negative. */
  lemma TypedNotClamped(i: int)
    ensures IsIntText(IntToString(i)) && ParseTyped(IntToString(i)) == i
  {
    IntTextRoundTrip(i);
  }
}
