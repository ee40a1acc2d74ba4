/** `domain.HowMany`: a positive count (the number of guests of a reservation). */
module Quantities {
  import opened Common
  import opened JavaStrings

  datatype HowMany = HowMany(number: Int32)

  /** The constructor: rejects a number that is not positive and keeps the argument as given. */
  function NewHowMany(number: Int32): (r: Result<HowMany>)
    ensures r.Ok? <==> number > 0
    ensures r.Err? ==> r.error == IllegalArgument(NonPositiveCount)
    ensures r.Ok? ==> r.value.number == number && r.value.number >= 1
  {
    if number <= 0 then Err(IllegalArgument(NonPositiveCount)) else Ok(HowMany(number))
  }

  /** `equals`: the numbers compared. */
  predicate HowManyEquals(a: HowMany, b: HowMany) {
    a.number == b.number
  }

  /** `hashCode()`: `Integer.hashCode(number)`, the number itself. */
  function HowManyHash(h: HowMany): Int32 {
    h.number
  }

  /** Java equality is value equality of the model, so equal counts hash equally. */
  lemma HowManyEqualsIsValueEquality(a: HowMany, b: HowMany)
    ensures HowManyEquals(a, b) <==> a == b
    ensures HowManyEquals(a, b) ==> HowManyHash(a) == HowManyHash(b)
  {
  }

  /** `toString()`: `String.valueOf(number)`. */
  function HowManyToString(h: HowMany): string {
    IntToString(h.number)
  }

  /** A constructed count prints as plain decimal digits, without sign or
      leading zero, that read back as the count. */
  lemma {:induction false} HowManyToStringReadsBack(h: HowMany)
    requires h.number >= 1
    ensures var s := HowManyToString(h);
      && s != [] && s[0] != '0'
      && (forall i :: 0 <= i < |s| ==> IsDigit(s[i]))
      && DigitsValue(s) == h.number
  {
    DecimalRoundTrip(h.number);
  }
}
