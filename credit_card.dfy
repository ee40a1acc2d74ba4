/** `domain.CreditCard`: card number, holder and expiry, shown masked. */
module CreditCards {
  import opened Common
  import opened JavaStrings

  datatype CreditCard = CreditCard(number: string, holder: string, expiry: string)

  predicate ValidCard(c: CreditCard) {
    IsTrimmedText(c.number) && IsTrimmedText(c.holder) && IsTrimmedText(c.expiry)
  }

  /** The constructor: checks number, holder, expiry in that order and stores them trimmed. */
  function NewCreditCard(number: Option<string>, holder: Option<string>, expiry: Option<string>): (r: Result<CreditCard>)
    ensures r.Ok? <==> !IsNullOrBlank(number) && !IsNullOrBlank(holder) && !IsNullOrBlank(expiry)
    ensures IsNullOrBlank(number) ==> r == Err(IllegalArgument(CardNumberMissing))
    ensures !IsNullOrBlank(number) && IsNullOrBlank(holder) ==> r == Err(IllegalArgument(CardholderMissing))
    ensures !IsNullOrBlank(number) && !IsNullOrBlank(holder) && IsNullOrBlank(expiry) ==> r == Err(IllegalArgument(ExpiryMissing))
    ensures r.Ok? ==>
      && ValidCard(r.value)
      && r.value == CreditCard(Trim(number.value), Trim(holder.value), Trim(expiry.value))
  {
    if IsNullOrBlank(number) then Err(IllegalArgument(CardNumberMissing))
    else if IsNullOrBlank(holder) then Err(IllegalArgument(CardholderMissing))
    else if IsNullOrBlank(expiry) then Err(IllegalArgument(ExpiryMissing))
    else
      TrimmedTextIsFixed(number.value);
      TrimmedTextIsFixed(holder.value);
      TrimmedTextIsFixed(expiry.value);
      Ok(CreditCard(Trim(number.value), Trim(holder.value), Trim(expiry.value)))
  }

  /** `getMaskedCardNumber()`: four stars, then the last four characters when
      there are at least four. It never shows more than the last four
      characters of the number, and shows them exactly when there are four. */
  function MaskedNumber(c: CreditCard): (r: string)
    ensures |r| == 4 || |r| == 8
    ensures r[..4] == "****"
    ensures |r| == 8 <==> |c.number| >= 4
    ensures |r| - 4 <= |c.number| && r[4..] == c.number[|c.number| - (|r| - 4)..]
  {
    if |c.number| < 4 then "****" else "****" + c.number[|c.number| - 4..]
  }

  /** `toString()`: the masked number followed by the holder in parentheses. */
  function CardToString(c: CreditCard): (r: string)
    ensures |r| == |MaskedNumber(c)| + |c.holder| + 3
    ensures r[..|MaskedNumber(c)|] == MaskedNumber(c)
    ensures r[|MaskedNumber(c)|..|MaskedNumber(c)| + 2] == " ("
    ensures r[|MaskedNumber(c)| + 2..|r| - 1] == c.holder && r[|r| - 1] == ')'
  {
    MaskedNumber(c) + " (" + c.holder + ")"
  }

  /** The printed card reveals no more of the number than its last four
      characters: cards with the same holder whose numbers end alike print
      alike, however the rest of their numbers differ. */
  lemma CardToStringHidesNumber(a: CreditCard, b: CreditCard)
    requires a.holder == b.holder
    requires |a.number| >= 4 && |b.number| >= 4
    requires a.number[|a.number| - 4..] == b.number[|b.number| - 4..]
    ensures CardToString(a) == CardToString(b)
  {
  }

  /** `equals`: number and expiry exactly, holder ignoring case. */
  predicate CardEquals(a: CreditCard, b: CreditCard) {
    a.number == b.number && EqualsIgnoreCase(a.holder, b.holder) && a.expiry == b.expiry
  }

  /** `hashCode()`: `number.hashCode() * 31 + lower(holder).hashCode()` in `int` arithmetic; the expiry is not hashed. */
  function CardHash(c: CreditCard): Int32 {
    Wrap32(HashCode(c.number) * 31 + HashCode(Lower(c.holder)))
  }

  lemma CardEqualsIsEquivalence(a: CreditCard, b: CreditCard, c: CreditCard)
    ensures CardEquals(a, a)
    ensures CardEquals(a, b) ==> CardEquals(b, a)
    ensures CardEquals(a, b) && CardEquals(b, c) ==> CardEquals(a, c)
  {
  }

  lemma EqualCardsHashEqually(a: CreditCard, b: CreditCard)
    requires CardEquals(a, b)
    ensures CardHash(a) == CardHash(b)
  {
    EqualsIgnoreCaseIffLowerEqual(a.holder, b.holder);
  }
}
