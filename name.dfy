/** `domain.Name`: a person's (or hotel's) first and last name. */
module Names {
  import opened Common
  import opened JavaStrings

  datatype Name = Name(first: string, last: string)

  /** Every `Name` the constructor lets through has two trimmed, non-blank parts. */
  predicate ValidName(n: Name) {
    IsTrimmedText(n.first) && IsTrimmedText(n.last)
  }

  /** The constructor: rejects a null or blank part (first name checked first) and stores the trimmed parts. */
  function NewName(first: Option<string>, last: Option<string>): (r: Result<Name>)
    ensures r.Ok? <==> !IsNullOrBlank(first) && !IsNullOrBlank(last)
    ensures IsNullOrBlank(first) ==> r == Err(IllegalArgument(FirstNameMissing))
    ensures !IsNullOrBlank(first) && IsNullOrBlank(last) ==> r == Err(IllegalArgument(LastNameMissing))
    ensures r.Ok? ==> ValidName(r.value) && r.value.first == Trim(first.value) && r.value.last == Trim(last.value)
  {
    if IsNullOrBlank(first) then Err(IllegalArgument(FirstNameMissing))
    else if IsNullOrBlank(last) then Err(IllegalArgument(LastNameMissing))
    else
      TrimmedTextIsFixed(first.value);
      TrimmedTextIsFixed(last.value);
      Ok(Name(Trim(first.value), Trim(last.value)))
  }

  /** `getFullName()` (and `toString()`): first and last name joined by one space. */
  function FullName(n: Name): string {
    n.first + " " + n.last
  }

  /** The full name of a valid name is itself trimmed text, so it is never
      blank: a room's guest key always passes the guest-id checks. */
  lemma FullNameIsTrimmed(n: Name)
    requires ValidName(n)
    ensures IsTrimmedText(FullName(n)) && !IsBlank(FullName(n))
    ensures FullName(n)[..|n.first|] == n.first && FullName(n)[|n.first| + 1..] == n.last
  {
  }

  /** The full name does not determine the name: two different valid names
      can share one full name, and so one reservation key. */
  lemma FullNameCanCollide()
    ensures var a := Name("Mary Ann", "Lee");
      var b := Name("Mary", "Ann Lee");
      ValidName(a) && ValidName(b) && !NameEquals(a, b) && FullName(a) == FullName(b)
  {
  }

  /** `equals`: both parts compared ignoring case. */
  predicate NameEquals(a: Name, b: Name) {
    EqualsIgnoreCase(a.first, b.first) && EqualsIgnoreCase(a.last, b.last)
  }

  /** `hashCode()`: `lower(first).hashCode() * 31 + lower(last).hashCode()` in `int` arithmetic. */
  function NameHash(n: Name): Int32 {
    Wrap32(HashCode(Lower(n.first)) * 31 + HashCode(Lower(n.last)))
  }

  lemma NameEqualsIsEquivalence(a: Name, b: Name, c: Name)
    ensures NameEquals(a, a)
    ensures NameEquals(a, b) ==> NameEquals(b, a)
    ensures NameEquals(a, b) && NameEquals(b, c) ==> NameEquals(a, c)
  {
  }

  lemma EqualNamesHashEqually(a: Name, b: Name)
    requires NameEquals(a, b)
    ensures NameHash(a) == NameHash(b)
  {
    EqualsIgnoreCaseIffLowerEqual(a.first, b.first);
    EqualsIgnoreCaseIffLowerEqual(a.last, b.last);
  }
}
