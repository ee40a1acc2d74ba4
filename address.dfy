/** `domain.Address`: street, city, country and postal code. */
module Addresses {
  import opened Common
  import opened JavaStrings

  datatype Address = Address(street: string, city: string, country: string, postalCode: string)

  /** Every `Address` the constructor lets through has four trimmed, non-blank fields. */
  predicate ValidAddress(a: Address) {
    IsTrimmedText(a.street) && IsTrimmedText(a.city) && IsTrimmedText(a.country) && IsTrimmedText(a.postalCode)
  }

  /** The constructor: checks street, city, country, postal code in that order and stores them trimmed. */
  function NewAddress(street: Option<string>, city: Option<string>, country: Option<string>,
                      postalCode: Option<string>): (r: Result<Address>)
    ensures r.Ok? <==> !IsNullOrBlank(street) && !IsNullOrBlank(city) && !IsNullOrBlank(country) && !IsNullOrBlank(postalCode)
    ensures IsNullOrBlank(street) ==> r == Err(IllegalArgument(StreetMissing))
    ensures !IsNullOrBlank(street) && IsNullOrBlank(city) ==> r == Err(IllegalArgument(CityMissing))
    ensures !IsNullOrBlank(street) && !IsNullOrBlank(city) && IsNullOrBlank(country) ==> r == Err(IllegalArgument(CountryMissing))
    ensures !IsNullOrBlank(street) && !IsNullOrBlank(city) && !IsNullOrBlank(country) && IsNullOrBlank(postalCode)
      ==> r == Err(IllegalArgument(PostalCodeMissing))
    ensures r.Ok? ==>
      && ValidAddress(r.value)
      && r.value == Address(Trim(street.value), Trim(city.value), Trim(country.value), Trim(postalCode.value))
  {
    if IsNullOrBlank(street) then Err(IllegalArgument(StreetMissing))
    else if IsNullOrBlank(city) then Err(IllegalArgument(CityMissing))
    else if IsNullOrBlank(country) then Err(IllegalArgument(CountryMissing))
    else if IsNullOrBlank(postalCode) then Err(IllegalArgument(PostalCodeMissing))
    else
      TrimmedTextIsFixed(street.value);
      TrimmedTextIsFixed(city.value);
      TrimmedTextIsFixed(country.value);
      TrimmedTextIsFixed(postalCode.value);
      Ok(Address(Trim(street.value), Trim(city.value), Trim(country.value), Trim(postalCode.value)))
  }

  /** `getCompleteAddress()` (and `toString()`): "Street, City, Country PostalCode". */
  function CompleteAddress(a: Address): string {
    a.street + ", " + a.city + ", " + a.country + " " + a.postalCode
  }

  /** The complete address of a valid address begins with the street, ends
      with the postal code, adds exactly the five separator characters and is
      itself trimmed text. */
  lemma CompleteAddressLayout(a: Address)
    requires ValidAddress(a)
    ensures var s := CompleteAddress(a);
      && |s| == |a.street| + |a.city| + |a.country| + |a.postalCode| + 5
      && s[..|a.street|] == a.street
      && s[|s| - |a.postalCode|..] == a.postalCode
      && IsTrimmedText(s)
  {
  }

  /** `equals`: all four fields compared ignoring case. */
  predicate AddressEquals(a: Address, b: Address) {
    && EqualsIgnoreCase(a.street, b.street)
    && EqualsIgnoreCase(a.city, b.city)
    && EqualsIgnoreCase(a.country, b.country)
    && EqualsIgnoreCase(a.postalCode, b.postalCode)
  }

  /** `hashCode()`: the four lower-cased hashes combined as the source writes it, in `int` arithmetic. */
  function AddressHash(a: Address): Int32 {
    Wrap32(HashCode(Lower(a.street)) * 31 + HashCode(Lower(a.city)) * 31
           + HashCode(Lower(a.country)) * 31 + HashCode(Lower(a.postalCode)))
  }

  lemma AddressEqualsIsEquivalence(a: Address, b: Address, c: Address)
    ensures AddressEquals(a, a)
    ensures AddressEquals(a, b) ==> AddressEquals(b, a)
    ensures AddressEquals(a, b) && AddressEquals(b, c) ==> AddressEquals(a, c)
  {
  }

  lemma EqualAddressesHashEqually(a: Address, b: Address)
    requires AddressEquals(a, b)
    ensures AddressHash(a) == AddressHash(b)
  {
    EqualsIgnoreCaseIffLowerEqual(a.street, b.street);
    EqualsIgnoreCaseIffLowerEqual(a.city, b.city);
    EqualsIgnoreCaseIffLowerEqual(a.country, b.country);
    EqualsIgnoreCaseIffLowerEqual(a.postalCode, b.postalCode);
  }
}
