/** `domain.Guest`: the person staying, identified by name only. */
module Guests {
  import opened Common
  import opened JavaStrings
  import opened Names
  import opened Addresses

  datatype Guest = Guest(name: Name, address: Address)

  /** A guest built from a constructed name and address. */
  predicate ValidGuest(g: Guest) {
    ValidName(g.name) && ValidAddress(g.address)
  }

  /** The constructor: rejects a null name, then a null address. */
  function NewGuest(name: Option<Name>, address: Option<Address>): (r: Result<Guest>)
    ensures r.Ok? <==> name.Some? && address.Some?
    ensures name.None? ==> r == Err(IllegalArgument(GuestNameNull))
    ensures name.Some? && address.None? ==> r == Err(IllegalArgument(GuestAddressNull))
    ensures r.Ok? ==> r.value.name == name.value && r.value.address == address.value
    ensures r.Ok? && ValidName(name.value) && ValidAddress(address.value) ==> ValidGuest(r.value)
  {
    if name.None? then Err(IllegalArgument(GuestNameNull))
    else if address.None? then Err(IllegalArgument(GuestAddressNull))
    else Ok(Guest(name.value, address.value))
  }

  /** `getNameAsString()` (and `toString()`): the full name. A room keys its
      reservations by this string. */
  function NameAsString(g: Guest): string {
    FullName(g.name)
  }

  /** The key a valid guest is filed under is never blank. */
  lemma GuestKeyNotBlank(g: Guest)
    requires ValidGuest(g)
    ensures !IsBlank(NameAsString(g)) && IsTrimmedText(NameAsString(g))
  {
  }

  /** `equals`: the names compared ignoring case; the address plays no part. */
  predicate GuestEquals(a: Guest, b: Guest) {
    NameEquals(a.name, b.name)
  }

  /** `hashCode()`: the name's hash. */
  function GuestHash(g: Guest): Int32 {
    NameHash(g.name)
  }

  lemma GuestEqualsIsEquivalence(a: Guest, b: Guest, c: Guest)
    ensures GuestEquals(a, a)
    ensures GuestEquals(a, b) ==> GuestEquals(b, a)
    ensures GuestEquals(a, b) && GuestEquals(b, c) ==> GuestEquals(a, c)
  {
  }

  /** Changing the address never changes equality or the hash. */
  lemma GuestEqualityIgnoresAddress(n: Name, a1: Address, a2: Address)
    ensures GuestEquals(Guest(n, a1), Guest(n, a2))
    ensures GuestHash(Guest(n, a1)) == GuestHash(Guest(n, a2))
  {
  }

  lemma EqualGuestsHashEqually(a: Guest, b: Guest)
    requires GuestEquals(a, b)
    ensures GuestHash(a) == GuestHash(b)
  {
    EqualNamesHashEqually(a.name, b.name);
  }

  /** Equal guests need not share a reservation key: `equals` ignores case,
      the key does not. */
  lemma EqualGuestsMayHaveDifferentKeys()
    ensures var n := Name("Ahmed", "Khan");
      var m := Name("ahmed", "khan");
      var a := Address("1 Main St", "Karachi", "Pakistan", "74000");
      GuestEquals(Guest(n, a), Guest(m, a)) && NameAsString(Guest(n, a)) != NameAsString(Guest(m, a))
  {
    var n := Name("Ahmed", "Khan");
    var m := Name("ahmed", "khan");
    var a := Address("1 Main St", "Karachi", "Pakistan", "74000");
    assert CharEqualsIgnoreCase(n.first[0], m.first[0]);
    assert CharEqualsIgnoreCase(n.last[0], m.last[0]);
    assert EqualsIgnoreCase(n.first, m.first);
    assert EqualsIgnoreCase(n.last, m.last);
    assert NameAsString(Guest(n, a))[0] == 'A';
  }
}
