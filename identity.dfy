/** `domain.Identity`: an identity document's number and type. */
module Identities {
  import opened Common
  import opened JavaStrings

  datatype Identity = Identity(number: string, kind: string)

  predicate ValidIdentity(d: Identity) {
    IsTrimmedText(d.number) && IsTrimmedText(d.kind)
  }

  /** The constructor: rejects a null or blank number, then type, and stores both trimmed. */
  function NewIdentity(number: Option<string>, kind: Option<string>): (r: Result<Identity>)
    ensures r.Ok? <==> !IsNullOrBlank(number) && !IsNullOrBlank(kind)
    ensures IsNullOrBlank(number) ==> r == Err(IllegalArgument(IdentityNumberMissing))
    ensures !IsNullOrBlank(number) && IsNullOrBlank(kind) ==> r == Err(IllegalArgument(IdentityTypeMissing))
    ensures r.Ok? ==> ValidIdentity(r.value) && r.value == Identity(Trim(number.value), Trim(kind.value))
  {
    if IsNullOrBlank(number) then Err(IllegalArgument(IdentityNumberMissing))
    else if IsNullOrBlank(kind) then Err(IllegalArgument(IdentityTypeMissing))
    else
      TrimmedTextIsFixed(number.value);
      TrimmedTextIsFixed(kind.value);
      Ok(Identity(Trim(number.value), Trim(kind.value)))
  }

  /** `toString()`: "Type: Number". */
  function IdentityToString(d: Identity): string {
    d.kind + ": " + d.number
  }

  /** No character of `t` is a colon, as in the document types "Passport" or "CNIC". */
  predicate NoColon(t: string) {
    forall i :: 0 <= i < |t| ==> t[i] != ':'
  }

  /** In the text of an identity whose type has no colon, the first colon
      comes right after the type. */
  lemma FirstColonEndsType(d: Identity)
    requires NoColon(d.kind)
    ensures var s := IdentityToString(d);
      |d.kind| < |s| && s[|d.kind|] == ':' && forall i :: 0 <= i < |d.kind| ==> s[i] != ':'
  {
  }

  /** The text reads back: when neither type contains a colon, two
      identities with the same text have the same type and number. */
  lemma IdentityToStringReadsBack(a: Identity, b: Identity)
    requires NoColon(a.kind) && NoColon(b.kind)
    requires IdentityToString(a) == IdentityToString(b)
    ensures a == b
  {
    var s := IdentityToString(a);
    FirstColonEndsType(a);
    FirstColonEndsType(b);
    assert |a.kind| == |b.kind|;
    assert a.kind == s[..|a.kind|] == b.kind;
    assert a.number == s[|a.kind| + 2..] == b.number;
  }

  /** `equals`: the number exactly, the type ignoring case. */
  predicate IdentityEquals(a: Identity, b: Identity) {
    a.number == b.number && EqualsIgnoreCase(a.kind, b.kind)
  }

  /** `hashCode()`: `number.hashCode() * 31 + lower(type).hashCode()` in `int` arithmetic. */
  function IdentityHash(d: Identity): Int32 {
    Wrap32(HashCode(d.number) * 31 + HashCode(Lower(d.kind)))
  }

  lemma IdentityEqualsIsEquivalence(a: Identity, b: Identity, c: Identity)
    ensures IdentityEquals(a, a)
    ensures IdentityEquals(a, b) ==> IdentityEquals(b, a)
    ensures IdentityEquals(a, b) && IdentityEquals(b, c) ==> IdentityEquals(a, c)
  {
  }

  lemma EqualIdentitiesHashEqually(a: Identity, b: Identity)
    requires IdentityEquals(a, b)
    ensures IdentityHash(a) == IdentityHash(b)
  {
    EqualsIgnoreCaseIffLowerEqual(a.kind, b.kind);
  }
}
