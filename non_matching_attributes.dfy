/**
 * NonMatchingAttributes: the identity attributes of a verified user, each optional, three
 * of them lists. Fields are final; `equals` compares the single-valued fields by value,
 * null-aware, and the list fields as multisets (CollectionUtils.isEqualCollection).
 *
 * The source's last comparison, on addresses, is negated relative to the others: as
 * written, two distinct objects are equal only when their addresses DIFFER. `Equals`
 * models that line as written; `IntendedEquals` is the comparison the other five lines
 * evidently intend, and is proved to be an equivalence that ignores list order.
 */
module NonMatchingAttributes {
  import opened Failures

  datatype LocalDate = LocalDate(year: int, month: nat, day: nat)

  datatype Gender = Female | Male | NotSpecified

  /** NonMatchingAddress, reduced to the lines and postcode; compared by value. */
  datatype NonMatchingAddress = NonMatchingAddress(lines: seq<string>, postCode: Option<string>)

  /** NonMatchingVerifiableAttribute: a value and whether the hub verified it; compared by value. */
  datatype NonMatchingVerifiableAttribute<T> = NonMatchingVerifiableAttribute(value: T, verified: bool)

  type Attr<T> = NonMatchingVerifiableAttribute<T>

  /** Null-aware value comparison: two nulls match, one null matches nothing. */
  predicate SameOptional<T(==)>(a: Option<T>, b: Option<T>)
  {
    if a.Some? then b.Some? && a.value == b.value else b.None?
  }

  /** Null-aware collection comparison: two nulls match, two lists match when they are permutations. */
  predicate SameCollection<T(==)>(a: Option<seq<T>>, b: Option<seq<T>>)
  {
    if a.Some? then b.Some? && multiset(a.value) == multiset(b.value) else b.None?
  }

  class NonMatchingAttributes {
    const firstName: Option<Attr<string>>
    const middleNames: Option<seq<Attr<string>>>
    const surnames: Option<seq<Attr<string>>>
    const dateOfBirth: Option<Attr<LocalDate>>
    const gender: Option<Attr<Gender>>
    const addresses: Option<seq<Attr<NonMatchingAddress>>>

    /** Every getter returns what the constructor was given. */
    constructor (
      firstName: Option<Attr<string>>,
      middleNames: Option<seq<Attr<string>>>,
      surnames: Option<seq<Attr<string>>>,
      dateOfBirth: Option<Attr<LocalDate>>,
      gender: Option<Attr<Gender>>,
      addresses: Option<seq<Attr<NonMatchingAddress>>>)
      ensures this.firstName == firstName && this.middleNames == middleNames && this.surnames == surnames
      ensures this.dateOfBirth == dateOfBirth && this.gender == gender && this.addresses == addresses
    {
      this.firstName := firstName;
      this.middleNames := middleNames;
      this.surnames := surnames;
      this.dateOfBirth := dateOfBirth;
      this.gender := gender;
      this.addresses := addresses;
    }

    /** The five comparisons before the last line, all of which must match. */
    predicate LeadingFieldsMatch(that: NonMatchingAttributes)
    {
      && SameOptional(firstName, that.firstName)
      && SameCollection(middleNames, that.middleNames)
      && SameCollection(surnames, that.surnames)
      && SameOptional(dateOfBirth, that.dateOfBirth)
      && SameOptional(gender, that.gender)
    }

    /** equals, as written: the address comparison on the last line is negated. */
    predicate Equals(o: object?): (r: bool)
      ensures this == o ==> r
      ensures o == null || !(o is NonMatchingAttributes) ==> !r
      ensures r && this != o ==> o is NonMatchingAttributes && LeadingFieldsMatch(o as NonMatchingAttributes)
    {
      if this == o then true
      else if o == null || !(o is NonMatchingAttributes) then false
      else
        var that := o as NonMatchingAttributes;
        LeadingFieldsMatch(that) && !SameCollection(addresses, that.addresses)
    }

    /** equals, as the other field comparisons show it was meant. */
    predicate IntendedEquals(o: object?): (r: bool)
      ensures this == o ==> r
      ensures o == null || !(o is NonMatchingAttributes) ==> !r
      ensures r && this != o ==> o is NonMatchingAttributes && LeadingFieldsMatch(o as NonMatchingAttributes)
    {
      if this == o then true
      else if o == null || !(o is NonMatchingAttributes) then false
      else
        SameAttributes(this, o as NonMatchingAttributes)
    }
  }

  /** Field-by-field equality under the intended comparison: all six fields match. */
  predicate SameAttributes(a: NonMatchingAttributes, b: NonMatchingAttributes)
  {
    a.LeadingFieldsMatch(b) && SameCollection(a.addresses, b.addresses)
  }

  // ---------------------------------------------------------------------------------------
  // equals as written

  /** The same reference is equal; null and non-attribute objects are not. */
  lemma EqualsIdentityAndClass(a: NonMatchingAttributes, o: object?)
    ensures a.Equals(a) && a.IntendedEquals(a)
    ensures (o == null || !(o is NonMatchingAttributes)) ==> !a.Equals(o) && !a.IntendedEquals(o)
  {
  }

  /**
   * For two distinct objects whose first five fields match, `equals` as written holds exactly
   * when the addresses differ: one null, or not the same multiset.
   */
  lemma {:induction false} EqualsInvertsAddresses(a: NonMatchingAttributes, b: NonMatchingAttributes)
    requires a != b
    requires a.LeadingFieldsMatch(b)
    ensures a.Equals(b) <==>
      ((a.addresses.None? != b.addresses.None?)
       || (a.addresses.Some? && b.addresses.Some? && multiset(a.addresses.value) != multiset(b.addresses.value)))
  {
  }

  /** A mismatch in any of the first five fields makes distinct objects unequal, as meant. */
  lemma EqualsLeadingMismatch(a: NonMatchingAttributes, b: NonMatchingAttributes)
    requires a != b
    requires !a.LeadingFieldsMatch(b)
    ensures !a.Equals(b) && !a.IntendedEquals(b)
  {
  }

  /**
   * The counterexample: a distinct copy of an object, with identical fields, compares
   * unequal under `equals` as written, while the intended comparison holds.
   */
  lemma {:induction false} CopiesCompareUnequal(a: NonMatchingAttributes, b: NonMatchingAttributes)
    requires a != b
    requires a.firstName == b.firstName && a.middleNames == b.middleNames && a.surnames == b.surnames
    requires a.dateOfBirth == b.dateOfBirth && a.gender == b.gender && a.addresses == b.addresses
    ensures !a.Equals(b)
    ensures a.IntendedEquals(b)
  {
    assert a.LeadingFieldsMatch(b);
    assert SameCollection(a.addresses, b.addresses);
  }

  // ---------------------------------------------------------------------------------------
  // equals as intended

  /** Null-aware equality is an equivalence. */
  lemma SameOptionalEquivalence<T>(a: Option<T>, b: Option<T>, c: Option<T>)
    ensures SameOptional(a, a)
    ensures SameOptional(a, b) ==> SameOptional(b, a)
    ensures SameOptional(a, b) && SameOptional(b, c) ==> SameOptional(a, c)
  {
  }

  /** Multiset comparison of optional lists is an equivalence. */
  lemma SameCollectionEquivalence<T>(a: Option<seq<T>>, b: Option<seq<T>>, c: Option<seq<T>>)
    ensures SameCollection(a, a)
    ensures SameCollection(a, b) ==> SameCollection(b, a)
    ensures SameCollection(a, b) && SameCollection(b, c) ==> SameCollection(a, c)
  {
  }

  /** A null list matches only a null list; present lists match exactly when they are permutations. */
  lemma SameCollectionCases<T>(a: Option<seq<T>>, b: Option<seq<T>>)
    ensures a.None? ==> (SameCollection(a, b) <==> b.None?)
    ensures b.None? ==> (SameCollection(a, b) <==> a.None?)
    ensures a.Some? && b.Some? ==> (SameCollection(a, b) <==> multiset(a.value) == multiset(b.value))
  {
  }

  /** Reordering a list never changes the comparison; a different multiplicity always does. */
  lemma {:induction false} SameCollectionIgnoresOrder<T>(xs: seq<T>, ys: seq<T>, zs: seq<T>)
    requires multiset(ys) == multiset(zs)
    ensures SameCollection(Some(xs), Some(ys)) == SameCollection(Some(xs), Some(zs))
  {
  }

  lemma {:induction false} SameCollectionCountsMultiplicity<T>(xs: seq<T>, ys: seq<T>, x: T)
    requires multiset(xs)[x] != multiset(ys)[x]
    ensures !SameCollection(Some(xs), Some(ys))
  {
  }

  /** The intended equality on two objects is field-by-field equality. */
  lemma IntendedEqualsIsSameAttributes(a: NonMatchingAttributes, b: NonMatchingAttributes)
    ensures a != b ==> (a.IntendedEquals(b) <==> SameAttributes(a, b))
    ensures SameAttributes(a, a)
  {
    SameOptionalEquivalence(a.firstName, a.firstName, a.firstName);
    SameCollectionEquivalence(a.middleNames, a.middleNames, a.middleNames);
    SameCollectionEquivalence(a.surnames, a.surnames, a.surnames);
    SameOptionalEquivalence(a.dateOfBirth, a.dateOfBirth, a.dateOfBirth);
    SameOptionalEquivalence(a.gender, a.gender, a.gender);
    SameCollectionEquivalence(a.addresses, a.addresses, a.addresses);
  }

  /** The intended equality is reflexive, symmetric and transitive. */
  lemma {:induction false} IntendedEqualsIsEquivalence(a: NonMatchingAttributes, b: NonMatchingAttributes, c: NonMatchingAttributes)
    ensures a.IntendedEquals(a)
    ensures a.IntendedEquals(b) ==> b.IntendedEquals(a)
    ensures a.IntendedEquals(b) && b.IntendedEquals(c) ==> a.IntendedEquals(c)
  {
    SameOptionalEquivalence(a.firstName, b.firstName, c.firstName);
    SameCollectionEquivalence(a.middleNames, b.middleNames, c.middleNames);
    SameCollectionEquivalence(a.surnames, b.surnames, c.surnames);
    SameOptionalEquivalence(a.dateOfBirth, b.dateOfBirth, c.dateOfBirth);
    SameOptionalEquivalence(a.gender, b.gender, c.gender);
    SameCollectionEquivalence(a.addresses, b.addresses, c.addresses);
    IntendedEqualsIsSameAttributes(a, b);
    IntendedEqualsIsSameAttributes(b, c);
    IntendedEqualsIsSameAttributes(a, c);
    IntendedEqualsIsSameAttributes(b, a);
  }
}
