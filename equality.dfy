/** The plugin's comparison of an attribute's new value with its old one: null only
    equals null, an AliasedValue is unwrapped once on each side, the SDK wrapper types
    compare by their contents, and everything else falls back to Object.Equals. */
module ValueEquality {
  import opened Values

  /** One level of AliasedValue unwrapping. */
  function Unwrap(v: Value): (u: Value)
    ensures v.Aliased? ==> u == v.inner
    ensures !v.Aliased? ==> u == v
  {
    if v.Aliased? then v.inner else v
  }

  /** AreEqual(a, b).  Two separate objects are never the same reference here, so the
      reference test only catches null against null.  When a unwraps to null the final
      a.Equals(b) dereferences null. */
  function AreEqual(a: Value, b: Value): (r: Result<bool, Exception>)
    ensures a.Null? || b.Null? ==> r == Ok(a.Null? && b.Null?)
    ensures r.Err? <==> a == Aliased(Null) && !b.Null?
    ensures r.Err? ==> r.error == Exception(NullReferenceException, NullReferenceMessage)
  {
    if a.Null? && b.Null? then Ok(true)
    else if a.Null? || b.Null? then Ok(false)
    else
      var x, y := Unwrap(a), Unwrap(b);
      match (x, y)
      case (OptionSet(p), OptionSet(q)) => Ok(p == q)
      case (Reference(p), Reference(q)) =>
        Ok(p.id == q.id && EqualsIgnoreCase(Some(p.logicalName), Some(q.logicalName)))
      case (Money(p), Money(q)) => Ok(p == q)
      case (DateTime(p), DateTime(q)) => Ok(p == q)
      case _ =>
        if x.Null? then Err(Exception(NullReferenceException, NullReferenceMessage))
        else Ok(!x.Aliased? && x == y)
  }

  // ---------------------------------------------------------------------------
  // A reference definition: equality of canonical forms

  /** What AreEqual looks at in an unwrapped value: an entity reference's logical name
      counts only up to letter case. */
  function Canonical(v: Value): Value {
    match v
    case Reference(r) => Reference(EntityReference(Upper(r.logicalName), r.id))
    case _ => v
  }

  /** A value AreEqual can compare without raising and without relying on object
      identity: not null, and not an alias of null or of another alias. */
  predicate Comparable(v: Value) {
    !v.Null? && !(v.Aliased? && (v.inner.Null? || v.inner.Aliased?))
  }

  /** On comparable values AreEqual raises nothing and is equality of canonical forms. */
  lemma AreEqualIsCanonicalEquality(a: Value, b: Value)
    requires Comparable(a) && Comparable(b)
    ensures AreEqual(a, b) == Ok(Canonical(Unwrap(a)) == Canonical(Unwrap(b)))
  {
    var x, y := Unwrap(a), Unwrap(b);
    if x.Reference? && y.Reference? {
      assert Canonical(x) == Canonical(y)
             <==> x.ref.id == y.ref.id && Upper(x.ref.logicalName) == Upper(y.ref.logicalName);
    } else if x.Reference? || y.Reference? {
      assert Canonical(x) != Canonical(y);
    } else {
      assert Canonical(x) == x && Canonical(y) == y;
    }
  }

  /** On comparable values AreEqual is an equivalence. */
  lemma AreEqualIsEquivalence(a: Value, b: Value, c: Value)
    requires Comparable(a) && Comparable(b) && Comparable(c)
    ensures AreEqual(a, a) == Ok(true)
    ensures AreEqual(a, b) == AreEqual(b, a)
    ensures AreEqual(a, b) == Ok(true) && AreEqual(b, c) == Ok(true) ==> AreEqual(a, c) == Ok(true)
  {
    AreEqualIsCanonicalEquality(a, a);
    AreEqualIsCanonicalEquality(a, b);
    AreEqualIsCanonicalEquality(b, a);
    AreEqualIsCanonicalEquality(b, c);
    AreEqualIsCanonicalEquality(a, c);
  }

  /** Wrapping a plain value in an AliasedValue, on either side, changes nothing. */
  lemma AliasIsTransparent(a: Value, b: Value)
    requires !a.Null? && !a.Aliased?
    ensures AreEqual(Aliased(a), b) == AreEqual(a, b)
    ensures AreEqual(b, Aliased(a)) == AreEqual(b, a)
  {
    assert Unwrap(Aliased(a)) == a == Unwrap(a);
  }

  /** An alias of null raises on the left and is merely unequal on the right. */
  lemma AliasedNullIsAsymmetric(v: Value)
    requires !v.Null? && v != Aliased(Null)
    ensures AreEqual(Aliased(Null), v).Err? && AreEqual(v, Aliased(Null)) == Ok(false)
  {
  }

  /** Strings fall back to String.Equals, which is ordinal and case-sensitive. */
  lemma StringsCompareExactly(s: string, t: string)
    ensures AreEqual(Str(s), Str(t)) == Ok(s == t)
    ensures AreEqual(Str("test"), Str("Test")) == Ok(false)
  {
    assert "test"[0] != "Test"[0];
  }

  /** Entity references with the same id are equal whatever the letter case of their
      logical names; references with different ids never are. */
  lemma ReferencesIgnoreNameCase(p: EntityReference, q: EntityReference)
    ensures p.id == q.id && Upper(p.logicalName) == Upper(q.logicalName)
            ==> AreEqual(Reference(p), Reference(q)) == Ok(true)
    ensures p.id != q.id ==> AreEqual(Reference(p), Reference(q)) == Ok(false)
    ensures AreEqual(Reference(EntityReference("account", p.id)), Reference(EntityReference("Account", p.id))) == Ok(true)
  {
    assert Upper("account") == Upper("Account") by {
      assert Upper("account")[0] == 'A' == Upper("Account")[0];
    }
  }

  /** Boxed values of different types are unequal even when they denote the same
      number, as Int32.Equals(object) is false for a boxed decimal. */
  lemma DifferentTypesAreUnequal(i: Int32)
    ensures AreEqual(Int(i), Dec(i)) == Ok(false)
    ensures AreEqual(Value.OptionSet(i), Int(i)) == Ok(false)
    ensures AreEqual(Money(i), Dec(i)) == Ok(false)
  {
  }
}
