/**
 * Surface: the material of a primitive. A fixed set of properties, each with an inclusive
 * range and a default; each property may be written at most once, and reading an unset
 * property yields its default.
 */
module Surface {
  import opened Wrappers

  datatype Property = AmbientRatio | DiffuseRatio | SpecularRatio | SpecularExponent | ReflexionRatio
  {
    function MinValue(): real {
      0.0
    }

    function MaxValue(): real {
      if SpecularExponent? then 1000.0 else 1.0
    }

    function DefaultValue(): real {
      match this
      case AmbientRatio => 0.05
      case DiffuseRatio => 0.95
      case SpecularRatio => 0.0
      case SpecularExponent => 30.0
      case ReflexionRatio => 0.0
    }

    /** `isValidValue`: the value lies in the inclusive range of the property. */
    predicate IsValidValue(v: real) {
      MinValue() <= v <= MaxValue()
    }
  }

  datatype SurfaceError =
    | OutOfRange(property: Property, value: real)  // IllegalArgumentException
    | AlreadySet(property: Property)               // IllegalStateException

  /** `get` on a property table: the stored value when the property was set, its default otherwise. */
  function Lookup(table: map<Property, real>, p: Property): real {
    if p in table then table[p] else p.DefaultValue()
  }

  /** `set` on a property table: the range is checked first, then whether the property is already set. */
  function Assign(table: map<Property, real>, p: Property, v: real): Result<map<Property, real>, SurfaceError> {
    if !p.IsValidValue(v) then Failure(OutOfRange(p, v))
    else if p in table then Failure(AlreadySet(p))
    else Success(table[p := v])
  }

  /** The invariant every reachable table keeps: each stored value is in its property's range. */
  ghost predicate Consistent(table: map<Property, real>) {
    forall p | p in table :: p.IsValidValue(table[p])
  }

  /** The five defaults, each inside its own range. */
  lemma DefaultsInRange(p: Property)
    ensures p.IsValidValue(p.DefaultValue())
    ensures Lookup(map[], p) == p.DefaultValue()
    ensures p.AmbientRatio? ==> p.DefaultValue() == 0.05 && p.MaxValue() == 1.0
    ensures p.DiffuseRatio? ==> p.DefaultValue() == 0.95 && p.MaxValue() == 1.0
    ensures p.SpecularRatio? ==> p.DefaultValue() == 0.0 && p.MaxValue() == 1.0
    ensures p.SpecularExponent? ==> p.DefaultValue() == 30.0 && p.MaxValue() == 1000.0
    ensures p.ReflexionRatio? ==> p.DefaultValue() == 0.0 && p.MaxValue() == 1.0
  {
  }

  /** Reading a consistent table always yields a value in the property's range. */
  lemma LookupInRange(table: map<Property, real>, p: Property)
    requires Consistent(table)
    ensures p.MinValue() <= Lookup(table, p) <= p.MaxValue()
  {
    if p !in table {
      DefaultsInRange(p);
    }
  }

  /**
   * `set` succeeds exactly for an in-range value of a property not yet set; an out-of-range value
   * is reported even when the property is already set. After success the property reads back as
   * the value, every other property reads as before, and the table stays consistent.
   */
  lemma AssignSpec(table: map<Property, real>, p: Property, v: real)
    ensures Assign(table, p, v).Success? <==> p.IsValidValue(v) && p !in table
    ensures !p.IsValidValue(v) ==> Assign(table, p, v) == Failure(OutOfRange(p, v))
    ensures p.IsValidValue(v) && p in table ==> Assign(table, p, v) == Failure(AlreadySet(p))
    ensures Assign(table, p, v).Success? ==>
      var t := Assign(table, p, v).value;
      && Lookup(t, p) == v
      && (forall q | q != p :: Lookup(t, q) == Lookup(table, q))
      && (Consistent(table) ==> Consistent(t))
  {
  }

  /** A successful `set` makes every later `set` of the same property fail. */
  lemma {:induction false} SecondAssignFails(table: map<Property, real>, p: Property, v: real, w: real)
    requires Assign(table, p, v).Success?
    ensures Assign(Assign(table, p, v).value, p, w).Failure?
  {
  }

  class Surface {
    /** propertyDoubleMap: the properties set so far. */
    var table: map<Property, real>

    /** Every stored value is in its property's range. */
    ghost predicate Valid()
      reads this
    {
      Consistent(table)
    }

    constructor ()
      ensures table == map[] && Valid()
    {
      table := map[];
    }

    /** The stored value, or the default when the property was never set; always in range. */
    function Get(p: Property): (r: real)
      requires Valid()
      reads this
      ensures p.MinValue() <= r <= p.MaxValue()
      ensures p !in table ==> r == p.DefaultValue()
    {
      LookupInRange(table, p);
      DefaultsInRange(p);
      Lookup(table, p)
    }

    /** Writes the property once; on failure nothing changes. */
    method Set(p: Property, v: real) returns (r: Option<SurfaceError>)
      modifies this
      ensures Assign(old(table), p, v).Success? ==> r == None && table == Assign(old(table), p, v).value
      ensures Assign(old(table), p, v).Failure? ==> r == Some(Assign(old(table), p, v).error) && table == old(table)
      ensures old(Valid()) ==> Valid()
    {
      if !p.IsValidValue(v) {
        return Some(OutOfRange(p, v));
      }
      if p in table {
        return Some(AlreadySet(p));
      }
      table := table[p := v];
      r := None;
    }
  }
}
