/**
 The registry of safe ranges: one VitalRange per category, set outright or
 adjusted one bound at a time. Adjusting a bound of a category that has no
 range is ignored rather than creating one.
 */
module Limits {
  import opened Vitals

  /** The registry after setting the range of `vital` to [min, max]:
      the entry is created or overwritten and no other entry changes. */
  function WithLimit(m: map<VitalType, VitalRange>, vital: VitalType, min: real, max: real)
    : (r: map<VitalType, VitalRange>)
    ensures r.Keys == m.Keys + {vital}
    ensures r[vital] == VitalRange(min, max)
    ensures forall v :: v in m && v != vital ==> r[v] == m[v]
  {
    m[vital := VitalRange(min, max)]
  }

  /** The registry after lowering or raising the minimum of `vital` to `newMin`,
      if `vital` has a range; otherwise the registry unchanged. */
  function WithMin(m: map<VitalType, VitalRange>, vital: VitalType, newMin: real)
    : (r: map<VitalType, VitalRange>)
    ensures r.Keys == m.Keys
    ensures vital in m ==> r[vital].minValue == newMin && r[vital].maxValue == m[vital].maxValue
    ensures forall v :: v in m && v != vital ==> r[v] == m[v]
    ensures vital !in m ==> r == m
  {
    if vital in m then m[vital := m[vital].(minValue := newMin)] else m
  }

  /** The registry after changing the maximum of `vital` to `newMax`,
      if `vital` has a range; otherwise the registry unchanged. */
  function WithMax(m: map<VitalType, VitalRange>, vital: VitalType, newMax: real)
    : (r: map<VitalType, VitalRange>)
    ensures r.Keys == m.Keys
    ensures vital in m ==> r[vital].maxValue == newMax && r[vital].minValue == m[vital].minValue
    ensures forall v :: v in m && v != vital ==> r[v] == m[v]
    ensures vital !in m ==> r == m
  {
    if vital in m then m[vital := m[vital].(maxValue := newMax)] else m
  }

  /** Changing a bound of a present category is the same as setting its whole
      range with the other bound kept. */
  lemma ChangeIsPartialSet(m: map<VitalType, VitalRange>, vital: VitalType, x: real)
    requires vital in m
    ensures WithMin(m, vital, x) == WithLimit(m, vital, x, m[vital].maxValue)
    ensures WithMax(m, vital, x) == WithLimit(m, vital, m[vital].minValue, x)
  {
  }

  /** The registry of safe ranges. Its only state is the map of ranges. After
      construction, only SetLimit, ChangeMin and ChangeMax assign it. */
  class VitalLimits {
    var ranges: map<VitalType, VitalRange>

    /** A new registry holds no ranges. */
    constructor ()
      ensures ranges == map[]
    {
      ranges := map[];
    }

    /** Inserts or overwrites the range of `vital`; min <= max is not checked. */
    method SetLimit(vital: VitalType, min: real, max: real)
      modifies this
      ensures ranges == WithLimit(old(ranges), vital, min, max)
      ensures ranges[vital] == VitalRange(min, max)
      ensures forall v :: v in old(ranges) && v != vital ==> v in ranges && ranges[v] == old(ranges)[v]
    {
      ranges := ranges[vital := VitalRange(min, max)];
    }

    /** Updates the minimum of `vital` only if a range for it already exists. */
    method ChangeMin(vital: VitalType, newMin: real)
      modifies this
      ensures ranges == WithMin(old(ranges), vital, newMin)
      ensures vital !in old(ranges) ==> ranges == old(ranges)
    {
      if vital in ranges {
        ranges := ranges[vital := ranges[vital].(minValue := newMin)];
      }
    }

    /** Updates the maximum of `vital` only if a range for it already exists. */
    method ChangeMax(vital: VitalType, newMax: real)
      modifies this
      ensures ranges == WithMax(old(ranges), vital, newMax)
      ensures vital !in old(ranges) ==> ranges == old(ranges)
    {
      if vital in ranges {
        ranges := ranges[vital := ranges[vital].(maxValue := newMax)];
      }
    }

    /** Read-only view of the whole registry. As a function it cannot change
        the registry. */
    function GetAll(): (all: map<VitalType, VitalRange>)
      reads this
      ensures all == ranges
    {
      ranges
    }
  }
}
