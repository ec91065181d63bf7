/**
 Age-based adjustment of a registry of safe ranges. Children (under 13) get a
 higher pulse minimum and a lower temperature maximum; seniors (over 65) a
 lower pulse maximum; ages 13 to 65 get no adjustment. Each adjustment only
 touches a range that is already present.
 */
module Patients {
  import opened Vitals
  import opened Limits

  const ChildAgeLimit: int := 13
  const SeniorAgeLimit: int := 65

  /** The registry after the age rule for `age` has been applied. */
  function Tuned(m: map<VitalType, VitalRange>, age: int): (r: map<VitalType, VitalRange>)
    ensures r.Keys == m.Keys
    ensures ChildAgeLimit <= age <= SeniorAgeLimit ==> r == m
    ensures age < ChildAgeLimit && PulseRate in m ==> r[PulseRate] == VitalRange(70.0, m[PulseRate].maxValue)
    ensures age < ChildAgeLimit && Temperature in m ==> r[Temperature] == VitalRange(m[Temperature].minValue, 100.0)
    ensures age < ChildAgeLimit && Spo2 in m ==> r[Spo2] == m[Spo2]
    ensures age > SeniorAgeLimit && PulseRate in m ==> r[PulseRate] == VitalRange(m[PulseRate].minValue, 90.0)
    ensures age > SeniorAgeLimit ==> forall v :: v in m && v != PulseRate ==> r[v] == m[v]
  {
    if age < ChildAgeLimit then WithMax(WithMin(m, PulseRate, 70.0), Temperature, 100.0)
    else if age > SeniorAgeLimit then WithMax(m, PulseRate, 90.0)
    else m
  }

  /** Applying the rule for the same age twice gives the same registry as once. */
  lemma TunedIdempotent(m: map<VitalType, VitalRange>, age: int)
    ensures Tuned(Tuned(m, age), age) == Tuned(m, age)
  {
  }

  /** A patient; the age is fixed when the patient is created. */
  class Patient {
    const age: int

    constructor (ageYears: int)
      ensures age == ageYears
    {
      age := ageYears;
    }

    /** Adjusts the registry for this patient's age through the
        adjust-if-present mutators. The patient itself is not changed. */
    method TuneLimits(registry: VitalLimits)
      modifies registry
      ensures registry.ranges == Tuned(old(registry.ranges), age)
      ensures registry.ranges.Keys == old(registry.ranges.Keys)
    {
      if age < ChildAgeLimit {
        registry.ChangeMin(PulseRate, 70.0);
        registry.ChangeMax(Temperature, 100.0);
      } else if age > SeniorAgeLimit {
        registry.ChangeMax(PulseRate, 90.0);
      }
    }
  }
}
