/**
 The monitor's unit-test cases, stated as client code whose postconditions
 follow from the contracts of the operations they call.
 */
module Scenarios {
  import opened Vitals
  import opened Checker
  import opened Limits
  import opened Patients

  /** The test ranges: temperature [95, 102], pulse [60, 100], SpO2 [90, 100]. */
  function StandardLimits(): (m: map<VitalType, VitalRange>)
  {
    map[Temperature := VitalRange(95.0, 102.0), PulseRate := VitalRange(60.0, 100.0), Spo2 := VitalRange(90.0, 100.0)]
  }

  /** Readings strictly inside every range raise nothing. */
  method NormalValues() returns (issues: seq<VitalAlert>)
    ensures issues == []
  {
    var readings := map[Temperature := 98.5, PulseRate := 75.0, Spo2 := 95.0];
    issues := CheckVitals(readings, StandardLimits());
    // Instantiates the per-alert postcondition of CheckVitals at index 0.
    assert issues == [] || !IsAlertFor(issues[0], readings, StandardLimits());
  }

  /** Readings equal to a bound are in range: SpO2 90 on its minimum and
      pulse 100 on its maximum raise nothing. */
  method BoundaryValues() returns (issues: seq<VitalAlert>)
    ensures issues == []
  {
    var readings := map[PulseRate := 100.0, Spo2 := 90.0];
    issues := CheckVitals(readings, StandardLimits());
  }

  /** One high temperature raises exactly one "too-high" temperature alert. */
  method SingleViolation() returns (issues: seq<VitalAlert>)
    ensures |issues| == 1
    ensures issues[0].status == TooHigh && issues[0].vital == Temperature
    ensures issues[0].actualValue == 104.0 && issues[0].expected == VitalRange(95.0, 102.0)
  {
    var readings := map[Temperature := 104.0];
    var limits := map[Temperature := VitalRange(95.0, 102.0)];
    issues := CheckVitals(readings, limits);
    assert Alerted(issues, Temperature);
  }

  /** Three low readings raise three "too-low" alerts, in key order. */
  method MultipleViolations() returns (issues: seq<VitalAlert>)
    ensures |issues| == 3
    ensures issues[0].vital == Temperature && issues[1].vital == PulseRate && issues[2].vital == Spo2
    ensures forall i :: 0 <= i < 3 ==> issues[i].status == TooLow
  {
    var readings := map[Temperature := 94.0, PulseRate := 55.0, Spo2 := 85.0];
    issues := CheckVitals(readings, StandardLimits());
    assert Alerted(issues, Temperature) && Alerted(issues, PulseRate) && Alerted(issues, Spo2);
    assert |readings| == 3;
  }

  /** An eight-year-old gets pulse minimum 70 and temperature maximum 100. */
  method ChildProfile() returns (all: map<VitalType, VitalRange>)
    ensures all == map[PulseRate := VitalRange(70.0, 100.0), Temperature := VitalRange(95.0, 100.0)]
  {
    var limits := new VitalLimits();
    limits.SetLimit(PulseRate, 60.0, 100.0);
    limits.SetLimit(Temperature, 95.0, 102.0);
    var child := new Patient(8);
    child.TuneLimits(limits);
    all := limits.GetAll();
  }

  /** A seventy-year-old gets pulse maximum 90. */
  method SeniorProfile() returns (all: map<VitalType, VitalRange>)
    ensures all == map[PulseRate := VitalRange(60.0, 90.0)]
  {
    var limits := new VitalLimits();
    limits.SetLimit(PulseRate, 60.0, 100.0);
    var senior := new Patient(70);
    senior.TuneLimits(limits);
    all := limits.GetAll();
  }
}
