/**
 The presentation side of the monitor. Only the display name of each category
 is modelled; the console output and timed blinking are not.
 */
module Alerts {
  import opened Vitals

  /** The name under which a category is shown to the user. */
  function DisplayName(v: VitalType): (name: string)
    ensures |name| > 0
  {
    match v
    case Temperature => "Temperature"
    case PulseRate => "Pulse Rate"
    case Spo2 => "SpO2"
  }

  /** Every category has a non-empty display name and no two categories share one. */
  lemma DisplayNamesDistinct()
    ensures forall v :: |DisplayName(v)| > 0
    ensures forall v, w :: DisplayName(v) == DisplayName(w) ==> v == w
  {
  }
}
