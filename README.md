# Vital-sign range checker, modelled in Dafny

The monitor compares a set of vital-sign readings (temperature, pulse rate,
SpO2) against a registry of safe ranges. It reports one alert, "too-low" or
"too-high", for each reading outside its range. It can also adjust the
registry for a patient's age bracket.

The model has six modules, one per part of the program:

- `Vitals` (vitals.dfy): the data types of `monitor.h`. It also has the
  ascending key order in which an ordered map keyed on `VitalType` is visited.
- `Checker` (checker.dfy): `checkVitals`. `Evaluate` is the specification
  function, with the properties the monitor promises proved about it.
  `CheckVitals` is the loop over the readings, proved equal to `Evaluate`.
- `Limits` (limits.dfy): the `VitalLimits` registry, a class whose one field is
  the map of ranges. Each mutator is specified by a pure map-update function.
- `Patients` (patients.dfy): `Patient`, with its age fixed at construction.
  `tuneLimits` is specified by the pure function `Tuned`.
- `Alerts` (alerts.dfy): the display name of each category.
- `Scenarios` (scenarios.dfy): the unit-test cases, as client methods whose
  postconditions follow from the operations' contracts.

Modelling decisions:

- The `float` readings and bounds are `real`. The monitor only compares and
  copies them.
- `std::map` visits its keys in ascending enumeration order: Temperature, then
  PulseRate, then Spo2. `OrderedKeys` reproduces that order, and `CheckVitals`
  loops over it.
- A range with `minValue > maxValue` is never excluded. The monitor does not
  validate ranges, so neither does the model. For such a range, "too-low" wins
  whenever the value is below the minimum, exactly as the code's `if`/`else if`
  does.
- Because of this, inclusive bounds are stated for values with
  `minValue <= value <= maxValue`. With a malformed range, a value equal to
  the minimum can still be "too-high".
- `checkVitals` takes both maps by const reference. In the model, maps are
  values and `CheckVitals` has no `modifies` clause, so it cannot change its
  inputs.
- `getAll` is a `const` member. Its model is a function with only a `reads`
  clause, so it cannot change the registry.
- C++ keeps `ranges` private. The model uses no export sets, so the field is
  visible. After construction, only `SetLimit`, `ChangeMin` and `ChangeMax`
  assign it; this is how the code is written, not something the model enforces.

## Model

| member | source | states |
|---|---|---|
| `Vitals.EnumerationClosed` | monitor.h:7-11 | There are exactly three categories, listed in enumeration order, and distinct categories have distinct ranks. |
| `Vitals.OrderedKeys` | monitor.cpp:18 | Visiting a map's keys yields each key of the map exactly once, nothing else, in strictly ascending enumeration order, so the count equals the map's size. |
| `Checker.AlertsOver` | monitor.cpp:18-27 | The alerts of the keys visited in order, at most one per key; its other properties are in `AlertsOverSound`, `AlertsOverComplete` and `AlertsOverOrdered`. |
| `Checker.AlertsOverStep` | monitor.cpp:19-27 | Visiting one more reading appends exactly one well-formed alert for it if it has a range and lies outside it, and appends nothing otherwise. |
| `Checker.AlertsOverSound` | monitor.cpp:18-27 | Visiting the readings yields at most one alert per reading. Every alert is about a visited reading with a range, carries its actual value and the exact range, lies outside that range, and has status "too-low" exactly when the value is below the minimum, otherwise "too-high". |
| `Checker.AlertsOverComplete` | monitor.cpp:18-27 | A visited category is alerted if and only if it has a range and its reading is below the minimum or above the maximum. |
| `Checker.AlertsOverOrdered` | monitor.cpp:18-27 | When the readings are visited in ascending key order, the alerts come out in strictly ascending key order. |
| `Checker.Evaluate` | monitor.cpp:12-30 | The alerts for readings and limits have these properties: category v is alerted iff v has a reading and a range and the reading is strictly outside it; each alert is well formed, with status "too-low" or "too-high"; there are at most as many alerts as readings; the alerts follow ascending key order. |
| `Checker.InclusiveBounds` | monitor.cpp:23-25 | A reading with minValue <= value <= maxValue raises no alert, so a value equal to either bound is in range. |
| `Checker.UnlimitedIgnored` | monitor.cpp:19-20 | A reading whose category has no range never raises an alert. |
| `Checker.CheckVitals` | monitor.cpp:12-30 | The loop over the readings in key order returns exactly the alerts of `Evaluate`. It has no frame, so both input maps are unchanged. |
| `Limits.WithLimit` | monitor.cpp:33-35 | Setting a limit makes the category present with exactly [min, max] and leaves every other entry as it was. min <= max is not required. |
| `Limits.WithMin` | monitor.cpp:36-38 | Changing a minimum never changes the key set. For a present category, only its minimum changes and its maximum is kept. Every other entry is untouched. For an absent category, the registry is unchanged. |
| `Limits.WithMax` | monitor.cpp:39-41 | Changing a maximum never changes the key set. For a present category, only its maximum changes and its minimum is kept. Every other entry is untouched. For an absent category, the registry is unchanged. |
| `Limits.ChangeIsPartialSet` | monitor.cpp:33-41 | For a present category, changing one bound equals setting the whole range with the other bound kept. |
| `Limits.VitalLimits.constructor` | monitor.h:34-43 | A new registry holds no ranges. |
| `Limits.VitalLimits.SetLimit` | monitor.cpp:33-35 | The registry becomes `WithLimit` of the old one: the entry is inserted or overwritten, and other entries are kept. |
| `Limits.VitalLimits.ChangeMin` | monitor.cpp:36-38 | The registry becomes `WithMin` of the old one. No key is created when the category is absent. |
| `Limits.VitalLimits.ChangeMax` | monitor.cpp:39-41 | The registry becomes `WithMax` of the old one. No key is created when the category is absent. |
| `Limits.VitalLimits.GetAll` | monitor.cpp:42-44 | Returns the whole stored map. It only reads the registry. |
| `Patients.Tuned` | monitor.cpp:49-56 | The key set never changes. Under 13: pulse minimum becomes 70 and temperature maximum becomes 100, each only if present, and SpO2 is kept. Over 65: only the pulse maximum becomes 90. Ages 13 to 65: the registry is unchanged. |
| `Patients.TunedIdempotent` | monitor.cpp:49-56 | Applying the age rule twice gives the same registry as applying it once. |
| `Patients.Patient.constructor` | monitor.cpp:47 | The patient's age is the given age. It is a `const` field and cannot change afterwards. |
| `Patients.Patient.TuneLimits` | monitor.cpp:49-56 | The registry becomes `Tuned` of the old one for the patient's age, with the same key set. Only the registry is in the frame. |
| `Alerts.DisplayName` | monitor.cpp:67-71 | The display name of each category ("Temperature", "Pulse Rate", "SpO2"), never empty. |
| `Alerts.DisplayNamesDistinct` | monitor.cpp:67-71 | Every category has a non-empty display name ("Temperature", "Pulse Rate", "SpO2"), and no two categories share one. |
| `Scenarios.NormalValues` | test-monitor.cpp:5-19 | 98.5, 75 and 95 against [95,102], [60,100] and [90,100] raise no alert. |
| `Scenarios.BoundaryValues` | monitor.cpp:23-25 | Pulse 100 on its maximum and SpO2 90 on its minimum, against the standard ranges, raise no alert. |
| `Scenarios.SingleViolation` | test-monitor.cpp:21-33 | Temperature 104 against [95,102] raises exactly one alert: Temperature, "too-high", value 104, range [95,102]. |
| `Scenarios.MultipleViolations` | test-monitor.cpp:35-49 | 94, 55 and 85 against the standard ranges raise exactly three "too-low" alerts, in key order. |
| `Scenarios.ChildProfile` | test-monitor.cpp:52-62 | For an age-8 patient, pulse [60,100] and temperature [95,102] become [70,100] and [95,100]. |
| `Scenarios.SeniorProfile` | test-monitor.cpp:64-72 | For an age-70 patient, pulse [60,100] becomes [60,90]. |

## Left out

- `alerts::show` (monitor.cpp:59-84): it writes to the console and, per alert, runs two blink cycles of two one-second pauses each, four one-second pauses in all. This is I/O and real time, with no functional result. Only the category-to-display-name mapping is modelled (`Alerts.DisplayName`).
- Floating point: readings and bounds are exact reals. NaN, infinities and rounding of `float` are not modelled; the monitor only compares and assigns these values.
- Privacy of `VitalLimits::ranges`: the field is public in the model, because the model uses no export sets. No code outside the class assigns it.
- `Limits.VitalLimits.GetAll`: returns a snapshot of the map at call time, where `getAll` returns a const reference that later `setLimit`, `changeMin` and `changeMax` calls show through. No caller in the repository keeps the reference across a mutation.
- `std::map::at` in the tests throws for a missing key. The scenario methods return the whole map instead, and state its exact contents.
