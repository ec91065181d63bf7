/**
 Checking a set of readings against a registry of safe ranges. A reading whose
 category has no range is skipped; otherwise a value below the minimum is
 "too-low", a value above the maximum (and not below the minimum) "too-high",
 and a value within the bounds, bounds included, raises nothing. Alerts come
 in the ascending key order of the readings.
 */
module Checker {
  import opened Vitals

  /** A value lies strictly outside the inclusive interval of its range. */
  predicate OutOfRange(value: real, range: VitalRange)
  {
    value < range.minValue || value > range.maxValue
  }

  /** `a` is a well-formed alert for one of the readings: it names a category
      with a reading and a range, carries that reading and that exact range,
      the reading is out of range, and the status names the side it is on
      ("too-low" takes precedence when the range is malformed). */
  ghost predicate IsAlertFor(a: VitalAlert, readings: map<VitalType, real>, limits: map<VitalType, VitalRange>)
  {
    && a.vital in readings
    && a.vital in limits
    && a.actualValue == readings[a.vital]
    && a.expected == limits[a.vital]
    && OutOfRange(a.actualValue, a.expected)
    && (a.status == TooLow || a.status == TooHigh)
    && (a.status == TooLow <==> a.actualValue < a.expected.minValue)
  }

  /** Some alert in `alerts` is about category `v`. */
  ghost predicate Alerted(alerts: seq<VitalAlert>, v: VitalType)
  {
    exists i :: 0 <= i < |alerts| && alerts[i].vital == v
  }

  /** The alerts raised by the readings of the categories in `keys`, visited in order. */
  function AlertsOver(keys: seq<VitalType>, readings: map<VitalType, real>, limits: map<VitalType, VitalRange>)
    : (r: seq<VitalAlert>)
    requires forall k :: k in keys ==> k in readings
    ensures |r| <= |keys|
  {
    if keys == [] then []
    else
      var before := AlertsOver(keys[..|keys| - 1], readings, limits);
      var vital := keys[|keys| - 1];
      if vital !in limits then before
      else if readings[vital] < limits[vital].minValue then
        before + [VitalAlert(vital, readings[vital], limits[vital], TooLow)]
      else if readings[vital] > limits[vital].maxValue then
        before + [VitalAlert(vital, readings[vital], limits[vital], TooHigh)]
      else before
  }

  /** One step of AlertsOver: visiting one more key appends at most one alert,
      and only about that key. */
  lemma AlertsOverStep(keys: seq<VitalType>, readings: map<VitalType, real>, limits: map<VitalType, VitalRange>)
    requires keys != []
    requires forall k :: k in keys ==> k in readings
    ensures var before := AlertsOver(keys[..|keys| - 1], readings, limits);
      var r := AlertsOver(keys, readings, limits);
      var vital := keys[|keys| - 1];
      if vital in limits && OutOfRange(readings[vital], limits[vital]) then
        |r| == |before| + 1 && r[..|before|] == before && r[|before|].vital == vital
        && IsAlertFor(r[|before|], readings, limits)
      else r == before
  {
  }

  /** Removing the last key keeps a key sequence ascending. */
  lemma AscendingInit(keys: seq<VitalType>)
    requires keys != [] && Ascending(keys)
    ensures Ascending(keys[..|keys| - 1])
  {
    var init := keys[..|keys| - 1];
    forall i, j | 0 <= i < j < |init| ensures Rank(init[i]) < Rank(init[j]) {
      assert init[i] == keys[i] && init[j] == keys[j];
    }
  }

  /** At most one alert per visited key, and every alert is well formed and about a visited key. */
  lemma {:induction false} AlertsOverSound(keys: seq<VitalType>, readings: map<VitalType, real>, limits: map<VitalType, VitalRange>)
    requires forall k :: k in keys ==> k in readings
    ensures var r := AlertsOver(keys, readings, limits);
      && |r| <= |keys|
      && forall i :: 0 <= i < |r| ==> r[i].vital in keys && IsAlertFor(r[i], readings, limits)
  {
    if keys != [] {
      var init := keys[..|keys| - 1];
      assert forall k :: k in init ==> k in keys;
      AlertsOverSound(init, readings, limits);
      AlertsOverStep(keys, readings, limits);
      var before := AlertsOver(init, readings, limits);
      var r := AlertsOver(keys, readings, limits);
      forall i | 0 <= i < |r| ensures r[i].vital in keys && IsAlertFor(r[i], readings, limits) {
        if i < |before| {
          assert r[i] == before[i];
        }
      }
    }
  }

  /** A visited category is alerted exactly when it has a range and its reading is outside it. */
  lemma {:induction false} AlertsOverComplete(keys: seq<VitalType>, readings: map<VitalType, real>, limits: map<VitalType, VitalRange>)
    requires forall k :: k in keys ==> k in readings
    ensures var r := AlertsOver(keys, readings, limits);
      forall v :: Alerted(r, v) <==> v in keys && v in limits && OutOfRange(readings[v], limits[v])
  {
    var r := AlertsOver(keys, readings, limits);
    if keys != [] {
      var init := keys[..|keys| - 1];
      var vital := keys[|keys| - 1];
      assert forall k :: k in keys <==> k in init || k == vital;
      AlertsOverComplete(init, readings, limits);
      AlertsOverStep(keys, readings, limits);
      var before := AlertsOver(init, readings, limits);
      forall v | Alerted(r, v) ensures v in keys && v in limits && OutOfRange(readings[v], limits[v]) {
        var i :| 0 <= i < |r| && r[i].vital == v;
        if i < |before| {
          assert before[i] == r[i];
          assert Alerted(before, v);
        } else {
          assert IsAlertFor(r[i], readings, limits);
        }
      }
      forall v | v in keys && v in limits && OutOfRange(readings[v], limits[v]) ensures Alerted(r, v) {
        if v == vital {
          assert r[|before|].vital == v;
        } else {
          assert Alerted(before, v);
          var i :| 0 <= i < |before| && before[i].vital == v;
          assert r[i] == before[i];
        }
      }
    }
  }

  /** Alerts come in the order of the visited keys. */
  lemma {:induction false} AlertsOverOrdered(keys: seq<VitalType>, readings: map<VitalType, real>, limits: map<VitalType, VitalRange>)
    requires forall k :: k in keys ==> k in readings
    requires Ascending(keys)
    ensures var r := AlertsOver(keys, readings, limits);
      forall i, j :: 0 <= i < j < |r| ==> Rank(r[i].vital) < Rank(r[j].vital)
  {
    if keys != [] {
      var init := keys[..|keys| - 1];
      var vital := keys[|keys| - 1];
      assert forall k :: k in init ==> k in keys;
      AscendingInit(keys);
      AlertsOverOrdered(init, readings, limits);
      AlertsOverSound(init, readings, limits);
      AlertsOverStep(keys, readings, limits);
      var before := AlertsOver(init, readings, limits);
      var r := AlertsOver(keys, readings, limits);
      if r != before {
        forall i | 0 <= i < |before| ensures Rank(before[i].vital) < Rank(vital) {
          var j :| 0 <= j < |init| && init[j] == before[i].vital;
          assert keys[j] == init[j];
        }
        forall i, j | 0 <= i < j < |r| ensures Rank(r[i].vital) < Rank(r[j].vital) {
          assert r[i] == before[i];
          if j < |before| {
            assert r[j] == before[j];
          }
        }
      }
    }
  }

  /** The alerts for `readings` against `limits`: an alert for category v exactly
      when v has a reading, has a range, and the reading is outside it; each
      alert well formed; at most one per reading; in ascending key order. */
  function Evaluate(readings: map<VitalType, real>, limits: map<VitalType, VitalRange>): (r: seq<VitalAlert>)
    ensures |r| <= |readings|
    ensures forall i :: 0 <= i < |r| ==> IsAlertFor(r[i], readings, limits)
    ensures forall v :: Alerted(r, v) <==> v in readings && v in limits && OutOfRange(readings[v], limits[v])
    ensures forall i, j :: 0 <= i < j < |r| ==> Rank(r[i].vital) < Rank(r[j].vital)
  {
    var keys := OrderedKeys(readings);
    AlertsOverSound(keys, readings, limits);
    AlertsOverComplete(keys, readings, limits);
    AlertsOverOrdered(keys, readings, limits);
    AlertsOver(keys, readings, limits)
  }

  /** A reading within its range, either bound included, raises no alert. */
  lemma InclusiveBounds(readings: map<VitalType, real>, limits: map<VitalType, VitalRange>, v: VitalType)
    requires v in readings && v in limits
    requires limits[v].minValue <= readings[v] <= limits[v].maxValue
    ensures !Alerted(Evaluate(readings, limits), v)
  {
  }

  /** A reading whose category has no range never raises an alert. */
  lemma UnlimitedIgnored(readings: map<VitalType, real>, limits: map<VitalType, VitalRange>, v: VitalType)
    requires v in readings && v !in limits
    ensures !Alerted(Evaluate(readings, limits), v)
  {
  }

  /** Visits the readings in ascending key order and collects an alert for each
      reading outside its range. Both maps are values, so neither changes. */
  method CheckVitals(readings: map<VitalType, real>, limits: map<VitalType, VitalRange>)
    returns (results: seq<VitalAlert>)
    ensures results == Evaluate(readings, limits)
  {
    var keys := OrderedKeys(readings);
    results := [];
    for i := 0 to |keys|
      invariant results == AlertsOver(keys[..i], readings, limits)
    {
      assert keys[..i + 1][..i] == keys[..i];
      var vital := keys[i];
      var value := readings[vital];
      if vital in limits {
        var range := limits[vital];
        if value < range.minValue {
          results := results + [VitalAlert(vital, value, range, TooLow)];
        } else if value > range.maxValue {
          results := results + [VitalAlert(vital, value, range, TooHigh)];
        }
      }
    }
    assert keys[..|keys|] == keys;
  }
}
