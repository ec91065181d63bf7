/**
 The data types of the vital-sign monitor: the closed set of vital categories,
 the allowed range of a category and the alert raised for a reading outside it.
 Readings and bounds are single-precision floats in the monitor; they are only
 compared and copied, so they are modelled as `real`.
 */
module Vitals {

  /** The kind of measurement. The monitor's enumeration has exactly these three. */
  datatype VitalType = Temperature | PulseRate | Spo2

  /** Allowed interval for one category. Nothing requires minValue <= maxValue. */
  datatype VitalRange = VitalRange(minValue: real, maxValue: real)

  /** One reading outside its range, with the range it was compared against. */
  datatype VitalAlert = VitalAlert(vital: VitalType, actualValue: real, expected: VitalRange, status: string)

  const TooLow: string := "too-low"
  const TooHigh: string := "too-high"

  /** Position of a category in the enumeration; ordered maps keyed on
      VitalType iterate in ascending rank. */
  function Rank(v: VitalType): (n: nat)
    ensures n < 3
  {
    match v
    case Temperature => 0
    case PulseRate => 1
    case Spo2 => 2
  }

  /** Every category, in enumeration order. */
  const AllVitals: seq<VitalType> := [Temperature, PulseRate, Spo2]

  /** The category sequence is strictly increasing in rank (so without repeats). */
  ghost predicate Ascending(vs: seq<VitalType>)
  {
    forall i, j :: 0 <= i < j < |vs| ==> Rank(vs[i]) < Rank(vs[j])
  }

  /** The enumeration is closed: the three categories are all there is,
      AllVitals lists them in order, and distinct categories have distinct ranks. */
  lemma EnumerationClosed()
    ensures forall v: VitalType :: v in AllVitals
    ensures Ascending(AllVitals)
    ensures forall v, w :: Rank(v) == Rank(w) ==> v == w
    ensures |AllVitals| == 3
  {
    forall v: VitalType ensures v in AllVitals {
      match v
      case Temperature => assert AllVitals[0] == v;
      case PulseRate => assert AllVitals[1] == v;
      case Spo2 => assert AllVitals[2] == v;
    }
  }

  /** Keys of a map keyed on VitalType, restricted to `cs`, in the order of `cs`. */
  function KeysAmong<X>(m: map<VitalType, X>, cs: seq<VitalType>): (ks: seq<VitalType>)
    ensures forall v :: v in ks <==> v in m && v in cs
    ensures |ks| <= |cs|
    ensures Ascending(cs) ==> Ascending(ks)
  {
    if cs == [] then []
    else
      var rest := KeysAmong(m, cs[1..]);
      assert Ascending(cs) ==> Ascending(cs[1..]) by {
        if Ascending(cs) {
          forall i, j | 0 <= i < j < |cs[1..]| ensures Rank(cs[1..][i]) < Rank(cs[1..][j]) {
            assert cs[1..][i] == cs[i + 1] && cs[1..][j] == cs[j + 1];
          }
        }
      }
      if cs[0] in m then
        assert Ascending(cs) ==> Ascending([cs[0]] + rest) by {
          if Ascending(cs) {
            forall k | 0 <= k < |rest| ensures Rank(cs[0]) < Rank(rest[k]) {
              var j :| 0 <= j < |cs[1..]| && cs[1..][j] == rest[k];
              assert cs[j + 1] == rest[k];
            }
          }
        }
        [cs[0]] + rest
      else rest
  }

  /** An ascending sequence has as many elements as the set of its elements. */
  lemma {:induction false} AscendingCardinality(vs: seq<VitalType>)
    requires Ascending(vs)
    ensures |set v | v in vs| == |vs|
  {
    if vs != [] {
      var tail := vs[1..];
      assert Ascending(tail) by {
        forall i, j | 0 <= i < j < |tail| ensures Rank(tail[i]) < Rank(tail[j]) {
          assert tail[i] == vs[i + 1] && tail[j] == vs[j + 1];
        }
      }
      AscendingCardinality(tail);
      assert vs[0] !in tail by {
        forall k | 0 <= k < |tail| ensures tail[k] != vs[0] {
          assert tail[k] == vs[k + 1];
        }
      }
      assert (set v | v in vs) == {vs[0]} + (set v | v in tail) by {
        assert vs == [vs[0]] + tail;
      }
    }
  }

  /** The keys of `m` in the ascending order in which an ordered map visits them:
      each key exactly once, nothing else. */
  function OrderedKeys<X>(m: map<VitalType, X>): (ks: seq<VitalType>)
    ensures forall v :: v in ks <==> v in m
    ensures Ascending(ks)
    ensures |ks| == |m|
  {
    EnumerationClosed();
    var ks := KeysAmong(m, AllVitals);
    AscendingCardinality(ks);
    assert (set v | v in ks) == m.Keys;
    ks
  }
}
