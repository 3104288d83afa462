/**
 * The transform loops of `get_latest_water_levels`
 * (app/services/github_data.py): build a normalised-name -> coordinates map
 * from the static station list, then turn every upstream item into one merged
 * record. Formatting a unix time as local date-time text is a parameter
 * (`formatTime`), because it depends on the host's time zone.
 */
module Merge {
  import opened Wrappers
  import opened Records
  import opened AlertCalc
  import opened StationNames

  const DefaultLatLng: seq<real> := [0.0, 0.0]

  function StaticKey(s: StaticStation): string {
    Normalize(s.name.GetOr(""))
  }

  function StaticLatLng(s: StaticStation): seq<real> {
    s.latLng.GetOr(DefaultLatLng)
  }

  /** The `station_coords` dict after the static list has been written into it in order. */
  function CoordsOf(statics: seq<StaticStation>): map<string, seq<real>> {
    WrittenInOrder(statics, StaticKey, StaticLatLng)
  }

  /** A dict after `d[key(x)] = value(x)` for every `x` of `xs`, in order. */
  function WrittenInOrder<T>(xs: seq<T>, key: T -> string, value: T -> seq<real>): map<string, seq<real>> {
    if xs == [] then map[]
    else
      var n := |xs| - 1;
      WrittenInOrder(xs[..n], key, value)[key(xs[n]) := value(xs[n])]
  }

  /** A key is present iff some element maps to it, and the last such element wins. */
  lemma {:induction false} LastWriteWins<T>(xs: seq<T>, key: T -> string, value: T -> seq<real>, k: string)
    ensures k in WrittenInOrder(xs, key, value) <==> exists j :: 0 <= j < |xs| && key(xs[j]) == k
    ensures forall j :: 0 <= j < |xs| && key(xs[j]) == k && (forall j' :: j < j' < |xs| ==> key(xs[j']) != k) ==>
      k in WrittenInOrder(xs, key, value) && WrittenInOrder(xs, key, value)[k] == value(xs[j])
  {
    if xs != [] {
      var n := |xs| - 1;
      var pre := xs[..n];
      LastWriteWins(pre, key, value, k);
      assert forall j :: 0 <= j < n ==> pre[j] == xs[j];
      if k in WrittenInOrder(xs, key, value) && k != key(xs[n]) {
        var j :| 0 <= j < n && key(pre[j]) == k;
      }
    }
  }

  /** Python truthiness of an optional number: absent and 0 are both false. */
  predicate Truthy(x: Option<real>) {
    x.Some? && x.value != 0.0
  }

  predicate TruthyTime(x: Option<int>) {
    x.Some? && x.value != 0
  }

  /** `remarks_rising` when non-empty, otherwise derived from two truthy, different levels. */
  function Trend(remarksRising: Option<string>, level: Option<real>, previous: Option<real>): string {
    var given := remarksRising.GetOr("");
    if given == "" && Truthy(level) && Truthy(previous) then
      if level.value > previous.value then "Rising"
      else if level.value < previous.value then "Falling"
      else ""
    else given
  }

  /** `ut_water_level_2 or ut`, formatted when truthy, otherwise "". */
  function Timestamp(item: Item, formatTime: int -> string): string {
    var ut := if TruthyTime(item.utWaterLevel2) then item.utWaterLevel2 else item.ut;
    if TruthyTime(ut) then formatTime(ut.value) else ""
  }

  /** The record the loop body appends for `item`. */
  function MergeItem(coords: map<string, seq<real>>, item: Item, formatTime: int -> string): WaterLevel {
    var stationName := item.station.GetOr("");
    var key := Normalize(stationName);
    var alert := item.alertLevel.GetOr(0.0);
    var minor := item.minorFloodLevel.GetOr(0.0);
    var major := item.majorFloodLevel.GetOr(0.0);
    WaterLevel(
      stationName,
      item.river.GetOr(""),
      item.riverBasin.GetOr(""),
      if key in coords then coords[key] else DefaultLatLng,
      item.waterLevel2,
      item.waterLevel1,
      alert, minor, major,
      CalculateAlertStatus(item.waterLevel2, Thresholds(Some(alert), Some(minor), Some(major))).Name(),
      CalculateFloodScore(item.waterLevel2, Thresholds(Some(alert), None, Some(major))),
      Trend(item.remarksRising, item.waterLevel2, item.waterLevel1),
      item.rainfall.GetOr(0.0),
      item.remarks.GetOr(""),
      Timestamp(item, formatTime))
  }

  /** What the transform produces: one merged record per upstream item, in order. */
  function Merged(statics: seq<StaticStation>, data: seq<Item>, formatTime: int -> string): seq<WaterLevel> {
    var coords := CoordsOf(statics);
    seq(|data|, i requires 0 <= i < |data| => MergeItem(coords, data[i], formatTime))
  }

  method Transform(statics: seq<StaticStation>, data: seq<Item>, formatTime: int -> string)
    returns (results: seq<WaterLevel>)
    ensures results == Merged(statics, data, formatTime)
    ensures |results| == |data|
    ensures forall i :: 0 <= i < |data| ==> results[i].stationName == data[i].station.GetOr("")
  {
    var stationCoords := StationCoords(statics);
    results := TransformItems(stationCoords, data, formatTime);
  }

  /** The first loop: normalised static name -> coordinates, later entries overwriting earlier ones. */
  method StationCoords(statics: seq<StaticStation>) returns (stationCoords: map<string, seq<real>>)
    ensures stationCoords == CoordsOf(statics)
  {
    stationCoords := map[];
    for i := 0 to |statics|
      invariant stationCoords == WrittenInOrder(statics[..i], StaticKey, StaticLatLng)
    {
      assert statics[..i + 1][..i] == statics[..i];
      var normalized := Normalize(statics[i].name.GetOr(""));
      stationCoords := stationCoords[normalized := statics[i].latLng.GetOr(DefaultLatLng)];
    }
    assert statics[..|statics|] == statics;
  }

  /** The second loop: one merged record per upstream item. */
  method TransformItems(stationCoords: map<string, seq<real>>, data: seq<Item>, formatTime: int -> string)
    returns (results: seq<WaterLevel>)
    ensures |results| == |data|
    ensures forall k :: 0 <= k < |data| ==> results[k] == MergeItem(stationCoords, data[k], formatTime)
  {
    results := [];
    for i := 0 to |data|
      invariant |results| == i
      invariant forall k :: 0 <= k < i ==> results[k] == MergeItem(stationCoords, data[k], formatTime)
    {
      var item := data[i];
      var stationName := item.station.GetOr("");
      var waterLevel := item.waterLevel2;
      var prevWaterLevel := item.waterLevel1;

      var normalizedName := Normalize(stationName);
      var latLng := if normalizedName in stationCoords then stationCoords[normalizedName] else DefaultLatLng;

      var alertLevel := item.alertLevel.GetOr(0.0);
      var minorFloodLevel := item.minorFloodLevel.GetOr(0.0);
      var majorFloodLevel := item.majorFloodLevel.GetOr(0.0);
      var alertStatus := CalculateAlertStatus(waterLevel, Thresholds(Some(alertLevel), Some(minorFloodLevel), Some(majorFloodLevel)));
      var floodScore := CalculateFloodScore(waterLevel, Thresholds(Some(alertLevel), None, Some(majorFloodLevel)));

      var ut := if TruthyTime(item.utWaterLevel2) then item.utWaterLevel2 else item.ut;
      var timestamp := "";
      if TruthyTime(ut) {
        timestamp := formatTime(ut.value);
      }

      var risingOrFalling := item.remarksRising.GetOr("");
      if risingOrFalling == "" && Truthy(waterLevel) && Truthy(prevWaterLevel) {
        if waterLevel.value > prevWaterLevel.value {
          risingOrFalling := "Rising";
        } else if waterLevel.value < prevWaterLevel.value {
          risingOrFalling := "Falling";
        }
      }

      results := results + [WaterLevel(
        stationName, item.river.GetOr(""), item.riverBasin.GetOr(""), latLng,
        waterLevel, prevWaterLevel, alertLevel, minorFloodLevel, majorFloodLevel,
        alertStatus.Name(), floodScore, risingOrFalling,
        item.rainfall.GetOr(0.0), item.remarks.GetOr(""), timestamp)];
    }
  }

  /**
   * A merged record's coordinates come from the last static station whose
   * normalised name equals the item's, and are [0, 0] when there is none.
   */
  lemma MergedCoordinates(statics: seq<StaticStation>, item: Item, formatTime: int -> string)
    ensures var r := MergeItem(CoordsOf(statics), item, formatTime);
      var key := Normalize(item.station.GetOr(""));
      && ((forall j :: 0 <= j < |statics| ==> StaticKey(statics[j]) != key) ==> r.latLng == DefaultLatLng)
      && (forall j ::
            (0 <= j < |statics| && StaticKey(statics[j]) == key &&
             forall j' :: j < j' < |statics| ==> StaticKey(statics[j']) != key)
            ==> r.latLng == StaticLatLng(statics[j]))
  {
    LastWriteWins(statics, StaticKey, StaticLatLng, Normalize(item.station.GetOr("")));
  }

  /** Aliased spellings join: an item named by a live-feed alias finds the static entry spelled the other way. */
  lemma AliasJoins(statics: seq<StaticStation>, item: Item, formatTime: int -> string, j: nat)
    requires j < |statics| && item.station.Some? && item.station.value in StationNameMap
    requires statics[j].name == Some(StationNameMap[item.station.value])
    requires forall j' :: j < j' < |statics| ==> StaticKey(statics[j']) != StaticKey(statics[j])
    ensures MergeItem(CoordsOf(statics), item, formatTime).latLng == StaticLatLng(statics[j])
  {
    AliasesAgree(item.station.value);
    MergedCoordinates(statics, item, formatTime);
  }

  /** An item without thresholds gets 0 for each, so any reading >= 0 is reported as MAJOR. */
  lemma MissingThresholdsGiveMajor(coords: map<string, seq<real>>, item: Item, formatTime: int -> string)
    requires item.alertLevel.None? && item.minorFloodLevel.None? && item.majorFloodLevel.None?
    requires item.waterLevel2.Some? && item.waterLevel2.value >= 0.0
    ensures MergeItem(coords, item, formatTime).alertStatus == "MAJOR"
    ensures MergeItem(coords, item, formatTime).floodScore.None?
  {
    ZeroThresholdsGiveMajor(item.waterLevel2.value);
  }

  /** A given trend text wins; otherwise Rising/Falling only for two truthy, different levels. */
  lemma TrendCases(remarksRising: Option<string>, level: Option<real>, previous: Option<real>)
    ensures var t := Trend(remarksRising, level, previous);
      && (remarksRising.GetOr("") != "" ==> t == remarksRising.value)
      && (remarksRising.GetOr("") == "" ==>
            && (t == "Rising" <==> Truthy(level) && Truthy(previous) && level.value > previous.value)
            && (t == "Falling" <==> Truthy(level) && Truthy(previous) && level.value < previous.value)
            && (t == "" <==> !(Truthy(level) && Truthy(previous)) || level.value == previous.value))
  {
  }

  /** Exchanging the two readings exchanges Rising and Falling. */
  lemma TrendSwap(level: Option<real>, previous: Option<real>)
    ensures Trend(None, level, previous) == "Rising" <==> Trend(None, previous, level) == "Falling"
    ensures Trend(None, level, previous) == "" <==> Trend(None, previous, level) == ""
  {
  }

  /**
   * The worked scenario: current 2.5, previous 2.0, thresholds 1.5 / 2.0 / 3.0
   * and no trend text give MINOR, score 2/3 and "Rising".
   */
  lemma RisingMinorScenario(coords: map<string, seq<real>>, name: string, formatTime: int -> string)
    ensures var item := Item(Some(name), Some(2.5), Some(2.0), Some(1.5), Some(2.0), Some(3.0),
                             None, None, None, None, None, None, None);
      var r := MergeItem(coords, item, formatTime);
      && r.alertStatus == "MINOR"
      && r.floodScore == Some(2.0 / 3.0)
      && r.risingOrFalling == "Rising"
      && r.stationName == name
  {
  }
}
