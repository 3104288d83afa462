/**
 * `get_gauging_stations`, `get_rivers` and `get_river_basins`
 * (app/services/github_data.py) applied to the merged water-level records,
 * and the basin-code extraction of `get_river_basins`.
 */
module Extractors {
  import opened Wrappers
  import opened Text
  import opened Records
  import opened Dedup

  function StationKey(w: WaterLevel): string { w.stationName }
  function RiverKey(w: WaterLevel): string { w.riverName }
  function BasinKey(w: WaterLevel): string { w.riverBasinName }

  function StationOf(w: WaterLevel): Station {
    Station(w.stationName, w.riverName, w.riverBasinName, w.latLng,
            w.alertLevel, w.minorFloodLevel, w.majorFloodLevel)
  }

  function RiverOf(w: WaterLevel): River {
    River(w.riverName, w.riverBasinName)
  }

  function BasinOf(w: WaterLevel): Basin {
    Basin(w.riverBasinName, BasinCode(w.riverBasinName))
  }

  /** `f` applied to each record, in order. */
  function Project<T>(records: seq<WaterLevel>, f: WaterLevel -> T): (r: seq<T>)
    ensures |r| == |records|
  {
    if records == [] then []
    else
      var n := |records| - 1;
      Project(records[..n], f) + [f(records[n])]
  }

  lemma {:induction false} ProjectAt<T>(records: seq<WaterLevel>, f: WaterLevel -> T, k: nat)
    requires k < |records|
    ensures Project(records, f)[k] == f(records[k])
  {
    var n := |records| - 1;
    if k < n {
      ProjectAt(records[..n], f, k);
    }
  }

  /** The stations `get_gauging_stations` lists: one per first occurrence of a station name. */
  function StationsOf(levels: seq<WaterLevel>): seq<Station> {
    Project(FirstByKey(levels, StationKey), StationOf)
  }

  function RiversOf(levels: seq<WaterLevel>): seq<River> {
    Project(FirstByKey(levels, RiverKey), RiverOf)
  }

  function BasinsOf(levels: seq<WaterLevel>): seq<Basin> {
    Project(FirstByKey(levels, BasinKey), BasinOf)
  }

  /** One loop step of a first-seen extractor, stated on the prefix `xs[..i + 1]`. */
  lemma FirstByKeyStep<T>(xs: seq<T>, key: T -> string, i: nat, seen: set<string>)
    requires i < |xs|
    requires forall n :: n in seen <==> n != "" && exists j :: 0 <= j < i && key(xs[j]) == n
    ensures FirstByKey(xs[..i + 1], key) ==
      FirstByKey(xs[..i], key) + (if key(xs[i]) != "" && key(xs[i]) !in seen then [xs[i]] else [])
  {
    assert xs[..i + 1][..i] == xs[..i];
    var p := xs[..i + 1];
    if key(xs[i]) != "" && key(xs[i]) !in seen {
      assert IsFirst(p, key, i);
    } else if key(xs[i]) != "" {
      var j :| 0 <= j < i && key(xs[j]) == key(xs[i]);
      assert key(p[j]) == key(p[i]);
    }
  }

  /** The same step after projecting each kept record with `f`. */
  lemma ProjectStep<U>(xs: seq<WaterLevel>, key: WaterLevel -> string, f: WaterLevel -> U, i: nat, seen: set<string>)
    requires i < |xs|
    requires forall n :: n in seen <==> n != "" && exists j :: 0 <= j < i && key(xs[j]) == n
    ensures Project(FirstByKey(xs[..i + 1], key), f) ==
      Project(FirstByKey(xs[..i], key), f) + (if key(xs[i]) != "" && key(xs[i]) !in seen then [f(xs[i])] else [])
  {
    FirstByKeyStep(xs, key, i, seen);
    var a := FirstByKey(xs[..i], key);
    if key(xs[i]) != "" && key(xs[i]) !in seen {
      assert (a + [xs[i]])[..|a|] == a;
    } else {
      assert a + [] == a;
    }
  }

  method GaugingStations(levels: seq<WaterLevel>) returns (stations: seq<Station>)
    ensures stations == StationsOf(levels)
  {
    if levels == [] {
      return [];
    }
    stations := [];
    var seen: set<string> := {};
    for i := 0 to |levels|
      invariant stations == StationsOf(levels[..i])
      invariant forall n :: n in seen <==> n != "" && exists j :: 0 <= j < i && levels[j].stationName == n
    {
      ProjectStep(levels, StationKey, StationOf, i, seen);
      var name := levels[i].stationName;
      if name != "" && name !in seen {
        seen := seen + {name};
        stations := stations + [StationOf(levels[i])];
      }
    }
    assert levels[..|levels|] == levels;
  }

  /** `get_gauging_stations` lists named entries only, each name once, and every name the feed carries. */
  lemma StationsOfShape(levels: seq<WaterLevel>)
    ensures levels == [] ==> StationsOf(levels) == []
    ensures forall k :: 0 <= k < |StationsOf(levels)| ==> StationsOf(levels)[k].name != ""
    ensures forall k, l :: 0 <= k < l < |StationsOf(levels)| ==> StationsOf(levels)[k].name != StationsOf(levels)[l].name
    ensures forall i :: 0 <= i < |levels| && levels[i].stationName != "" ==>
      exists k :: 0 <= k < |StationsOf(levels)| && StationsOf(levels)[k].name == levels[i].stationName
  {
    var stations := StationsOf(levels);
    var firsts := FirstByKey(levels, StationKey);
    FirstByKeyDistinct(levels, StationKey);
    forall k | 0 <= k < |stations| ensures stations[k].name != "" {
      ProjectAt(firsts, StationOf, k);
      assert stations[k].name == StationKey(firsts[k]);
    }
    forall k, l | 0 <= k < l < |stations| ensures stations[k].name != stations[l].name {
      ProjectAt(firsts, StationOf, k);
      ProjectAt(firsts, StationOf, l);
      assert stations[k].name == StationKey(firsts[k]) && stations[l].name == StationKey(firsts[l]);
      assert StationKey(firsts[k]) != StationKey(firsts[l]);
    }
    forall i | 0 <= i < |levels| && levels[i].stationName != ""
      ensures exists k :: 0 <= k < |stations| && stations[k].name == levels[i].stationName
    {
      FirstByKeyComplete(levels, StationKey, i);
      var k :| 0 <= k < |firsts| && StationKey(firsts[k]) == levels[i].stationName;
      ProjectAt(firsts, StationOf, k);
      assert stations[k].name == levels[i].stationName;
    }
  }

  method Rivers(levels: seq<WaterLevel>) returns (rivers: seq<River>)
    ensures rivers == RiversOf(levels)
  {
    if levels == [] {
      return [];
    }
    rivers := [];
    var seen: set<string> := {};  // the keys of the source's `rivers` dict
    for i := 0 to |levels|
      invariant rivers == RiversOf(levels[..i])
      invariant forall n :: n in seen <==> n != "" && exists j :: 0 <= j < i && levels[j].riverName == n
    {
      ProjectStep(levels, RiverKey, RiverOf, i, seen);
      var riverName := levels[i].riverName;
      if riverName != "" && riverName !in seen {
        seen := seen + {riverName};
        rivers := rivers + [RiverOf(levels[i])];
      }
    }
    assert levels[..|levels|] == levels;
  }

  /** `get_rivers` lists named entries only, each name once, and every name the feed carries. */
  lemma RiversOfShape(levels: seq<WaterLevel>)
    ensures levels == [] ==> RiversOf(levels) == []
    ensures forall k :: 0 <= k < |RiversOf(levels)| ==> RiversOf(levels)[k].name != ""
    ensures forall k, l :: 0 <= k < l < |RiversOf(levels)| ==> RiversOf(levels)[k].name != RiversOf(levels)[l].name
    ensures forall i :: 0 <= i < |levels| && levels[i].riverName != "" ==>
      exists k :: 0 <= k < |RiversOf(levels)| && RiversOf(levels)[k].name == levels[i].riverName
  {
    var rivers := RiversOf(levels);
    var firsts := FirstByKey(levels, RiverKey);
    FirstByKeyDistinct(levels, RiverKey);
    forall k | 0 <= k < |rivers| ensures rivers[k].name != "" {
      ProjectAt(firsts, RiverOf, k);
      assert rivers[k].name == RiverKey(firsts[k]);
    }
    forall k, l | 0 <= k < l < |rivers| ensures rivers[k].name != rivers[l].name {
      ProjectAt(firsts, RiverOf, k);
      ProjectAt(firsts, RiverOf, l);
      assert rivers[k].name == RiverKey(firsts[k]) && rivers[l].name == RiverKey(firsts[l]);
      assert RiverKey(firsts[k]) != RiverKey(firsts[l]);
    }
    forall i | 0 <= i < |levels| && levels[i].riverName != ""
      ensures exists k :: 0 <= k < |rivers| && rivers[k].name == levels[i].riverName
    {
      FirstByKeyComplete(levels, RiverKey, i);
      var k :| 0 <= k < |firsts| && RiverKey(firsts[k]) == levels[i].riverName;
      ProjectAt(firsts, RiverOf, k);
      assert rivers[k].name == levels[i].riverName;
    }
  }

  method RiverBasins(levels: seq<WaterLevel>) returns (basins: seq<Basin>)
    ensures basins == BasinsOf(levels)
  {
    if levels == [] {
      return [];
    }
    basins := [];
    var seen: set<string> := {};  // the keys of the source's `basins` dict
    for i := 0 to |levels|
      invariant basins == BasinsOf(levels[..i])
      invariant forall n :: n in seen <==> n != "" && exists j :: 0 <= j < i && levels[j].riverBasinName == n
    {
      ProjectStep(levels, BasinKey, BasinOf, i, seen);
      var basinName := levels[i].riverBasinName;
      if basinName != "" && basinName !in seen {
        seen := seen + {basinName};
        basins := basins + [BasinOf(levels[i])];
      }
    }
    assert levels[..|levels|] == levels;
  }

  /** `get_river_basins` lists named entries only, each name once, and every name the feed carries. */
  lemma BasinsOfShape(levels: seq<WaterLevel>)
    ensures levels == [] ==> BasinsOf(levels) == []
    ensures forall k :: 0 <= k < |BasinsOf(levels)| ==> BasinsOf(levels)[k].name != ""
    ensures forall k, l :: 0 <= k < l < |BasinsOf(levels)| ==> BasinsOf(levels)[k].name != BasinsOf(levels)[l].name
    ensures forall i :: 0 <= i < |levels| && levels[i].riverBasinName != "" ==>
      exists k :: 0 <= k < |BasinsOf(levels)| && BasinsOf(levels)[k].name == levels[i].riverBasinName
  {
    var basins := BasinsOf(levels);
    var firsts := FirstByKey(levels, BasinKey);
    FirstByKeyDistinct(levels, BasinKey);
    forall k | 0 <= k < |basins| ensures basins[k].name != "" {
      ProjectAt(firsts, BasinOf, k);
      assert basins[k].name == BasinKey(firsts[k]);
    }
    forall k, l | 0 <= k < l < |basins| ensures basins[k].name != basins[l].name {
      ProjectAt(firsts, BasinOf, k);
      ProjectAt(firsts, BasinOf, l);
      assert basins[k].name == BasinKey(firsts[k]) && basins[l].name == BasinKey(firsts[l]);
      assert BasinKey(firsts[k]) != BasinKey(firsts[l]);
    }
    forall i | 0 <= i < |levels| && levels[i].riverBasinName != ""
      ensures exists k :: 0 <= k < |basins| && basins[k].name == levels[i].riverBasinName
    {
      FirstByKeyComplete(levels, BasinKey, i);
      var k :| 0 <= k < |firsts| && BasinKey(firsts[k]) == levels[i].riverBasinName;
      ProjectAt(firsts, BasinOf, k);
      assert basins[k].name == levels[i].riverBasinName;
    }
  }

  /** Every listed station carries the attributes of the first record with its name. */
  lemma StationsTakeFirstRecord(levels: seq<WaterLevel>, k: nat)
    requires k < |StationsOf(levels)|
    ensures exists f :: 0 <= f < |levels| && IsFirst(levels, StationKey, f) && StationsOf(levels)[k] == StationOf(levels[f])
  {
    FirstByKeyPositions(levels, StationKey);
    var idx := FirstIndices(levels, StationKey);
    assert idx[k] in idx;
    ProjectAt(FirstByKey(levels, StationKey), StationOf, k);
  }

  /** Every listed river carries the basin name of the first record with its river name. */
  lemma RiversTakeFirstRecord(levels: seq<WaterLevel>, k: nat)
    requires k < |RiversOf(levels)|
    ensures exists f :: 0 <= f < |levels| && IsFirst(levels, RiverKey, f) && RiversOf(levels)[k] == RiverOf(levels[f])
  {
    FirstByKeyPositions(levels, RiverKey);
    var idx := FirstIndices(levels, RiverKey);
    assert idx[k] in idx;
    ProjectAt(FirstByKey(levels, RiverKey), RiverOf, k);
  }

  /** Every listed basin is built, code included, from the first record with its basin name. */
  lemma BasinsTakeFirstRecord(levels: seq<WaterLevel>, k: nat)
    requires k < |BasinsOf(levels)|
    ensures exists f :: 0 <= f < |levels| && IsFirst(levels, BasinKey, f) && BasinsOf(levels)[k] == BasinOf(levels[f])
  {
    FirstByKeyPositions(levels, BasinKey);
    var idx := FirstIndices(levels, BasinKey);
    assert idx[k] in idx;
    ProjectAt(FirstByKey(levels, BasinKey), BasinOf, k);
  }

  const BasinMarker := "(RB "

  /**
   * `name.split("(RB ")[1].rstrip(")")` when the marker occurs in `name`,
   * otherwise "": the text between the first marker and the next one (or the
   * end), without trailing ')'.
   */
  function BasinCode(name: string): (code: string)
  {
    match Find(name, BasinMarker, 0)
    case None => ""
    case Some(i) =>
      var start := i + |BasinMarker|;
      var end := match Find(name, BasinMarker, start) case None => |name| case Some(j) => j;
      RStrip(name[start..end], ')')
  }

  /** Without the marker the code is empty, and a code never ends in ')'. */
  lemma BasinCodeShape(name: string)
    ensures !Contains(name, BasinMarker) ==> BasinCode(name) == ""
    ensures BasinCode(name) == [] || BasinCode(name)[|BasinCode(name)| - 1] != ')'
  {
  }

  ghost predicate NoMarker(s: string) {
    forall j :: !OccursAt(s, BasinMarker, j)
  }

  /**
   * Round trip: a basin named `prefix + "(RB " + code + ")"` yields `code`,
   * provided neither part contains the marker and `code` does not end in ')'.
   */
  lemma BasinCodeRoundTrip(prefix: string, code: string)
    requires NoMarker(prefix) && NoMarker(code)
    requires code == [] || code[|code| - 1] != ')'
    ensures BasinCode(prefix + BasinMarker + code + ")") == code
  {
    var tail := BasinMarker + code + ")";
    var name := prefix + tail;
    assert name == prefix + BasinMarker + code + ")";
    var b := |prefix|;
    MarkerFirstAt(prefix, tail);
    assert name[b + 4..] == code + ")";
    NoMarkerBeforeClosing(name, b + 4, code);
    assert name[b + 4..|name|] == code + ")";
    assert (code + ")")[..|code|] == code;
  }

  /** The marker cannot straddle a marker-free prefix and a following marker. */
  lemma MarkerFirstAt(prefix: string, tail: string)
    requires NoMarker(prefix)
    requires |tail| >= 4 && tail[..4] == BasinMarker
    ensures Find(prefix + tail, BasinMarker, 0) == Some(|prefix|)
  {
    var name := prefix + tail;
    var b := |prefix|;
    assert name[b..b + 4] == tail[..4];
    assert OccursAt(name, BasinMarker, b);
    forall j | 0 <= j < b ensures !OccursAt(name, BasinMarker, j) {
      if j + 4 <= b {
        assert name[j..j + 4] == prefix[j..j + 4];
        assert !OccursAt(prefix, BasinMarker, j);
      } else if j + 4 <= |name| {
        // The window starting at j holds the marker's '(' at offset b - j > 0.
        assert name[j..j + 4][b - j] == tail[0] == '(';
        assert BasinMarker[b - j] != '(';
      }
    }
  }

  /** No marker starts inside `code + ")"` when `code` has none. */
  lemma NoMarkerBeforeClosing(name: string, from: nat, code: string)
    requires from <= |name| && name[from..] == code + ")"
    requires NoMarker(code)
    ensures Find(name, BasinMarker, from) == None
  {
    forall j | from <= j ensures !OccursAt(name, BasinMarker, j) {
      if j + 4 <= from + |code| {
        assert name[j..j + 4] == code[j - from..j - from + 4];
        assert !OccursAt(code, BasinMarker, j - from);
      } else if j + 4 == |name| {
        // The window ends with the closing ')', the marker with ' '.
        assert name[j..j + 4][3] == name[|name| - 1] == ')';
      }
    }
  }
}
