/**
 * The cached data service of app/services/github_data.py: the module-level
 * `TTLCache(maxsize=100, ttl=900)`, the `cached` decorator, and the cached
 * getters built on it. The network is an `Upstream` value (what GitHub answers
 * at the moment of the call) and the clock is the parameter `now`, in seconds.
 */
module DataService {
  import opened Wrappers
  import opened Text
  import opened Records
  import opened LatestFile
  import opened Merge
  import opened Lookups
  import Extractors

  /** Seconds an entry stays in the cache. */
  const TTL: int := 900

  const FileKey := "latest_water_level_file"
  const StaticsKey := "stations_static"
  const LevelsKey := "latest_water_levels"
  const StationsKey := "gauging_stations"
  const RiversKey := "rivers"
  const BasinsKey := "river_basins"

  datatype CacheValue =
    | FileName(name: Option<string>)
    | StaticList(statics: seq<StaticStation>)
    | LevelList(levels: seq<WaterLevel>)
    | StationList(stations: seq<Station>)
    | RiverList(rivers: seq<River>)
    | BasinList(basins: seq<Basin>)

  datatype Entry = Entry(value: CacheValue, storedAt: int)

  /**
   * What GitHub answers: the directory listing's file names (`None` on an HTTP
   * error), the items of a level file (`[]` on an HTTP error, `null` or an empty
   * list), the static station list (likewise), and the local-time formatter.
   */
  datatype Upstream = Upstream(
    listing: Option<seq<string>>,
    levelFile: string -> seq<Item>,
    stationsFile: seq<StaticStation>,
    formatTime: int -> string)

  /** `key in cache` for a TTL cache: the entry exists and has not expired. */
  predicate IsLive(c: map<string, Entry>, key: string, now: int) {
    key in c && now < c[key].storedAt + TTL
  }

  /** The cache after `cached` served `key`: unchanged on a hit, `v` stored on a miss. */
  function Touch(c: map<string, Entry>, key: string, v: CacheValue, now: int): map<string, Entry> {
    if IsLive(c, key, now) then c else c[key := Entry(v, now)]
  }

  /** Each key holds what its getter stores. */
  ghost predicate WellTyped(c: map<string, Entry>) {
    && (FileKey in c ==> c[FileKey].value.FileName?)
    && (StaticsKey in c ==> c[StaticsKey].value.StaticList?)
    && (LevelsKey in c ==> c[LevelsKey].value.LevelList?)
    && (StationsKey in c ==> c[StationsKey].value.StationList?)
    && (RiversKey in c ==> c[RiversKey].value.RiverList?)
    && (BasinsKey in c ==> c[BasinsKey].value.BasinList?)
  }

  /** The listing names `file` as the latest level file; an HTTP error names none. */
  ghost predicate ResolvesFile(listing: Option<seq<string>>, file: Option<string>) {
    if listing.None? then file.None? else IsLatest(listing.value, file)
  }

  /** `file` is what `get_latest_water_level_filename` returns on cache `c`. */
  ghost predicate FileServed(c: map<string, Entry>, up: Upstream, now: int, file: Option<string>)
    requires WellTyped(c)
  {
    if IsLive(c, FileKey, now) then file == c[FileKey].value.name else ResolvesFile(up.listing, file)
  }

  /** What `get_stations_static` returns on cache `c`. */
  ghost function StaticsFrom(c: map<string, Entry>, up: Upstream, now: int): seq<StaticStation>
    requires WellTyped(c)
  {
    if IsLive(c, StaticsKey, now) then c[StaticsKey].value.statics else up.stationsFile
  }

  /** The level file exists and has data: `if not filename` and `if not data` both pass. */
  predicate Fetches(up: Upstream, file: Option<string>) {
    file.Some? && file.value != "" && up.levelFile(file.value) != []
  }

  /** What `get_latest_water_levels` computes on a miss. */
  ghost function FreshLevels(c: map<string, Entry>, up: Upstream, now: int, file: Option<string>): seq<WaterLevel>
    requires WellTyped(c)
  {
    if Fetches(up, file) then Merged(StaticsFrom(c, up, now), up.levelFile(file.value), up.formatTime) else []
  }

  /** What `get_latest_water_levels` returns on cache `c`. */
  ghost function LevelsFrom(c: map<string, Entry>, up: Upstream, now: int, file: Option<string>): seq<WaterLevel>
    requires WellTyped(c)
  {
    if IsLive(c, LevelsKey, now) then c[LevelsKey].value.levels else FreshLevels(c, up, now, file)
  }

  /** The cache after `get_latest_water_levels`: an empty result is not stored. */
  ghost function AfterLevels(c: map<string, Entry>, up: Upstream, now: int, file: Option<string>): map<string, Entry>
    requires WellTyped(c)
  {
    if IsLive(c, LevelsKey, now) then c
    else
      var c1 := Touch(c, FileKey, FileName(file), now);
      if !Fetches(up, file) then c1
      else Touch(c1, StaticsKey, StaticList(StaticsFrom(c, up, now)), now)[LevelsKey := Entry(LevelList(FreshLevels(c, up, now, file)), now)]
  }

  ghost function StationsFrom(c: map<string, Entry>, up: Upstream, now: int, file: Option<string>): seq<Station>
    requires WellTyped(c)
  {
    if IsLive(c, StationsKey, now) then c[StationsKey].value.stations
    else Extractors.StationsOf(LevelsFrom(c, up, now, file))
  }

  /** The cache after `get_gauging_stations`: whatever it computed is stored, `[]` included. */
  ghost function AfterStations(c: map<string, Entry>, up: Upstream, now: int, file: Option<string>): map<string, Entry>
    requires WellTyped(c)
  {
    if IsLive(c, StationsKey, now) then c
    else AfterLevels(c, up, now, file)[StationsKey := Entry(StationList(StationsFrom(c, up, now, file)), now)]
  }

  ghost function RiversFrom(c: map<string, Entry>, up: Upstream, now: int, file: Option<string>): seq<River>
    requires WellTyped(c)
  {
    if IsLive(c, RiversKey, now) then c[RiversKey].value.rivers
    else Extractors.RiversOf(LevelsFrom(c, up, now, file))
  }

  ghost function AfterRivers(c: map<string, Entry>, up: Upstream, now: int, file: Option<string>): map<string, Entry>
    requires WellTyped(c)
  {
    if IsLive(c, RiversKey, now) then c
    else AfterLevels(c, up, now, file)[RiversKey := Entry(RiverList(RiversFrom(c, up, now, file)), now)]
  }

  ghost function BasinsFrom(c: map<string, Entry>, up: Upstream, now: int, file: Option<string>): seq<Basin>
    requires WellTyped(c)
  {
    if IsLive(c, BasinsKey, now) then c[BasinsKey].value.basins
    else Extractors.BasinsOf(LevelsFrom(c, up, now, file))
  }

  ghost function AfterBasins(c: map<string, Entry>, up: Upstream, now: int, file: Option<string>): map<string, Entry>
    requires WellTyped(c)
  {
    if IsLive(c, BasinsKey, now) then c
    else AfterLevels(c, up, now, file)[BasinsKey := Entry(BasinList(BasinsFrom(c, up, now, file)), now)]
  }

  function StationName(s: Station): string { s.name }
  function RiverName(r: River): string { r.name }
  function BasinName(b: Basin): string { b.name }

  class Service {
    var cache: map<string, Entry>

    ghost predicate Valid()
      reads this
    {
      WellTyped(cache)
    }

    constructor ()
      ensures Valid() && cache == map[]
    {
      cache := map[];
    }

    /** `get_latest_water_level_filename`: a `None` answer is cached like any other. */
    method LatestWaterLevelFilename(up: Upstream, now: int) returns (file: Option<string>)
      requires Valid()
      modifies this
      ensures Valid()
      ensures FileServed(old(cache), up, now, file)
      ensures cache == Touch(old(cache), FileKey, FileName(file), now)
    {
      if IsLive(cache, FileKey, now) {
        return cache[FileKey].value.name;
      }
      if up.listing.None? {
        file := None;
      } else {
        file := SelectLatest(up.listing.value);
      }
      cache := cache[FileKey := Entry(FileName(file), now)];
    }

    /** `get_stations_static`. */
    method StationsStatic(up: Upstream, now: int) returns (statics: seq<StaticStation>)
      requires Valid()
      modifies this
      ensures Valid()
      ensures statics == StaticsFrom(old(cache), up, now)
      ensures cache == Touch(old(cache), StaticsKey, StaticList(statics), now)
    {
      if IsLive(cache, StaticsKey, now) {
        return cache[StaticsKey].value.statics;
      }
      statics := up.stationsFile;
      cache := cache[StaticsKey := Entry(StaticList(statics), now)];
    }

    /**
     * `get_latest_water_levels`; `file` is the file name it resolved on a miss.
     * Only a non-empty result is stored.
     */
    method LatestWaterLevels(up: Upstream, now: int) returns (levels: seq<WaterLevel>, ghost file: Option<string>)
      requires Valid()
      modifies this
      ensures Valid()
      ensures !IsLive(old(cache), LevelsKey, now) ==> FileServed(old(cache), up, now, file)
      ensures levels == LevelsFrom(old(cache), up, now, file)
      ensures cache == AfterLevels(old(cache), up, now, file)
    {
      if IsLive(cache, LevelsKey, now) {
        levels := cache[LevelsKey].value.levels;
        file := None;
        return;
      }
      ghost var c0 := cache;
      var filename := LatestWaterLevelFilename(up, now);
      file := filename;
      if filename.None? || filename.value == "" {
        levels := [];
        return;
      }
      var data := up.levelFile(filename.value);
      if data == [] {
        levels := [];
        return;
      }
      assert StaticsFrom(cache, up, now) == StaticsFrom(c0, up, now);
      var staticStations := StationsStatic(up, now);
      levels := Transform(staticStations, data, up.formatTime);
      cache := cache[LevelsKey := Entry(LevelList(levels), now)];
    }

    /** `get_gauging_stations`. */
    method GaugingStations(up: Upstream, now: int) returns (stations: seq<Station>, ghost file: Option<string>)
      requires Valid()
      modifies this
      ensures Valid()
      ensures !IsLive(old(cache), StationsKey, now) && !IsLive(old(cache), LevelsKey, now) ==>
        FileServed(old(cache), up, now, file)
      ensures stations == StationsFrom(old(cache), up, now, file)
      ensures cache == AfterStations(old(cache), up, now, file)
    {
      if IsLive(cache, StationsKey, now) {
        stations := cache[StationsKey].value.stations;
        file := None;
        return;
      }
      var levels;
      levels, file := LatestWaterLevels(up, now);
      stations := Extractors.GaugingStations(levels);
      cache := cache[StationsKey := Entry(StationList(stations), now)];
    }

    /** `get_rivers`. */
    method Rivers(up: Upstream, now: int) returns (rivers: seq<River>, ghost file: Option<string>)
      requires Valid()
      modifies this
      ensures Valid()
      ensures !IsLive(old(cache), RiversKey, now) && !IsLive(old(cache), LevelsKey, now) ==>
        FileServed(old(cache), up, now, file)
      ensures rivers == RiversFrom(old(cache), up, now, file)
      ensures cache == AfterRivers(old(cache), up, now, file)
    {
      if IsLive(cache, RiversKey, now) {
        rivers := cache[RiversKey].value.rivers;
        file := None;
        return;
      }
      var levels;
      levels, file := LatestWaterLevels(up, now);
      rivers := Extractors.Rivers(levels);
      cache := cache[RiversKey := Entry(RiverList(rivers), now)];
    }

    /** `get_river_basins`. */
    method RiverBasins(up: Upstream, now: int) returns (basins: seq<Basin>, ghost file: Option<string>)
      requires Valid()
      modifies this
      ensures Valid()
      ensures !IsLive(old(cache), BasinsKey, now) && !IsLive(old(cache), LevelsKey, now) ==>
        FileServed(old(cache), up, now, file)
      ensures basins == BasinsFrom(old(cache), up, now, file)
      ensures cache == AfterBasins(old(cache), up, now, file)
    {
      if IsLive(cache, BasinsKey, now) {
        basins := cache[BasinsKey].value.basins;
        file := None;
        return;
      }
      var levels;
      levels, file := LatestWaterLevels(up, now);
      basins := Extractors.RiverBasins(levels);
      cache := cache[BasinsKey := Entry(BasinList(basins), now)];
    }

    /** `get_station_by_name`: the first cached station whose name matches ignoring case. */
    method StationByName(up: Upstream, now: int, name: string)
      returns (found: Option<Station>, ghost stations: seq<Station>, ghost file: Option<string>)
      requires Valid()
      modifies this
      ensures Valid()
      ensures !IsLive(old(cache), StationsKey, now) && !IsLive(old(cache), LevelsKey, now) ==>
        FileServed(old(cache), up, now, file)
      ensures stations == StationsFrom(old(cache), up, now, file)
      ensures cache == AfterStations(old(cache), up, now, file)
      ensures found.None? <==> forall i :: 0 <= i < |stations| ==> !EqualsIgnoreCase(stations[i].name, name)
      ensures found.Some? ==>
        exists i :: && 0 <= i < |stations| && stations[i] == found.value
                    && EqualsIgnoreCase(stations[i].name, name)
                    && forall j :: 0 <= j < i ==> !EqualsIgnoreCase(stations[j].name, name)
    {
      var all;
      all, file := GaugingStations(up, now);
      stations := all;
      found := FindByName(all, StationName, name);
    }

    /** `get_river_by_name`. */
    method RiverByName(up: Upstream, now: int, name: string)
      returns (found: Option<River>, ghost rivers: seq<River>, ghost file: Option<string>)
      requires Valid()
      modifies this
      ensures Valid()
      ensures !IsLive(old(cache), RiversKey, now) && !IsLive(old(cache), LevelsKey, now) ==>
        FileServed(old(cache), up, now, file)
      ensures rivers == RiversFrom(old(cache), up, now, file)
      ensures cache == AfterRivers(old(cache), up, now, file)
      ensures found.None? <==> forall i :: 0 <= i < |rivers| ==> !EqualsIgnoreCase(rivers[i].name, name)
      ensures found.Some? ==>
        exists i :: && 0 <= i < |rivers| && rivers[i] == found.value
                    && EqualsIgnoreCase(rivers[i].name, name)
                    && forall j :: 0 <= j < i ==> !EqualsIgnoreCase(rivers[j].name, name)
    {
      var all;
      all, file := Rivers(up, now);
      rivers := all;
      found := FindByName(all, RiverName, name);
    }

    /** `get_basin_by_name`. */
    method BasinByName(up: Upstream, now: int, name: string)
      returns (found: Option<Basin>, ghost basins: seq<Basin>, ghost file: Option<string>)
      requires Valid()
      modifies this
      ensures Valid()
      ensures !IsLive(old(cache), BasinsKey, now) && !IsLive(old(cache), LevelsKey, now) ==>
        FileServed(old(cache), up, now, file)
      ensures basins == BasinsFrom(old(cache), up, now, file)
      ensures cache == AfterBasins(old(cache), up, now, file)
      ensures found.None? <==> forall i :: 0 <= i < |basins| ==> !EqualsIgnoreCase(basins[i].name, name)
      ensures found.Some? ==>
        exists i :: && 0 <= i < |basins| && basins[i] == found.value
                    && EqualsIgnoreCase(basins[i].name, name)
                    && forall j :: 0 <= j < i ==> !EqualsIgnoreCase(basins[j].name, name)
    {
      var all;
      all, file := RiverBasins(up, now);
      basins := all;
      found := FindByName(all, BasinName, name);
    }
  }

  // ---------------------------------------------------------------------------
  // What the cache does to the answers

  /** An entry stored at `t0` answers exactly while `now < t0 + 900`. */
  lemma EntryLiveWindow(c: map<string, Entry>, key: string, v: CacheValue, t0: int, now: int)
    ensures IsLive(c[key := Entry(v, t0)], key, now) <==> now - t0 < 900
  {
  }

  /** The file name a miss resolves is determined by the listing. */
  lemma FileServedUnique(c: map<string, Entry>, up: Upstream, now: int, a: Option<string>, b: Option<string>)
    requires WellTyped(c)
    requires FileServed(c, up, now, a) && FileServed(c, up, now, b)
    ensures a == b
  {
    if !IsLive(c, FileKey, now) && up.listing.Some? {
      LatestIsUnique(up.listing.value, a, b);
    }
  }

  lemma AfterLevelsWellTyped(c: map<string, Entry>, up: Upstream, now: int, file: Option<string>)
    requires WellTyped(c)
    ensures WellTyped(AfterLevels(c, up, now, file))
  {
  }

  /**
   * On a miss, the water levels are stored exactly when the answer is
   * non-empty: a failed listing, a missing or empty file leaves the key absent,
   * so the next call tries again.
   */
  lemma LevelsStoredIffNonEmpty(c: map<string, Entry>, up: Upstream, now: int, file: Option<string>)
    requires WellTyped(c) && !IsLive(c, LevelsKey, now)
    ensures WellTyped(AfterLevels(c, up, now, file))
    ensures IsLive(AfterLevels(c, up, now, file), LevelsKey, now) <==> LevelsFrom(c, up, now, file) != []
  {
    AfterLevelsWellTyped(c, up, now, file);
    if Fetches(up, file) {
      var data := up.levelFile(file.value);
      assert |Merged(StaticsFrom(c, up, now), data, up.formatTime)| == |data| > 0;
    }
  }

  /**
   * Once stored, the water levels are served unchanged for 900 seconds, whatever
   * GitHub answers in the meantime.
   */
  lemma LevelsStaleWithinTtl(c: map<string, Entry>, up: Upstream, now: int, file: Option<string>,
                             up': Upstream, later: int, file': Option<string>)
    requires WellTyped(c) && !IsLive(c, LevelsKey, now)
    requires LevelsFrom(c, up, now, file) != []
    requires now <= later < now + TTL
    ensures WellTyped(AfterLevels(c, up, now, file))
    ensures LevelsFrom(AfterLevels(c, up, now, file), up', later, file') == LevelsFrom(c, up, now, file)
  {
    LevelsStoredIffNonEmpty(c, up, now, file);
  }

  /**
   * A failed directory listing is cached as "no file", so for the next 900
   * seconds the water levels come back empty even once GitHub answers again.
   */
  lemma ListingErrorBlanksLevels(c: map<string, Entry>, up: Upstream, now: int, file: Option<string>,
                                 up': Upstream, later: int, file': Option<string>)
    requires WellTyped(c) && !IsLive(c, FileKey, now) && !IsLive(c, LevelsKey, now)
    requires up.listing.None? && FileServed(c, up, now, file)
    requires now <= later < now + TTL
    ensures WellTyped(AfterLevels(c, up, now, file))
    ensures FileServed(AfterLevels(c, up, now, file), up', later, file') ==>
      LevelsFrom(AfterLevels(c, up, now, file), up', later, file') == []
  {
    AfterLevelsWellTyped(c, up, now, file);
  }

  /**
   * Unlike the water levels, an empty station list is cached: after a failed
   * fetch, `get_gauging_stations` answers `[]` for 900 seconds.
   */
  lemma EmptyStationsPinned(c: map<string, Entry>, up: Upstream, now: int, file: Option<string>,
                            up': Upstream, later: int, file': Option<string>)
    requires WellTyped(c) && !IsLive(c, StationsKey, now) && !IsLive(c, LevelsKey, now)
    requires !Fetches(up, file)
    requires now <= later < now + TTL
    ensures StationsFrom(c, up, now, file) == []
    ensures WellTyped(AfterStations(c, up, now, file))
    ensures StationsFrom(AfterStations(c, up, now, file), up', later, file') == []
  {
    AfterLevelsWellTyped(c, up, now, file);
  }
}
