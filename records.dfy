/**
 * The dict shapes the service reads and builds in
 * app/services/github_data.py. Keys that an upstream record may lack are
 * `Option`s; the service supplies the default with `.get(key, default)`.
 */
module Records {
  import opened Wrappers

  /** One element of the upstream water-level file. */
  datatype Item = Item(
    station: Option<string>,
    waterLevel2: Option<real>,      // latest reading
    waterLevel1: Option<real>,      // previous reading
    alertLevel: Option<real>,
    minorFloodLevel: Option<real>,
    majorFloodLevel: Option<real>,
    utWaterLevel2: Option<int>,     // unix time of the latest reading
    ut: Option<int>,                // unix time of the file
    remarksRising: Option<string>,
    river: Option<string>,
    riverBasin: Option<string>,
    rainfall: Option<real>,
    remarks: Option<string>)

  /** One element of the static station file (`data-static/stations.json`). */
  datatype StaticStation = StaticStation(name: Option<string>, latLng: Option<seq<real>>)

  /** A merged record, as built by the transform loop of `get_latest_water_levels`. */
  datatype WaterLevel = WaterLevel(
    stationName: string,
    riverName: string,
    riverBasinName: string,
    latLng: seq<real>,
    waterLevel: Option<real>,
    previousWaterLevel: Option<real>,
    alertLevel: real,
    minorFloodLevel: real,
    majorFloodLevel: real,
    alertStatus: string,
    floodScore: Option<real>,
    risingOrFalling: string,
    rainfallMm: real,
    remarks: string,
    timestamp: string)

  /** A gauging station, as built by `get_gauging_stations`. */
  datatype Station = Station(
    name: string,
    riverName: string,
    riverBasinName: string,
    latLng: seq<real>,
    alertLevel: real,
    minorFloodLevel: real,
    majorFloodLevel: real)

  /** A river, as built by `get_rivers`. */
  datatype River = River(name: string, riverBasinName: string)

  /** A river basin, as built by `get_river_basins`. */
  datatype Basin = Basin(name: string, code: string)
}
