# lk_flood_api data service, modelled in Dafny

This project models the data layer of the Sri Lanka flood-monitoring API
(`lk_flood_api`) and the alert routes built on it. The data layer:

- picks the newest parsed water-level file from the `nuuuwan/dmc_gov_lk_2024`
  repository listing;
- merges its readings with the static station list, joining on a normalised
  station name;
- classifies each reading as MAJOR / MINOR / ALERT / NORMAL / NO_DATA and
  computes a flood score;
- derives the station, river and river-basin lists;
- answers case-insensitive lookups;
- caches the file name, the static and derived station lists and every
  non-empty set of water levels for 15 minutes; the lookups by name are not
  cached themselves.

The alert routes filter the active alerts and sort them by severity, and they
summarise the stations by alert level.

| file | module | models |
|---|---|---|
| wrappers.dfy | `Wrappers` | `Option`; `dict.get(k, default)` as `GetOr` |
| text.dfy | `Text` | the Python string operations used: ASCII `lower`, `replace(c, "")`, `in`, `endswith`, `rstrip`, string `<=` |
| records.dfy | `Records` | the dictionaries: feed item, static station, merged record, station, river, basin |
| alert_calc.dfy | `AlertCalc` | `calculate_alert_status`, `calculate_flood_score`, the `AlertLevel` enum |
| station_names.dfy | `StationNames` | `STATION_NAME_MAP`, `normalize_station_name` |
| latest_file.dfy | `LatestFile` | choosing the latest `.json` file name |
| dedup.dfy | `Dedup` | "first record per non-empty key, in input order", shared by the three list builders |
| extractors.dfy | `Extractors` | the bodies of `get_gauging_stations`, `get_rivers`, `get_river_basins`, and the basin code |
| lookups.dfy | `Lookups` | the scan shared by the three `get_*_by_name` functions |
| merge.dfy | `Merge` | the two loops of `get_latest_water_levels`: the coordinate table and the transform |
| data_service.dfy | `DataService` | the TTL cache, the `cached` decorator and every cached getter, as class `Service` |
| alert_routes.dfy | `AlertRoutes` | `get_active_alerts`, `get_alert_summary` |

The network is a value of type `DataService.Upstream`. It holds what GitHub
answers at the moment of a call:

- the directory listing (`None` on an HTTP error);
- the items of a level file (`[]` for an error, `null` or an empty list, which
  the code treats alike);
- the static station list;
- the local-time formatter used by `datetime.fromtimestamp(...).strftime(...)`.

The clock is the parameter `now`, in seconds.

Each getter's result and new cache are stated as ghost functions of the old
cache (`LevelsFrom`/`AfterLevels`, `StationsFrom`/`AfterStations`, ...). The
lemmas at the end of data_service.dfy prove what the cache does to the answers.

Python's `list.sort` is a library call, so it is modelled by its
specification:

- the latest file name is the lexicographic maximum of the `.json` names
  (`LatestFile.IsLatest`);
- the alert ordering is the stable sort by severity key. It is written as the
  records of key 0, 1, 2 and 99 in turn (`AlertRoutes.Grouped`). This is proved
  to be sorted, to be a permutation, and to keep each key's records in input
  order, which are the defining properties of a stable sort.

When records are merged, a missing threshold becomes 0, so the infinite
defaults of `calculate_alert_status` are never used by the service
(`Merge.MissingThresholdsGiveMajor`). The alert status comes only from the
numeric thresholds.

Station names are joined through `normalize_station_name`, which looks the
name up in `STATION_NAME_MAP` before lower-casing it. The lookup is therefore
case-sensitive: "Nagalagam Street" joins the static entry "N' Street", but
"nagalagam street" does not (`StationNames.AliasLookupIsCaseSensitive`).
Normalisation ignores case only for names that are not alias keys
(`StationNames.NormalizeIgnoresCase`).

## Model

| member | source | states |
|---|---|---|
| `AlertCalc.CalculateAlertStatus` | app/services/github_data.py:265-280 | the status is NO_DATA exactly when there is no reading |
| `AlertCalc.StatusIsMostSevereCrossed` | app/services/github_data.py:273-280 | the status is the most severe level whose threshold the reading reaches, checked MAJOR, then MINOR, then ALERT |
| `AlertCalc.AbsentThresholdNeverReached` | app/services/github_data.py:269-271 | an absent threshold (default infinity) is never reached |
| `AlertCalc.StatusMonotone` | app/services/github_data.py:273-280 | with ordered thresholds, a higher reading never gets a less severe status |
| `AlertCalc.ZeroThresholdsGiveMajor` | app/services/github_data.py:269-274 | with all thresholds 0, every non-negative reading is MAJOR |
| `AlertCalc.CalculateFloodScore` | app/services/github_data.py:283-294 | no score without a reading or when major <= alert (missing thresholds read as 0); otherwise score × (major − alert) = reading − alert |
| `AlertCalc.FloodScoreAnchors` | app/services/github_data.py:293-294 | the score is 0 at the alert level and 1 at the major level |
| `AlertCalc.FloodScoreStrictlyIncreasing` | app/services/github_data.py:294 | a higher reading gives a strictly higher score |
| `AlertCalc.FloodScoreAgreesWithStatus` | app/services/github_data.py:265-294 | score >= 1 iff the status is MAJOR; score >= 0 iff the status is at least ALERT |
| `Text.LowerChar` | app/services/github_data.py:244 | an upper-case ASCII letter becomes its lower-case partner (same offset from 'a' as from 'A'); every other character is unchanged |
| `Text.LowerOfLowercase` | app/services/github_data.py:244 | lower-casing a string with no upper-case letter changes nothing |
| `Text.RemoveMembers` | app/services/github_data.py:114 | `replace(c, "")` keeps exactly the characters other than c |
| `Text.RemoveAbsent` | app/services/github_data.py:114 | removing a character that does not occur changes nothing |
| `Text.Find` | app/services/github_data.py:148 | the first occurrence of the pattern at or after the start, or none at all |
| `Text.RStrip` | app/services/github_data.py:149 | the result is a prefix, does not end in c, and only c's were stripped |
| `Text.LexLeTotal` | app/services/github_data.py:52 | string order is total |
| `Text.LexLeAntisymmetric` | app/services/github_data.py:52 | string order is antisymmetric |
| `Text.LexLeTransitive` | app/services/github_data.py:52 | string order is transitive |
| `StationNames.Alias` | app/services/github_data.py:113 | `STATION_NAME_MAP.get(name, name)`; its properties are `AliasTargetsAreNotKeys`, `FoldedIsNotAliasKey` and `AliasesAgree` |
| `StationNames.Normalize` | app/services/github_data.py:110-114 | the join key: alias lookup, then lower-case and delete `'`, space, `(`, `)`; its properties are `NormalizeIsFolded`, `NormalizeIdempotent`, `NormalizeIgnoresCase`, `NormalizeIgnoresStrippedChar` and `AliasLookupIsCaseSensitive` |
| `StationNames.FoldIsFolded` | app/services/github_data.py:110-114 | a folded name has no upper-case letter, apostrophe, space or parenthesis |
| `StationNames.NormalizeIsFolded` | app/services/github_data.py:110-114 | the same for every normalised name |
| `StationNames.FoldOfFolded` | app/services/github_data.py:114 | folding a folded name changes nothing |
| `StationNames.FoldedIsNotAliasKey` | app/services/github_data.py:94-107 | no folded name is an alias key |
| `StationNames.NormalizeIdempotent` | app/services/github_data.py:110-114 | normalising twice equals normalising once |
| `StationNames.AliasTargetsAreNotKeys` | app/services/github_data.py:94-107 | no alias target is itself an alias key |
| `StationNames.AliasesAgree` | app/services/github_data.py:94-114 | a live-feed spelling and its static-list spelling normalise to the same key |
| `StationNames.NormalizeIgnoresCase` | app/services/github_data.py:110-114 | for non-alias names, normalisation ignores letter case |
| `StationNames.AliasLookupIsCaseSensitive` | app/services/github_data.py:94-114 | a lower-case two-word spelling of an alias key is not itself a key, and normalises differently from the key when it is longer than the key's alias target |
| `StationNames.NagalagamStreetIsCaseSensitive` | app/services/github_data.py:95 | "nagalagam street" is such a spelling of the alias key "Nagalagam Street" |
| `StationNames.NagalagamStreetLowered` | app/services/github_data.py:95 | "nagalagam street" is `Lower("Nagalagam Street")` |
| `StationNames.NagalagamStreetMissesItsAlias` | app/services/github_data.py:94-114 | "nagalagam street" and "Nagalagam Street" normalise to different keys |
| `StationNames.FoldIgnoresStrippedChar` | app/services/github_data.py:114 | deleting an apostrophe, space or parenthesis first does not change the folded name |
| `StationNames.NormalizeIgnoresStrippedChar` | app/services/github_data.py:110-114 | the same for normalisation of non-alias names |
| `LatestFile.LatestIsUnique` | app/services/github_data.py:48-53 | at most one answer meets the latest-file specification |
| `LatestFile.SelectLatest` | app/services/github_data.py:48-53 | the answer is a `.json` name of the listing that is >= every `.json` name, or none exactly when no name ends in `.json` |
| `Dedup.FirstByKeyPositions` | app/services/github_data.py:67-72 | the kept elements are exactly the first occurrences of each non-empty key, in input order |
| `Dedup.FirstByKeyDistinct` | app/services/github_data.py:67-72 | kept keys are non-empty and pairwise distinct |
| `Dedup.FirstByKeyComplete` | app/services/github_data.py:67-72 | every non-empty key of the input is kept, taken from its first record |
| `Extractors.GaugingStations` | app/services/github_data.py:58-82 | the loop's result is the first-seen projection `StationsOf` of the records |
| `Extractors.StationsOfShape` | app/services/github_data.py:58-82 | no stations for no records; every station named; names pairwise distinct; every named record's station listed |
| `Extractors.Rivers` | app/services/github_data.py:117-132 | the loop's result is the first-seen projection `RiversOf` of the records |
| `Extractors.RiversOfShape` | app/services/github_data.py:117-132 | no rivers for no records; every river named; names pairwise distinct; every named river of the records listed |
| `Extractors.RiverBasins` | app/services/github_data.py:135-154 | the loop's result is the first-seen projection `BasinsOf` of the records, each basin with its code |
| `Extractors.BasinsOfShape` | app/services/github_data.py:135-154 | no basins for no records; every basin named; names pairwise distinct; every named basin of the records listed |
| `Extractors.StationsTakeFirstRecord` | app/services/github_data.py:69-81 | each station is built from the first record with its name |
| `Extractors.RiversTakeFirstRecord` | app/services/github_data.py:125-131 | each river, basin name included, is built from the first record with its river name |
| `Extractors.BasinsTakeFirstRecord` | app/services/github_data.py:143-153 | each basin, code included, is built from the first record with its basin name |
| `Extractors.BasinCode` | app/services/github_data.py:146-149 | `name.split("(RB ")[1].rstrip(")")` when the marker occurs, else ""; its properties are `BasinCodeShape` and `BasinCodeRoundTrip` |
| `Extractors.BasinCodeShape` | app/services/github_data.py:146-149 | the code is empty without "(RB ", and never ends in ")" |
| `Extractors.BasinCodeRoundTrip` | app/services/github_data.py:146-149 | for a name "prefix(RB code)" with no marker in prefix and no ")" in code, the code comes back |
| `Lookups.FindByName` | app/services/github_data.py:241-262 | none iff no name equals the query ignoring case; otherwise the first match |
| `Merge.LastWriteWins` | app/services/github_data.py:173-176 | a key is in the coordinate table iff some entry wrote it, and the last write wins |
| `Merge.StationCoords` | app/services/github_data.py:172-176 | the loop builds exactly that table |
| `Merge.TransformItems` | app/services/github_data.py:179-235 | one merged record per item, in order, each computed as the loop body does |
| `Merge.MergeItem` | app/services/github_data.py:179-235 | the record the loop body appends for one item; its properties are `MergedCoordinates`, `AliasJoins`, `MissingThresholdsGiveMajor` and `RisingMinorScenario` |
| `Merge.Trend` | app/services/github_data.py:211-217 | `remarks_rising`, else Rising/Falling from two truthy readings; its properties are `TrendCases` and `TrendSwap` |
| `Merge.Timestamp` | app/services/github_data.py:205-209 | `ut_water_level_2 or ut`, formatted when truthy, else "" |
| `Merge.Transform` | app/services/github_data.py:171-235 | the merge is the per-item merge over the table; the same length as the feed; raw station names kept |
| `Merge.MergedCoordinates` | app/services/github_data.py:186-187 | coordinates come from the last static entry with the same normalised name, or [0, 0] |
| `Merge.AliasJoins` | app/services/github_data.py:94-114 | an aliased feed name finds the static entry spelled the other way |
| `Merge.MissingThresholdsGiveMajor` | app/services/github_data.py:190-203 | an item without thresholds gets 0 for each: any reading >= 0 is MAJOR, with no score |
| `Merge.TrendCases` | app/services/github_data.py:211-217 | a given trend text wins; otherwise Rising/Falling only for two truthy, different readings |
| `Merge.TrendSwap` | app/services/github_data.py:213-217 | exchanging the readings exchanges Rising and Falling |
| `Merge.RisingMinorScenario` | app/services/github_data.py:179-235 | reading 2.5, previous 2.0 and thresholds 1.5/2.0/3.0 give MINOR, score 2/3, Rising |
| `DataService.Service.LatestWaterLevelFilename` | app/services/github_data.py:13-24 | a live entry is served; otherwise the latest `.json` name (none on an HTTP error) is served and stored, none included |
| `DataService.Service.StationsStatic` | app/services/github_data.py:85-89 | a live entry is served; otherwise the station file is served and stored |
| `DataService.Service.LatestWaterLevels` | app/services/github_data.py:157-238 | a live entry is served; otherwise the merge of the resolved file, or [] when there is no file name or no data; only a merge is stored |
| `DataService.Service.GaugingStations` | app/services/github_data.py:58-82 | a live entry is served; otherwise the stations of the levels, stored even when empty |
| `DataService.Service.Rivers` | app/services/github_data.py:117-132 | a live entry is served; otherwise the rivers of the levels, stored even when empty |
| `DataService.Service.RiverBasins` | app/services/github_data.py:135-154 | a live entry is served; otherwise the basins of the levels, stored even when empty |
| `DataService.Service.StationByName` | app/services/github_data.py:241-246 | the first cached station whose name matches ignoring case, or none iff no station matches |
| `DataService.Service.RiverByName` | app/services/github_data.py:249-254 | the same over the rivers |
| `DataService.Service.BasinByName` | app/services/github_data.py:257-262 | the same over the basins |
| `DataService.EntryLiveWindow` | app/services/github_data.py:10 | an entry stored at t0 answers exactly while now − t0 < 900 |
| `DataService.FileServedUnique` | app/services/github_data.py:38-55 | the file name served on a miss is determined by the listing |
| `DataService.LevelsStoredIffNonEmpty` | app/services/github_data.py:163-169 | on a miss the levels are stored iff the answer is non-empty, so failures are retried |
| `DataService.LevelsStaleWithinTtl` | app/services/github_data.py:159-161 | stored levels are served unchanged for 900 seconds whatever GitHub answers |
| `DataService.ListingErrorBlanksLevels` | app/services/github_data.py:38-55 | a failed listing is cached as "no file", so the levels stay empty for 900 seconds |
| `DataService.EmptyStationsPinned` | app/services/github_data.py:58-64 | after a failed fetch, an empty station list is served for 900 seconds |
| `AlertRoutes.ActiveAlerts` | app/routes/alerts.py:12-37 | the response is the stable severity sort of the ALERT, MINOR and MAJOR records |
| `AlertRoutes.ActiveOf` | app/routes/alerts.py:14-31 | the records whose status is ALERT, MINOR or MAJOR, in feed order, no more of them than records; `ActiveAlertsContents` states membership |
| `AlertRoutes.SortBySeverity` | app/routes/alerts.py:33-35 | the stable sort by severity key (MAJOR 0, MINOR 1, ALERT 2, other 99); `GroupedIsStableSort` proves it sorted, a permutation and order-keeping within each key |
| `AlertRoutes.GetActiveAlerts` | app/routes/alerts.py:8-37 | the handler applies that to the levels the service serves |
| `AlertRoutes.ActiveAlertsContents` | app/routes/alerts.py:14-35 | exactly the active records, as many, MAJOR before MINOR before ALERT, equal severities in feed order |
| `AlertRoutes.GroupedIsStableSort` | app/routes/alerts.py:33-35 | the grouping is sorted by key, a permutation, and keeps each key's order |
| `AlertRoutes.AlertSummaryOf` | app/routes/alerts.py:45-67 | the summary is the five buckets, filled in feed order, with empty buckets dropped |
| `AlertRoutes.GetAlertSummary` | app/routes/alerts.py:40-67 | the handler applies that to the levels the service serves |
| `AlertRoutes.SummaryShape` | app/routes/alerts.py:53-66 | each entry's count is its non-empty list of station names with that status, in feed order; entries run MAJOR, MINOR, ALERT, NORMAL, NO_DATA; a level appears iff a record has it |
| `AlertRoutes.SummaryCountsKnownRecords` | app/routes/alerts.py:53-57 | the counts add up to the number of records whose status is one of the five |

## Left out

- Network access (`httpx`, `fetch_json`), JSON decoding and HTTP errors are not modelled. They become the `Upstream` value, and an HTTP error, `null` and an empty list all become the same empty answer, as the code's `if not data` treats them.
- JSON `null` versus a missing key is not distinguished: both read as absent (`None`). A `null` threshold, which would make the Python comparison raise, is treated like a missing one.
- `TTLCache`'s `maxsize=100` eviction is left out: the service uses six keys. The cache's timer is the parameter `now`, and an entry is live while `now < stored + 900`.
- Concurrency between overlapping `async` calls is left out: every call runs to completion before the next.
- Floating-point numbers are modelled as exact reals, so there is no rounding, NaN or infinity (an absent threshold stands for `float("inf")`).
- `str.lower` is modelled on ASCII letters only.
- Unix times (`ut_water_level_2`, `ut`) are whole seconds (`int`); a fractional unix time is not modelled. Only its truthiness and the `formatTime` parameter see it.
- `datetime.fromtimestamp(...).strftime(...)` is the `formatTime` parameter: the timezone and date format are not modelled.
- `list.sort` is modelled by its specification (the maximum for the file name, a stable sort by key for the alerts), not by Timsort.
- `get_active_alerts` copies each record into a `WaterLevelReading` response model; the model keeps the merged record itself, so only which records are returned and in what order is modelled.
- The `"NO_DATA"` default for a record without `alert_status` is not modelled: every merged record has one.
- Listing entries without a `"name"` key (a `KeyError` in Python) are not modelled: the listing is a sequence of names.
- The FastAPI routing, response models and the other route files are not part of this model.
