/**
 * The scan shared by `get_station_by_name`, `get_river_by_name` and
 * `get_basin_by_name` (app/services/github_data.py): the first element whose
 * name equals the query ignoring case, or nothing.
 */
module Lookups {
  import opened Wrappers
  import opened Text

  method FindByName<T>(items: seq<T>, nameOf: T -> string, query: string) returns (found: Option<T>)
    ensures found.None? <==> forall i :: 0 <= i < |items| ==> !EqualsIgnoreCase(nameOf(items[i]), query)
    ensures found.Some? ==>
      exists i :: && 0 <= i < |items| && items[i] == found.value
                  && EqualsIgnoreCase(nameOf(items[i]), query)
                  && forall j :: 0 <= j < i ==> !EqualsIgnoreCase(nameOf(items[j]), query)
  {
    for i := 0 to |items|
      invariant forall j :: 0 <= j < i ==> !EqualsIgnoreCase(nameOf(items[j]), query)
    {
      if Lower(nameOf(items[i])) == Lower(query) {
        return Some(items[i]);
      }
    }
    return None;
  }
}
