/**
 * The pure part of `get_latest_water_level_filename`
 * (app/services/github_data.py): keep the listed names that end in ".json",
 * sort them in descending order and take the first. Only the first element of
 * the sorted list is used, so the sort is modelled by what it delivers there:
 * the lexicographic maximum.
 */
module LatestFile {
  import opened Wrappers
  import opened Text

  predicate IsJson(name: string) {
    EndsWith(name, ".json")
  }

  /** `latest` is what sorting the ".json" names descending and taking the first yields. */
  ghost predicate IsLatest(names: seq<string>, latest: Option<string>) {
    match latest
    case None => forall n :: n in names ==> !IsJson(n)
    case Some(m) =>
      && m in names && IsJson(m)
      && forall n :: n in names && IsJson(n) ==> LexLe(n, m)
  }

  /** At most one answer satisfies `IsLatest`: the selection is deterministic. */
  lemma LatestIsUnique(names: seq<string>, a: Option<string>, b: Option<string>)
    requires IsLatest(names, a) && IsLatest(names, b)
    ensures a == b
  {
    if a.Some? && b.Some? {
      LexLeAntisymmetric(a.value, b.value);
    }
  }

  method SelectLatest(names: seq<string>) returns (latest: Option<string>)
    ensures IsLatest(names, latest)
    ensures latest.None? <==> forall n :: n in names ==> !IsJson(n)
  {
    var jsonFiles: seq<string> := [];
    for i := 0 to |names|
      invariant forall n :: n in jsonFiles <==> n in names[..i] && IsJson(n)
    {
      if IsJson(names[i]) {
        jsonFiles := jsonFiles + [names[i]];
      }
      assert names[..i + 1] == names[..i] + [names[i]];
    }
    assert names[..|names|] == names;
    if jsonFiles == [] {
      return None;
    }
    var best := jsonFiles[0];
    LexLeReflexive(best);
    for j := 1 to |jsonFiles|
      invariant best in jsonFiles
      invariant forall k :: 0 <= k < j ==> LexLe(jsonFiles[k], best)
    {
      LexLeTotal(best, jsonFiles[j]);
      LexLeReflexive(jsonFiles[j]);
      if !LexLe(jsonFiles[j], best) {
        forall k | 0 <= k < j ensures LexLe(jsonFiles[k], jsonFiles[j]) {
          LexLeTransitive(jsonFiles[k], best, jsonFiles[j]);
        }
        best := jsonFiles[j];
      }
    }
    latest := Some(best);
  }
}
