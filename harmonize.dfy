/** The `harmonize` operation: renames the latitude and longitude dimensions of datasets
    to `lat` and `lon`, in place. A dataset is reduced to the set of its dimension names,
    and xarray's `rename` is a parameter. */
module Harmonize {
  import opened Wrappers

  /** The longitude candidates, in the order they are tried. */
  const LonNames: seq<string> := ["lon", "longitude", "long"]
  /** The latitude candidates, in the order they are tried. */
  const LatNames: seq<string> := ["lat", "latitude"]

  /** `_get_dim_name`: the first candidate that is a dimension of the dataset. */
  function GetDimName(dims: set<string>, possibleNames: seq<string>): (r: Option<string>)
    ensures r.Some? ==> r.value in dims && r.value in possibleNames
    decreases |possibleNames|
  {
    if possibleNames == [] then None
    else if possibleNames[0] in dims then Some(possibleNames[0])
    else GetDimName(dims, possibleNames[1..])
  }

  /** A candidate that is a dimension, with no earlier candidate that is one, is found. */
  lemma {:induction false} GetDimNameFirstMatch(dims: set<string>, possibleNames: seq<string>, i: nat)
    requires i < |possibleNames| && possibleNames[i] in dims
    requires forall j :: 0 <= j < i ==> possibleNames[j] !in dims
    ensures GetDimName(dims, possibleNames) == Some(possibleNames[i])
    decreases i
  {
    if i > 0 {
      assert possibleNames[0] !in dims;
      assert forall j :: 0 <= j < i - 1 ==> possibleNames[1..][j] == possibleNames[j + 1];
      GetDimNameFirstMatch(dims, possibleNames[1..], i - 1);
    }
  }

  /** What is found is a candidate that no earlier candidate beats. */
  lemma {:induction false} GetDimNameIsFirst(dims: set<string>, possibleNames: seq<string>)
    ensures var r := GetDimName(dims, possibleNames);
            r.Some? ==> exists i :: 0 <= i < |possibleNames| && possibleNames[i] == r.value &&
                                    forall j :: 0 <= j < i ==> possibleNames[j] !in dims
    decreases |possibleNames|
  {
    var r := GetDimName(dims, possibleNames);
    if possibleNames != [] && possibleNames[0] !in dims && r.Some? {
      GetDimNameIsFirst(dims, possibleNames[1..]);
      var k :| 0 <= k < |possibleNames[1..]| && possibleNames[1..][k] == r.value &&
               forall j :: 0 <= j < k ==> possibleNames[1..][j] !in dims;
      assert possibleNames[k + 1] == r.value;
      assert forall j :: 0 <= j < k + 1 ==> possibleNames[j] !in dims by {
        forall j | 0 <= j < k + 1
          ensures possibleNames[j] !in dims
        {
          if j > 0 {
            assert possibleNames[j] == possibleNames[1..][j - 1];
          }
        }
      }
    }
  }

  /** Nothing is found exactly when no candidate is a dimension. */
  lemma {:induction false} GetDimNameNone(dims: set<string>, possibleNames: seq<string>)
    ensures GetDimName(dims, possibleNames).None? <==> forall i :: 0 <= i < |possibleNames| ==> possibleNames[i] !in dims
    decreases |possibleNames|
  {
    if possibleNames != [] {
      GetDimNameNone(dims, possibleNames[1..]);
      assert forall i :: 1 <= i < |possibleNames| ==> possibleNames[1..][i - 1] == possibleNames[i];
    }
  }

  /** `_get_lon_dim_name`. */
  function GetLonDimName(dims: set<string>): (r: Option<string>)
    ensures r.Some? ==> r.value in dims && r.value in LonNames
  {
    GetDimName(dims, LonNames)
  }

  /** `_get_lat_dim_name`. */
  function GetLatDimName(dims: set<string>): (r: Option<string>)
    ensures r.Some? ==> r.value in dims && r.value in LatNames
  {
    GetDimName(dims, LatNames)
  }

  /** `lon` wins over `longitude`, which wins over `long`. */
  lemma LonPriority(dims: set<string>)
    ensures "lon" in dims ==> GetLonDimName(dims) == Some("lon")
    ensures "lon" !in dims && "longitude" in dims ==> GetLonDimName(dims) == Some("longitude")
    ensures "lon" !in dims && "longitude" !in dims && "long" in dims ==> GetLonDimName(dims) == Some("long")
    ensures GetLonDimName(dims).None? <==> "lon" !in dims && "longitude" !in dims && "long" !in dims
  {
    assert LonNames[1..] == ["longitude", "long"];
    assert LonNames[1..][1..] == ["long"];
    assert LonNames[1..][1..][1..] == [];
  }

  /** `lat` wins over `latitude`. */
  lemma LatPriority(dims: set<string>)
    ensures "lat" in dims ==> GetLatDimName(dims) == Some("lat")
    ensures "lat" !in dims && "latitude" in dims ==> GetLatDimName(dims) == Some("latitude")
    ensures GetLatDimName(dims).None? <==> "lat" !in dims && "latitude" !in dims
  {
    assert LatNames[1..] == ["latitude"];
    assert LatNames[1..][1..] == [];
  }

  /** A name map as xarray's `rename` takes it; a key is a dimension name or Python's `None`. */
  type NameMap = map<Option<string>, string>

  /** `{lat_name: 'lat', lon_name: 'lon'}`, as written: a Python dict display, so a name
      that was not found becomes the key `None`, and the later entry wins when both keys
      are equal. */
  function RenameMapAsWritten(latName: Option<string>, lonName: Option<string>): (m: NameMap)
    ensures m.Keys == {latName, lonName}
  {
    map[latName := "lat"][lonName := "lon"]
  }

  /** The map with the names that were found, and only those. */
  function RenameMap(latName: Option<string>, lonName: Option<string>): (m: NameMap)
    ensures forall k :: k in m ==> k.Some?
  {
    var withLat: NameMap := if latName.Some? then map[latName := "lat"] else map[];
    if lonName.Some? then withLat[lonName := "lon"] else withLat
  }

  /** The map built for a dataset sends its latitude name to `lat` and its longitude name
      to `lon`, and holds nothing else. The two names never clash, as the candidate lists
      are disjoint. */
  lemma RenameMapSendsFound(dims: set<string>)
    ensures var m := RenameMap(GetLatDimName(dims), GetLonDimName(dims));
            && (GetLatDimName(dims).Some? ==> GetLatDimName(dims) in m && m[GetLatDimName(dims)] == "lat")
            && (GetLonDimName(dims).Some? ==> GetLonDimName(dims) in m && m[GetLonDimName(dims)] == "lon")
            && m.Keys == (if GetLatDimName(dims).Some? then {GetLatDimName(dims)} else {})
                       + (if GetLonDimName(dims).Some? then {GetLonDimName(dims)} else {})
  {
    LatPriority(dims);
    LonPriority(dims);
  }

  /** A reference for what xarray's `rename` does to the dimension names. It fails on a
      key that is not a dimension (`None` never is); otherwise it replaces every key by
      its value. */
  function RenameDims(dims: set<string>, m: NameMap): (r: Option<set<string>>)
    ensures r.Some? <==> forall k :: k in m ==> k.Some? && k.value in dims
  {
    if forall k :: k in m ==> k.Some? && k.value in dims
    then Some((dims - set k | k in m :: k.value) + set k | k in m :: m[k])
    else None
  }

  /** As written, the map holds the key `None` for a dataset with latitude but no
      longitude, so `rename` raises on it. */
  lemma AsWrittenRaisesWithoutLon()
    ensures var dims := {"lat", "time"};
            && GetLonDimName(dims).None?
            && RenameDims(dims, RenameMapAsWritten(GetLatDimName(dims), GetLonDimName(dims))).None?
  {
    var dims := {"lat", "time"};
    LatPriority(dims);
    LonPriority(dims);
    var m := RenameMapAsWritten(GetLatDimName(dims), GetLonDimName(dims));
    assert None in m;
  }

  /** For a dataset with both a latitude and a longitude dimension the map as written and
      the map of found names are the same. */
  lemma RenameMapsAgreeWhenBothFound(dims: set<string>)
    requires GetLatDimName(dims).Some? && GetLonDimName(dims).Some?
    ensures RenameMapAsWritten(GetLatDimName(dims), GetLonDimName(dims)) == RenameMap(GetLatDimName(dims), GetLonDimName(dims))
    ensures |RenameMap(GetLatDimName(dims), GetLonDimName(dims)).Keys| == 2
  {
    LatPriority(dims);
    LonPriority(dims);
  }

  /** With the map of found names, the reference `rename` always succeeds. Exactly the
      found latitude and longitude names are replaced, by `lat` and `lon`; every other
      dimension is kept and nothing else is added. */
  lemma HarmonizedDims(dims: set<string>)
    ensures var lat := GetLatDimName(dims);
            var lon := GetLonDimName(dims);
            var found := (if lat.Some? then {lat.value} else {}) + (if lon.Some? then {lon.value} else {});
            var targets := (if lat.Some? then {"lat"} else {}) + (if lon.Some? then {"lon"} else {});
            RenameDims(dims, RenameMap(lat, lon)) == Some((dims - found) + targets)
  {
    var lat := GetLatDimName(dims);
    var lon := GetLonDimName(dims);
    var m := RenameMap(lat, lon);
    RenameMapSendsFound(dims);
    var found := (if lat.Some? then {lat.value} else {}) + (if lon.Some? then {lon.value} else {});
    var targets := (if lat.Some? then {"lat"} else {}) + (if lon.Some? then {"lon"} else {});
    assert (set k | k in m :: k.value) == found;
    assert (set k | k in m :: m[k]) == targets;
  }

  /** A dataset: what `harmonize` reads and updates of it, its dimension names. */
  class Dataset {
    var dims: set<string>

    constructor (dims: set<string>)
      ensures this.dims == dims
    {
      this.dims := dims;
    }
  }

  /** xarray's in-place `rename`, as a parameter: the new dimension names, or `None`
      when it raises. */
  type Renamer = (set<string>, NameMap) -> Option<set<string>>

  /** What one dataset's dimension names become under `_harmonize_dataset`. */
  function Harmonized(dims: set<string>, rename: Renamer): Option<set<string>> {
    rename(dims, RenameMap(GetLatDimName(dims), GetLonDimName(dims)))
  }

  /** `_harmonize_dataset`: renames the dataset's latitude and longitude dimensions in
      place; when `rename` raises, the dataset is left as it was. */
  method HarmonizeDataset(ds: Dataset, rename: Renamer) returns (ok: bool)
    modifies ds
    ensures ok <==> Harmonized(old(ds.dims), rename).Some?
    ensures ok ==> ds.dims == Harmonized(old(ds.dims), rename).value
    ensures !ok ==> ds.dims == old(ds.dims)
  {
    var latName := GetLatDimName(ds.dims);
    var lonName := GetLonDimName(ds.dims);
    var nameDict := RenameMap(latName, lonName);
    var renamed := rename(ds.dims, nameDict);
    if renamed.None? {
      return false;
    }
    ds.dims := renamed.value;
    ok := true;
  }

  predicate Distinct(datasets: seq<Dataset>) {
    forall i, j :: 0 <= i < j < |datasets| ==> datasets[i] != datasets[j]
  }

  /** `harmonize`: harmonizes the datasets in list order and stops at the first one whose
      rename raises, which `failed` names. For a list without repeated datasets, every
      dataset before that one is harmonized and the rest are untouched. */
  method HarmonizeAll(datasets: seq<Dataset>, rename: Renamer) returns (failed: Option<nat>)
    modifies set d | d in datasets
    ensures failed.Some? ==> failed.value < |datasets|
    ensures Distinct(datasets) ==> forall i :: 0 <= i < |datasets| ==>
              if failed.None? || i < failed.value then
                Harmonized(old(datasets[i].dims), rename).Some? &&
                datasets[i].dims == Harmonized(old(datasets[i].dims), rename).value
              else datasets[i].dims == old(datasets[i].dims)
    ensures Distinct(datasets) && failed.Some? ==> Harmonized(old(datasets[failed.value].dims), rename).None?
  {
    var i := 0;
    while i < |datasets|
      invariant 0 <= i <= |datasets|
      invariant Distinct(datasets) ==> forall j :: 0 <= j < |datasets| ==>
                  if j < i then
                    Harmonized(old(datasets[j].dims), rename).Some? &&
                    datasets[j].dims == Harmonized(old(datasets[j].dims), rename).value
                  else datasets[j].dims == old(datasets[j].dims)
    {
      var ok := HarmonizeDataset(datasets[i], rename);
      if !ok {
        return Some(i);
      }
      i := i + 1;
    }
    failed := None;
  }
}
