/** Map bounds and the stop list filter of the route summary
    (trip-eld-frontend/src/components/RouteAndSummary.tsx). */
module RouteSummary {
  import opened Wrappers
  import opened TripTypes

  datatype LatLng = LatLng(lat: real, lng: real)

  /** Leaflet's bounds: the south-west and north-east corners. */
  datatype Corners = Corners(southWest: LatLng, northEast: LatLng)

  /** `getLeafletBounds`: a GeoJSON bbox (section 5 of RFC 7946) is [minLon, minLat, maxLon,
      maxLat], or with altitudes [minLon, minLat, minAlt, maxLon, maxLat, maxAlt]; the
      corners take latitude first. */
  function LeafletBounds(bbox: seq<real>): (c: Corners)
    requires |bbox| >= 4
    ensures |bbox| == 6 ==> c == Corners(LatLng(bbox[1], bbox[0]), LatLng(bbox[4], bbox[3]))
    ensures |bbox| != 6 ==> c == Corners(LatLng(bbox[1], bbox[0]), LatLng(bbox[3], bbox[2]))
  {
    var q := if |bbox| == 6 then [bbox[0], bbox[1], bbox[3], bbox[4]] else bbox[..4];
    Corners(LatLng(q[1], q[0]), LatLng(q[3], q[2]))
  }

  /** The altitudes of a 6-value bbox play no part: it gives the corners of its 2D form. */
  lemma AltitudesIgnored(bbox: seq<real>)
    requires |bbox| == 6
    ensures LeafletBounds(bbox) == LeafletBounds([bbox[0], bbox[1], bbox[3], bbox[4]])
  {
  }

  lemma LeafletBoundsExample()
    ensures LeafletBounds([-122.5, 37.7, 0.0, -122.3, 37.9, 100.0]) == LeafletBounds([-122.5, 37.7, -122.3, 37.9])
    ensures LeafletBounds([-122.5, 37.7, -122.3, 37.9]) == Corners(LatLng(37.7, -122.5), LatLng(37.9, -122.3))
  {
  }

  /** What `MapFitter`'s effect does to the map. */
  datatype FitOutcome = NoFit | Fitted(bounds: Corners, padding: int) | FitErrorLogged

  /** `MapFitter`: fits the map to a bbox of at least four values with 20 pixels of padding;
      `fitFails` stands for the map widget throwing, which is caught and logged. */
  function MapFitterEffect(bbox: Option<seq<real>>, fitFails: bool): (o: FitOutcome)
    ensures o.NoFit? <==> bbox.None? || |bbox.value| < 4
    ensures o.Fitted? <==> bbox.Some? && |bbox.value| >= 4 && !fitFails
    ensures o.Fitted? ==> o.bounds == LeafletBounds(bbox.value) && o.padding == 20
  {
    match bbox
    case None => NoFit
    case Some(b) =>
      if |b| >= 4 then (if fitFails then FitErrorLogged else Fitted(LeafletBounds(b), 20))
      else NoFit
  }

  /** The modal's four category flags. */
  datatype Filters = Filters(breakOn: bool, fuelOn: bool, restOn: bool, serviceOn: bool)

  function Flag(f: Filters, t: StopType): bool {
    match t
    case Break => f.breakOn
    case Fuel => f.fuelOn
    case Rest => f.restOn
    case Service => f.serviceOn
  }

  /** The initial state: no category selected. */
  const NoFilters: Filters := Filters(false, false, false, false)

  /** `activeFilterKeys`: the selected categories, in the key order of the state object. */
  function ActiveFilterKeys(f: Filters): (keys: seq<StopType>)
    ensures forall t :: t in keys <==> Flag(f, t)
    ensures forall i, j :: 0 <= i < j < |keys| ==> keys[i] != keys[j]
  {
    (if f.breakOn then [Break] else []) + (if f.fuelOn then [Fuel] else []) +
    (if f.restOn then [Rest] else []) + (if f.serviceOn then [Service] else [])
  }

  lemma NoActiveKeysIffNoFlag(f: Filters)
    ensures ActiveFilterKeys(f) == [] <==> f == NoFilters
  {
    if ActiveFilterKeys(f) == [] {
      assert !Flag(f, Break) && !Flag(f, Fuel) && !Flag(f, Rest) && !Flag(f, Service);
    }
  }

  /** `stops.filter(...)`: the stops whose category is among `keys`, in order. */
  function KeepTypes(stops: seq<DStop>, keys: seq<StopType>): (r: seq<DStop>)
    ensures |r| <= |stops|
    ensures forall s :: s in r ==> s in stops && s.stopType in keys
  {
    if stops == [] then []
    else
      var last := stops[|stops| - 1];
      KeepTypes(stops[..|stops| - 1], keys) + (if last.stopType in keys then [last] else [])
  }

  /** The positions of the kept stops. */
  function KeptIndices(stops: seq<DStop>, keys: seq<StopType>): seq<nat> {
    if stops == [] then []
    else
      var n := |stops| - 1;
      KeptIndices(stops[..n], keys) + (if stops[n].stopType in keys then [n] else [])
  }

  /** The filter keeps exactly the stops of a selected category and their order: the kept
      stops sit at strictly increasing positions of the input, and every input position whose
      category is selected is one of them. */
  lemma {:induction false} KeepTypesIsOrderedSelection(stops: seq<DStop>, keys: seq<StopType>)
    ensures var r := KeepTypes(stops, keys);
      var idx := KeptIndices(stops, keys);
      && |idx| == |r|
      && (forall k :: 0 <= k < |idx| ==> idx[k] < |stops| && r[k] == stops[idx[k]])
      && (forall k, l :: 0 <= k < l < |idx| ==> idx[k] < idx[l])
      && (forall i :: 0 <= i < |stops| ==> (stops[i].stopType in keys <==> i in idx))
  {
    if stops != [] {
      var n := |stops| - 1;
      KeepTypesIsOrderedSelection(stops[..n], keys);
      var idx0 := KeptIndices(stops[..n], keys);
      assert forall k :: 0 <= k < |idx0| ==> idx0[k] < n;
      assert forall i :: 0 <= i < n ==> stops[..n][i] == stops[i];
    }
  }

  /** The stop list the modal shows for a set of flags. */
  function VisibleStops(all: seq<DStop>, f: Filters): (r: seq<DStop>)
    ensures ActiveFilterKeys(f) == [] ==> r == all
    ensures ActiveFilterKeys(f) != [] ==> forall s :: s in r <==> s in all && Flag(f, s.stopType)
  {
    var keys := ActiveFilterKeys(f);
    if |keys| == 0 then all
    else
      var r := KeepTypes(all, keys);
      assert forall s :: s in all && Flag(f, s.stopType) ==> s in r by {
        forall s | s in all && Flag(f, s.stopType)
          ensures s in r
        {
          KeepTypesIsOrderedSelection(all, keys);
          var i :| 0 <= i < |all| && all[i] == s;
          var idx := KeptIndices(all, keys);
          var k :| 0 <= k < |idx| && idx[k] == i;
          assert r[k] == s;
        }
      }
      r
  }

  /** `StopsModal`: the flags and the stop list it shows for the route's stops. */
  class StopsModal {
    const directionsStops: seq<DStop>
    var filters: Filters
    var stops: seq<DStop>

    constructor(directionsStops: seq<DStop>)
      ensures this.directionsStops == directionsStops
      ensures filters == NoFilters && stops == directionsStops
    {
      this.directionsStops := directionsStops;
      filters := NoFilters;
      stops := directionsStops;
    }

    /** `handleToggle`: sets one flag and keeps the other three. */
    method HandleToggle(value: StopType, next: bool)
      modifies this`filters
      ensures Flag(filters, value) == next
      ensures forall t :: t != value ==> Flag(filters, t) == Flag(old(filters), t)
    {
      match value
      case Break => filters := filters.(breakOn := next);
      case Fuel => filters := filters.(fuelOn := next);
      case Rest => filters := filters.(restOn := next);
      case Service => filters := filters.(serviceOn := next);
    }

    /** The effect that runs after the flags change: all stops when no flag is set, else
        those of a selected category. */
    method RunFilterEffect()
      modifies this`stops
      ensures stops == VisibleStops(directionsStops, filters)
    {
      var tmpStops := directionsStops;
      var keys := ActiveFilterKeys(filters);
      if |keys| == 0 {
        stops := tmpStops;
        return;
      }
      tmpStops := KeepTypes(tmpStops, keys);
      stops := tmpStops;
    }
  }
}
