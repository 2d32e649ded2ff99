/** Validation of a planning request (trip_eld_backend/core/serializers.py): the
    coordinate-pair field, the cycle-hours check, the cross-field check that the three
    places differ, and the name check that guards geocoding. JSON values are the parsed
    request body. */
module TripSerializer {
  import opened Wrappers

  /** A parsed JSON value. Python's `bool` is a subclass of `int`, so `JBool` passes an
      integer type test. */
  datatype Json =
    | JNull
    | JBool(b: bool)
    | JInt(i: int)
    | JFloat(r: real)
    | JString(s: string)
    | JArray(items: seq<Json>)
    | JObject(entries: seq<(string, Json)>)

  /** A coordinate pair, longitude first. */
  datatype LonLat = LonLat(lon: real, lat: real)

  const PairMessage := "Expected [lon, lat] tuple of floats"
  const NegativeCycleMessage := "Current Cycle cannot be negative."
  const SamePlaceMessage := "Current, pickup, and dropoff locations must all be different"
  const EmptyNameMessage := "Location name cannot be empty"
  const NoClientMessage := "OpenRouteService client not available"

  /** What iterating a value yields in Python: an array its items, a string its
      one-character strings, an object its keys; other values are not iterable. */
  function Iterate(j: Json): (r: Option<seq<Json>>)
    ensures r.None? <==> !(j.JArray? || j.JString? || j.JObject?)
    ensures j.JArray? ==> r == Some(j.items)
    ensures j.JString? ==> r.Some? && |r.value| == |j.s|
    ensures j.JObject? ==> r.Some? && |r.value| == |j.entries|
  {
    match j
    case JArray(items) => Some(items)
    case JString(s) => Some(seq(|s|, i requires 0 <= i < |s| => JString([s[i]])))
    case JObject(entries) => Some(seq(|entries|, i requires 0 <= i < |entries| => JString(entries[i].0)))
    case _ => None
  }

  /** `isinstance(v, (int, float))`. */
  predicate IsNumber(j: Json) {
    j.JBool? || j.JInt? || j.JFloat?
  }

  /** `float(v)` of a number. */
  function ToFloat(j: Json): real
    requires IsNumber(j)
  {
    match j
    case JBool(b) => if b then 1.0 else 0.0
    case JInt(i) => i as real
    case JFloat(r) => r
  }

  /** `LatLngTupleField.to_internal_value`: exactly two numbers, kept in order. */
  function ToInternalValue(data: Json): (r: Result<LonLat, string>)
    ensures r.Ok? <==> data.JArray? && |data.items| == 2 && IsNumber(data.items[0]) && IsNumber(data.items[1])
    ensures r.Ok? ==> r.value == LonLat(ToFloat(data.items[0]), ToFloat(data.items[1]))
    ensures r.Err? ==> r.error == PairMessage
  {
    var elems := Iterate(data);
    if elems.None? || |elems.value| != 2 || exists v :: v in elems.value && !IsNumber(v) then
      Err(PairMessage)
    else
      // `float()` cannot fail on a number, so the second error of the source is never raised.
      Ok(LonLat(ToFloat(elems.value[0]), ToFloat(elems.value[1])))
  }

  /** `LatLngTupleField.to_representation`: the pair as it is. */
  function ToRepresentation(p: LonLat): (r: LonLat)
    ensures r.lon == p.lon && r.lat == p.lat
  {
    p
  }

  /** The JSON array a pair is written as. */
  function Encode(p: LonLat): Json {
    JArray([JFloat(p.lon), JFloat(p.lat)])
  }

  /** Reading back a written pair gives the same pair. */
  lemma PairRoundTrip(p: LonLat)
    ensures ToInternalValue(Encode(ToRepresentation(p))) == Ok(p)
  {
  }

  /** A string is never a coordinate pair, even one of two characters. */
  lemma StringsRejected(s: string)
    ensures ToInternalValue(JString(s)) == Err(PairMessage)
  {
  }

  /** Integers and booleans are accepted and widened to floats. */
  lemma IntegersWidened(lon: int, lat: bool)
    ensures ToInternalValue(JArray([JInt(lon), JBool(lat)])) == Ok(LonLat(lon as real, if lat then 1.0 else 0.0))
  {
  }

  /** `validate_current_cycle_used`: hours become seconds; negative hours are refused. */
  function ValidateCurrentCycleUsed(value: int): (r: Result<int, string>)
    ensures r.Err? <==> value < 0
    ensures r.Err? ==> r.error == NegativeCycleMessage
    ensures r.Ok? ==> r.value >= 0 && r.value % 3600 == 0 && r.value / 3600 == value
  {
    if value < 0 then Err(NegativeCycleMessage) else Ok(value * 60 * 60)
  }

  /** More hours used give more seconds used. */
  lemma CycleSecondsMonotone(a: int, b: int)
    requires 0 <= a <= b
    ensures ValidateCurrentCycleUsed(a).value <= ValidateCurrentCycleUsed(b).value
  {
  }

  /** The fields after each one was read. */
  datatype TripRequest = TripRequest(currentLocation: LonLat, pickupLocation: LonLat, dropoffLocation: LonLat, currentCycleUsed: int)

  predicate PairwiseDistinct(a: LonLat, b: LonLat, c: LonLat) {
    a != b && b != c && a != c
  }

  /** `len(set(values)) != 3` is exactly "two of the places coincide". */
  lemma ThreeValuesIffDistinct(a: LonLat, b: LonLat, c: LonLat)
    ensures |{a, b, c}| == 3 <==> PairwiseDistinct(a, b, c)
  {
    if a == b {
      assert {a, b, c} == {a, c};
    } else if b == c {
      assert {a, b, c} == {a, b};
    } else if a == c {
      assert {a, b, c} == {a, b};
    } else {
      assert {a, b, c} == {a, b} + {c};
      assert |{a, b}| == 2 by { assert {a, b} == {a} + {b}; }
    }
  }

  /** The context keys `validate` writes. */
  const CurrentKey := "current_location_coords"
  const PickupKey := "pickup_location_coords"
  const DropoffKey := "dropoff_location_coords"

  /** The context after a successful `validate`: each place under its key, unchanged. */
  function StoreCoords(context: map<string, LonLat>, data: TripRequest): (r: map<string, LonLat>)
    ensures r.Keys == context.Keys + {CurrentKey, PickupKey, DropoffKey}
    ensures r[CurrentKey] == data.currentLocation && r[PickupKey] == data.pickupLocation
    ensures r[DropoffKey] == data.dropoffLocation
    ensures forall k :: k in context && k !in {CurrentKey, PickupKey, DropoffKey} ==> r[k] == context[k]
  {
    context[CurrentKey := data.currentLocation][PickupKey := data.pickupLocation][DropoffKey := data.dropoffLocation]
  }

  /** Why a name could not be geocoded: the first two carry `EmptyNameMessage` and
      `NoClientMessage`; a failed lookup is reported for the name, marked when the
      service found nothing. */
  datatype GeocodeError =
    | EmptyName
    | ClientMissing
    | Failed(name: string, notFound: bool)

  /** The characters `str.strip()` removes (Python's `str.isspace`): the ASCII controls
      tab to carriage return and the four separators U+001C to U+001F, the space, NEL,
      the no-break space and the Unicode space separators, line and paragraph separators. */
  predicate IsSpace(c: char) {
    ('\t' <= c <= '\r') || ('\U{1C}' <= c <= ' ') || c == '\U{85}' || c == '\U{A0}'
    || c == '\U{1680}' || ('\U{2000}' <= c <= '\U{200A}') || c == '\U{2028}' || c == '\U{2029}'
    || c == '\U{202F}' || c == '\U{205F}' || c == '\U{3000}'
  }

  /** `not name or not name.strip()`. */
  predicate Blank(name: Option<string>) {
    name.None? || forall i :: 0 <= i < |name.value| ==> IsSpace(name.value[i])
  }

  /** The lookup service's answer for a name: the coordinates of each hit in order, or
      None when it failed or had no `features`. */
  type Lookup = Option<seq<seq<real>>>

  /** `geocode_location`: a blank name is refused before the client is looked at, a
      missing client next; otherwise the first hit's first two coordinates, and any
      failure of the lookup is reported as a geocoding failure for that name. */
  function GeocodeLocation(name: Option<string>, hasClient: bool, lookup: Lookup): (r: Result<LonLat, GeocodeError>)
    ensures Blank(name) ==> r == Err(EmptyName)
    ensures !Blank(name) && !hasClient ==> r == Err(ClientMissing)
    ensures r.Ok? <==> !Blank(name) && hasClient && lookup.Some? && |lookup.value| > 0 && |lookup.value[0]| >= 2
    ensures r.Ok? ==> r.value == LonLat(lookup.value[0][0], lookup.value[0][1])
    ensures !Blank(name) && hasClient && r.Err? ==> r.error == Failed(name.value, lookup.None? || lookup.value == [])
  {
    if Blank(name) then Err(EmptyName)
    else if !hasClient then Err(ClientMissing)
    else if lookup.None? || |lookup.value| == 0 then Err(Failed(name.value, true))
    else if |lookup.value[0]| < 2 then Err(Failed(name.value, false))
    else Ok(LonLat(lookup.value[0][0], lookup.value[0][1]))
  }

  /** A blank name is refused whatever the client or the service would do. */
  lemma BlankNameNeverLooksUp(name: string, hasClient: bool, l1: Lookup, l2: Lookup)
    requires forall i :: 0 <= i < |name| ==> IsSpace(name[i])
    ensures GeocodeLocation(Some(name), hasClient, l1) == GeocodeLocation(Some(name), hasClient, l2) == Err(EmptyName)
  {
  }

  lemma GeocodeExamples()
    ensures GeocodeLocation(Some("  \t"), true, Some([[1.0, 2.0]])) == Err(EmptyName)
    ensures GeocodeLocation(Some("\U{1C}\U{1F}\U{A0}\U{3000}"), true, Some([[1.0, 2.0]])) == Err(EmptyName)
    ensures GeocodeLocation(Some("Denver"), false, Some([[1.0, 2.0]])) == Err(ClientMissing)
    ensures GeocodeLocation(Some("Denver"), true, Some([[-104.98, 39.74, 0.0]])) == Ok(LonLat(-104.98, 39.74))
  {
    assert !Blank(Some("Denver")) by { assert !IsSpace("Denver"[0]); }
  }

  /** `TripPlannerSerializer` after its fields were read: the context it shares with the
      view, and whether a geocoding client could be set up. */
  class TripPlannerSerializer {
    var context: map<string, LonLat>
    const hasClient: bool

    /** A client given in the context is used; otherwise one is created, which may fail. */
    constructor(context: map<string, LonLat>, clientInContext: bool, clientCreated: bool)
      ensures this.context == context && hasClient == (clientInContext || clientCreated)
    {
      this.context := context;
      hasClient := clientInContext || clientCreated;
    }

    method Geocode(name: Option<string>, lookup: Lookup) returns (r: Result<LonLat, GeocodeError>)
      ensures r == GeocodeLocation(name, hasClient, lookup)
    {
      if name.None? {
        return Err(EmptyName);
      }
      var s := name.value;
      var i := 0;
      while i < |s| && IsSpace(s[i])
        invariant 0 <= i <= |s|
        invariant forall k :: 0 <= k < i ==> IsSpace(s[k])
      {
        i := i + 1;
      }
      if i == |s| {
        return Err(EmptyName);
      }
      if !hasClient {
        return Err(ClientMissing);
      }
      if lookup.None? || |lookup.value| == 0 {
        return Err(Failed(s, true));
      }
      var coordinates := lookup.value[0];
      if |coordinates| < 2 {
        return Err(Failed(s, false));
      }
      return Ok(LonLat(coordinates[0], coordinates[1]));
    }

    /** `validate`: refuses a request naming the same place twice; otherwise records the
      three places in the context and passes the request on unchanged. */
    method Validate(data: TripRequest) returns (r: Result<TripRequest, string>)
      modifies this`context
      ensures r.Ok? <==> PairwiseDistinct(data.currentLocation, data.pickupLocation, data.dropoffLocation)
      ensures r.Ok? ==> r.value == data && context == StoreCoords(old(context), data)
      ensures r.Err? ==> r.error == SamePlaceMessage && context == old(context)
    {
      var places := {data.currentLocation, data.pickupLocation, data.dropoffLocation};
      ThreeValuesIffDistinct(data.currentLocation, data.pickupLocation, data.dropoffLocation);
      if |places| != 3 {
        return Err(SamePlaceMessage);
      }
      context := context[CurrentKey := data.currentLocation];
      context := context[PickupKey := data.pickupLocation];
      context := context[DropoffKey := data.dropoffLocation];
      return Ok(data);
    }
  }
}
