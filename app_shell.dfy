/** The page shell (trip-eld-frontend/src/App.tsx): the form inputs, the planning request,
    the response it keeps, and which panel the page shows. The request itself is an event:
    `CalculateTrip` records the body it would post, `OnSuccess` and `OnError` are its
    outcomes. */
module AppShell {
  import opened Wrappers
  import opened TripTypes

  /** The three location fields of the form. */
  datatype Field = CurrentLocation | PickupLocation | DropoffLocation

  function Location(i: Inputs, f: Field): Option<Position> {
    match f
    case CurrentLocation => i.currentLocation
    case PickupLocation => i.pickupLocation
    case DropoffLocation => i.dropoffLocation
  }

  /** The form as first shown and after a reset. */
  const EmptyInputs := Inputs(None, None, None, 0)

  const MissingLocations := "Please fill out all locations in order to generate report"

  /** A request is only sent when all three locations are chosen. */
  predicate Complete(i: Inputs) {
    i.currentLocation.Some? && i.pickupLocation.Some? && i.dropoffLocation.Some?
  }

  lemma CompleteMeansEveryField(i: Inputs)
    ensures Complete(i) <==> forall f: Field :: Location(i, f).Some?
  {
    if !Complete(i) {
      if i.currentLocation.None? { assert Location(i, CurrentLocation).None?; }
      else if i.pickupLocation.None? { assert Location(i, PickupLocation).None?; }
      else { assert Location(i, DropoffLocation).None?; }
    }
  }

  /** `handleChange` for a location: that field takes the selected coordinates (none
      when the selection is withdrawn) and the rest of the form is kept. */
  function SetLocation(i: Inputs, f: Field, v: Option<Position>): (r: Inputs)
    ensures Location(r, f) == v
    ensures forall g: Field :: g != f ==> Location(r, g) == Location(i, g)
    ensures r.cycleUsedHours == i.cycleUsedHours
  {
    match f
    case CurrentLocation => i.(currentLocation := v)
    case PickupLocation => i.(pickupLocation := v)
    case DropoffLocation => i.(dropoffLocation := v)
  }

  /** `handleChange` for the cycle hours: a missing value becomes 0. */
  function SetCycle(i: Inputs, v: Option<int>): (r: Inputs)
    ensures v.Some? ==> r.cycleUsedHours == v.value
    ensures v.None? ==> r.cycleUsedHours == 0
    ensures forall g: Field :: Location(r, g) == Location(i, g)
  {
    i.(cycleUsedHours := v.GetOr(0))
  }

  /** `Array.prototype.reverse` on a coordinate array. */
  function Reverse(s: seq<real>): (r: seq<real>)
    ensures |r| == |s|
    ensures forall i :: 0 <= i < |s| ==> r[i] == s[|s| - 1 - i]
  {
    if s == [] then [] else Reverse(s[1..]) + [s[0]]
  }

  lemma ReverseInvolution(s: seq<real>)
    ensures Reverse(Reverse(s)) == s
  {
    var rr := Reverse(Reverse(s));
    assert forall i | 0 <= i < |s| :: rr[i] == s[i];
  }

  /** A GeoJSON [longitude, latitude] becomes Leaflet's [latitude, longitude]. */
  lemma ReverseSwapsLonLat(lon: real, lat: real)
    ensures Reverse([lon, lat]) == [lat, lon]
  {
    assert Reverse([lon, lat])[0] == lat;
  }

  function FlipStop(s: DStop): DStop {
    s.(location := Reverse(s.location))
  }

  /** `onSuccess`: every stop's location and the three start coordinates are turned
      from longitude-latitude into latitude-longitude order; nothing else changes. */
  function Normalize(d: Data): (r: Data)
    ensures |r.directions.stops| == |d.directions.stops|
    ensures forall i :: 0 <= i < |d.directions.stops| ==> r.directions.stops[i] == FlipStop(d.directions.stops[i])
    ensures r.directions == d.directions.(stops := r.directions.stops)
    ensures r == d.(currentCoords := Reverse(d.currentCoords), pickupCoords := Reverse(d.pickupCoords),
                    dropoffCoords := Reverse(d.dropoffCoords), directions := r.directions)
  {
    var stops := seq(|d.directions.stops|, i requires 0 <= i < |d.directions.stops| => FlipStop(d.directions.stops[i]));
    d.(directions := d.directions.(stops := stops),
       currentCoords := Reverse(d.currentCoords),
       pickupCoords := Reverse(d.pickupCoords),
       dropoffCoords := Reverse(d.dropoffCoords))
  }

  /** Normalizing twice gives back the response: the reordering loses nothing. */
  lemma NormalizeInvolution(d: Data)
    ensures Normalize(Normalize(d)) == d
  {
    var n := Normalize(Normalize(d));
    ReverseInvolution(d.currentCoords);
    ReverseInvolution(d.pickupCoords);
    ReverseInvolution(d.dropoffCoords);
    forall i | 0 <= i < |d.directions.stops|
      ensures n.directions.stops[i] == d.directions.stops[i]
    {
      ReverseInvolution(d.directions.stops[i].location);
    }
    assert n.directions.stops == d.directions.stops;
  }

  /** A stop at GeoJSON [lon, lat] is shown at [lat, lon]. */
  lemma NormalizedStopIsLatLng(d: Data, i: int, lon: real, lat: real)
    requires 0 <= i < |d.directions.stops| && d.directions.stops[i].location == [lon, lat]
    ensures Normalize(d).directions.stops[i].location == [lat, lon]
    ensures Normalize(d).directions.stops[i].stopType == d.directions.stops[i].stopType
  {
    ReverseSwapsLonLat(lon, lat);
  }

  /** The page's state: the form, the last response, the form's error line, the request
      bodies posted so far and whether a request is in flight. */
  datatype Shell = Shell(inputs: Inputs, data: Option<Data>, customError: string, requests: seq<Inputs>, pending: bool)

  const InitialShell := Shell(EmptyInputs, None, "", [], false)

  /** `calculateTrip`: with a location missing it only sets the error line; otherwise it
      clears the error and posts the form. */
  function Calculate(s: Shell): (r: Shell)
    ensures Complete(s.inputs) <==> r.requests == s.requests + [s.inputs]
    ensures Complete(s.inputs) ==> r == s.(customError := "", requests := r.requests, pending := true)
    ensures !Complete(s.inputs) ==> r == s.(customError := MissingLocations)
  {
    if !Complete(s.inputs) then s.(customError := MissingLocations)
    else s.(customError := "", requests := s.requests + [s.inputs], pending := true)
  }

  /** Every posted form has all three locations. */
  predicate RequestsComplete(s: Shell) {
    forall k :: 0 <= k < |s.requests| ==> Complete(s.requests[k])
  }

  lemma CalculateKeepsRequestsComplete(s: Shell)
    requires RequestsComplete(s)
    ensures RequestsComplete(Calculate(s))
  {
    var r := Calculate(s);
    if Complete(s.inputs) {
      forall k | 0 <= k < |r.requests| ensures Complete(r.requests[k]) {
        if k < |s.requests| { assert r.requests[k] == s.requests[k]; }
      }
    }
  }

  /** `reset`: the form is emptied and the response dropped. */
  function Reset(s: Shell): (r: Shell)
    ensures r.inputs == EmptyInputs && r.data.None?
    ensures r.customError == s.customError && r.requests == s.requests && r.pending == s.pending
  {
    s.(inputs := EmptyInputs, data := None)
  }

  /** A successful response is kept in Leaflet's coordinate order. */
  function Succeed(s: Shell, d: Data): (r: Shell)
    ensures r.data == Some(Normalize(d)) && !r.pending
    ensures r.inputs == s.inputs && r.requests == s.requests && r.customError == s.customError
  {
    s.(data := Some(Normalize(d)), pending := false)
  }

  /** The right-hand panel: a spinner, the report, or the placeholder. */
  datatype Panel = Spinner | Report(data: Data) | Placeholder

  function PanelOf(s: Shell): (p: Panel)
    ensures p.Spinner? <==> s.pending
    ensures p.Report? <==> !s.pending && s.data.Some?
    ensures p.Report? ==> p.data == s.data.value
  {
    if s.pending then Spinner
    else if s.data.Some? then Report(s.data.value)
    else Placeholder
  }

  /** After a successful request the report shows the normalized response. */
  lemma SuccessShowsReport(s: Shell, d: Data)
    ensures PanelOf(Succeed(s, d)) == Report(Normalize(d))
  {
  }

  /** An incomplete form neither posts nor changes the panel. */
  lemma IncompleteFormChangesOnlyError(s: Shell)
    requires !Complete(s.inputs)
    ensures PanelOf(Calculate(s)) == PanelOf(s) && Calculate(s).requests == s.requests
    ensures Calculate(s).customError == MissingLocations
  {
  }

  /** Choosing all three places and then calculating posts exactly those places. */
  lemma FillingFormPosts(s: Shell, a: Position, b: Position, c: Position)
    ensures var i := SetLocation(SetLocation(SetLocation(s.inputs, CurrentLocation, Some(a)), PickupLocation, Some(b)), DropoffLocation, Some(c));
      Calculate(s.(inputs := i)).requests == s.requests + [Inputs(Some(a), Some(b), Some(c), s.inputs.cycleUsedHours)]
  {
  }

  /** The page component: each handler updates its state in place. */
  class App {
    var inputs: Inputs
    var data: Option<Data>
    var customError: string
    var requests: seq<Inputs>
    var isPending: bool

    function State(): Shell
      reads this
    {
      Shell(inputs, data, customError, requests, isPending)
    }

    constructor()
      ensures State() == InitialShell
    {
      inputs := EmptyInputs;
      data := None;
      customError := "";
      requests := [];
      isPending := false;
    }

    method ResetForm()
      modifies this`inputs, this`data
      ensures State() == Reset(old(State()))
    {
      inputs := Inputs(None, None, None, 0);
      data := None;
    }

    /** The Generate button is disabled while a request is in flight. */
    method CalculateTrip()
      requires !isPending
      modifies this`customError, this`requests, this`isPending
      ensures State() == Calculate(old(State()))
    {
      if inputs.currentLocation.None? || inputs.pickupLocation.None? || inputs.dropoffLocation.None? {
        customError := MissingLocations;
        return;
      }
      customError := "";
      requests := requests + [inputs];
      isPending := true;
    }

    method HandleLocationChange(name: Field, coordinates: Option<Position>)
      modifies this`inputs
      ensures inputs == SetLocation(old(inputs), name, coordinates)
    {
      match name
      case CurrentLocation => inputs := inputs.(currentLocation := coordinates);
      case PickupLocation => inputs := inputs.(pickupLocation := coordinates);
      case DropoffLocation => inputs := inputs.(dropoffLocation := coordinates);
    }

    method HandleCycleChange(value: Option<int>)
      modifies this`inputs
      ensures inputs == SetCycle(old(inputs), value)
    {
      inputs := inputs.(cycleUsedHours := if value.Some? then value.value else 0);
    }

    method OnSuccess(d: Data)
      modifies this`data, this`isPending
      ensures State() == Succeed(old(State()), d)
    {
      var stops := d.directions.stops;
      var i := 0;
      while i < |stops|
        invariant 0 <= i <= |stops| && |stops| == |d.directions.stops|
        invariant forall k :: 0 <= k < i ==> stops[k] == FlipStop(d.directions.stops[k])
        invariant forall k :: i <= k < |stops| ==> stops[k] == d.directions.stops[k]
      {
        stops := stops[i := stops[i].(location := Reverse(stops[i].location))];
        i := i + 1;
      }
      var fixed := d.(directions := d.directions.(stops := stops));
      fixed := fixed.(currentCoords := Reverse(fixed.currentCoords));
      fixed := fixed.(dropoffCoords := Reverse(fixed.dropoffCoords));
      fixed := fixed.(pickupCoords := Reverse(fixed.pickupCoords));
      assert fixed.directions.stops == Normalize(d).directions.stops;
      data := Some(fixed);
      isPending := false;
    }

    /** A failed request is only logged. */
    method OnError()
      modifies this`isPending
      ensures State() == old(State()).(pending := false)
    {
      isPending := false;
    }
  }
}
