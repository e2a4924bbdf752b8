/** The walking-route service: how it writes the two points for the OSRM server, how it
    turns a failed or refused call into 502, and how it turns an OSRM answer into the
    coordinate list the mobile map draws. The HTTP call itself is an input. */
module Routing {
  import opened Common

  datatype Point = Point(latitude: real, longitude: real)

  /** `{o.longitude},{o.latitude};{d.longitude},{d.latitude}`; `fmt` is Python's float
      formatting, a parameter of the model. OSRM wants longitude first. */
  function CoordString(o: Point, d: Point, fmt: real -> string): string
  {
    fmt(o.longitude) + "," + fmt(o.latitude) + ";" + fmt(d.longitude) + "," + fmt(d.latitude)
  }

  /** Reading the coordinate string back gives the longitude and latitude of each point,
      in that order, when the number format uses neither separator. */
  lemma CoordStringFields(o: Point, d: Point, fmt: real -> string)
    requires forall x :: ',' !in fmt(x) && ';' !in fmt(x)
    ensures Split(CoordString(o, d, fmt), ';') == [fmt(o.longitude) + "," + fmt(o.latitude), fmt(d.longitude) + "," + fmt(d.latitude)]
    ensures Split(fmt(o.longitude) + "," + fmt(o.latitude), ',') == [fmt(o.longitude), fmt(o.latitude)]
    ensures Split(fmt(d.longitude) + "," + fmt(d.latitude), ',') == [fmt(d.longitude), fmt(d.latitude)]
  {
    var a, b := fmt(o.longitude) + "," + fmt(o.latitude), fmt(d.longitude) + "," + fmt(d.latitude);
    assert ';' !in a && ';' !in b;
    SplitNoSep(b, ';');
    SplitOverSep(a, b, ';');
    assert CoordString(o, d, fmt) == a + [';'] + b;
    SplitNoSep(fmt(o.latitude), ',');
    SplitOverSep(fmt(o.longitude), fmt(o.latitude), ',');
    SplitNoSep(fmt(d.latitude), ',');
    SplitOverSep(fmt(d.longitude), fmt(d.latitude), ',');
  }

  /** The first route of an OSRM answer: GeoJSON positions, metres and seconds. */
  datatype OsrmRoute = OsrmRoute(coordinates: seq<seq<real>>, distance: real, duration: real)

  /** The decoded JSON body: `code` and `routes` may be absent. */
  datatype OsrmBody = OsrmBody(code: Option<string>, routes: Option<seq<OsrmRoute>>)

  /** What the HTTP call produced: an exception, or a status, text and body. */
  datatype OsrmReply =
    | RequestFailed(message: string)
    | Reply(status: int, text: string, body: OsrmBody)

  datatype LatLng = LatLng(latitude: real, longitude: real)

  /** The response: `None` is JSON null. */
  datatype RouteResult = RouteResult(coords: seq<LatLng>, distanceM: Option<real>, durationS: Option<real>)

  const NoRoute := RouteResult([], None, None)

  /** `{"latitude": lat, "longitude": lon} for (lon, lat) in coordinates`, or `None` when a
      position does not unpack into exactly two numbers (Python raises, which the server
      reports as 500). */
  function Swapped(positions: seq<seq<real>>): (r: Option<seq<LatLng>>)
    ensures r.Some? <==> forall i :: 0 <= i < |positions| ==> |positions[i]| == 2
    ensures r.Some? ==> (|r.value| == |positions|
      && forall i :: 0 <= i < |positions| ==> r.value[i] == LatLng(positions[i][1], positions[i][0]))
  {
    if positions == [] then Some([])
    else if |positions[0]| != 2 then None
    else
      var rest := Swapped(positions[1..]);
      if rest.None? then None else Some([LatLng(positions[0][1], positions[0][0])] + rest.value)
  }

  /** Back to GeoJSON order. */
  function Unswapped(coords: seq<LatLng>): (r: seq<seq<real>>)
    ensures |r| == |coords|
    ensures forall i :: 0 <= i < |coords| ==> r[i] == [coords[i].longitude, coords[i].latitude]
  {
    if coords == [] then [] else [[coords[0].longitude, coords[0].latitude]] + Unswapped(coords[1..])
  }

  /** The swap loses nothing: putting longitude first again gives the positions back. */
  lemma SwapRoundTrip(positions: seq<seq<real>>)
    requires forall i :: 0 <= i < |positions| ==> |positions[i]| == 2
    ensures Swapped(positions).Some? && Unswapped(Swapped(positions).value) == positions
  {
    var u := Unswapped(Swapped(positions).value);
    assert |u| == |positions|;
    forall i | 0 <= i < |positions| ensures u[i] == positions[i] {
      assert |positions[i]| == 2;
    }
  }

  /** `data.get("code") != "Ok" or not data.get("routes")` */
  predicate NoRouteFound(body: OsrmBody)
  {
    body.code != Some("Ok") || body.routes.None? || body.routes.value == []
  }

  /** `route`: 502 for an exception or a status other than 200; an empty route for a code
      other than "Ok" or no routes; otherwise the first route, swapped, with its distance
      and duration. */
  function Route(reply: OsrmReply): (r: Outcome<RouteResult>)
    ensures reply.RequestFailed? ==> r == HttpError(502, "OSRM error: " + reply.message)
    ensures reply.Reply? && reply.status != 200 ==>
      r == HttpError(502, "OSRM status " + IntToString(reply.status) + ": " + reply.text)
    ensures (r.HttpError? && r.status == 502) <==> (reply.RequestFailed? || reply.status != 200)
    ensures r == Ok(NoRoute) <==> (reply.Reply? && reply.status == 200 && NoRouteFound(reply.body))
    ensures reply.Reply? && reply.status == 200 && !NoRouteFound(reply.body) ==>
      var route0 := reply.body.routes.value[0];
      && (r.Ok? <==> Swapped(route0.coordinates).Some?)
      && (r.Ok? ==> r.value == RouteResult(Swapped(route0.coordinates).value, Some(route0.distance), Some(route0.duration)))
  {
    match reply
    case RequestFailed(message) => HttpError(502, "OSRM error: " + message)
    case Reply(status, text, body) =>
      if status != 200 then HttpError(502, "OSRM status " + IntToString(status) + ": " + text)
      else if body.code != Some("Ok") || body.routes.None? || body.routes.value == [] then Ok(NoRoute)
      else
        var route0 := body.routes.value[0];
        match Swapped(route0.coordinates)
        case None => HttpError(500, "Internal Server Error")
        case Some(coords) => Ok(RouteResult(coords, Some(route0.distance), Some(route0.duration)))
  }

  /** A found route has exactly one map point per GeoJSON position, in order, latitude
      taken from the second number; the positions can be recovered from it. */
  lemma FoundRouteMeaning(reply: OsrmReply)
    requires reply.Reply? && reply.status == 200 && !NoRouteFound(reply.body)
    requires Route(reply).Ok?
    ensures var geo := reply.body.routes.value[0].coordinates;
      var coords := Route(reply).value.coords;
      |coords| == |geo|
      && (forall i :: 0 <= i < |geo| ==> coords[i].latitude == geo[i][1] && coords[i].longitude == geo[i][0])
      && Unswapped(coords) == geo
  {
    SwapRoundTrip(reply.body.routes.value[0].coordinates);
  }
}
