/** The geofence evaluator: a table of classrooms (centre, radius, floor, building) that can be
    edited in place, the room-membership decision, the nearest-room search, the campus check,
    the travel-speed plausibility check and the altitude-to-floor estimate.

    Great-circle distance is not computed here: the service is given a distance function in
    whole metres, of which nothing is assumed beyond being a natural number. */
module Geofencing {
  import opened Wrappers
  import Statistics

  datatype Point = Point(lat: real, lng: real)

  /** A reported position. Absent properties stay absent: a missing accuracy or floor is not a value. */
  datatype Location = Location(
    point: Point,
    accuracy: Option<real>,
    floor: Option<int>,
    altitude: Option<real>,
    inCampus: Option<bool>)

  datatype Room = Room(center: Point, radius: int, floor: Option<int>, building: Option<string>)

  datatype LocationFailure =
    | UnknownClassroom(classroom: string)
    | AccuracyTooLow(accuracy: real, required: int)
    | OutsideBoundary(distance: nat, maxAllowed: int)
    | WrongFloor(expected: int, got: int, distance: nat)

  datatype LocationResult =
    | Inside(distance: nat, classroom: string, floor: Option<int>, building: Option<string>)
    | Outside(failure: LocationFailure)
  {
    predicate Valid() { Inside? }

    /** The distance the result reports, when it reports one. */
    function ReportedDistance(): Option<nat> {
      match this
      case Inside(d, _, _, _) => Some(d)
      case Outside(OutsideBoundary(d, _)) => Some(d)
      case Outside(WrongFloor(_, _, d)) => Some(d)
      case Outside(_) => None
    }
  }

  /** The accuracy ceiling applied before any distance is computed. */
  const AccuracyCeiling := 20

  predicate AccuracyAcceptable(loc: Location) {
    loc.accuracy.None? || loc.accuracy.value <= AccuracyCeiling as real
  }

  /** The floor check applies only when both the report and the room give a floor. */
  predicate FloorAcceptable(loc: Location, room: Room) {
    loc.floor.None? || room.floor.None? || loc.floor.value == room.floor.value
  }

  /** Whether `loc` is inside classroom `classroomId` of `rooms`, or why not, checked in the
      order: unknown room, too coarse a fix, outside the radius, wrong floor. */
  function VerifyLocation(rooms: map<string, Room>, distance: (Point, Point) -> nat,
                          loc: Location, classroomId: string): (r: LocationResult)
    ensures classroomId !in rooms ==> r == Outside(UnknownClassroom(classroomId))
    ensures classroomId in rooms && !AccuracyAcceptable(loc) ==>
              r == Outside(AccuracyTooLow(loc.accuracy.value, AccuracyCeiling))
    ensures classroomId in rooms && AccuracyAcceptable(loc) ==>
              r.ReportedDistance() == Some(distance(loc.point, rooms[classroomId].center))
    ensures classroomId in rooms && AccuracyAcceptable(loc) &&
            distance(loc.point, rooms[classroomId].center) > rooms[classroomId].radius ==>
              r == Outside(OutsideBoundary(distance(loc.point, rooms[classroomId].center),
                                           rooms[classroomId].radius))
    ensures r.Valid() <==>
              classroomId in rooms && AccuracyAcceptable(loc) &&
              distance(loc.point, rooms[classroomId].center) <= rooms[classroomId].radius &&
              FloorAcceptable(loc, rooms[classroomId])
    ensures r.Valid() ==> r.classroom == classroomId && r.floor == rooms[classroomId].floor &&
                          r.building == rooms[classroomId].building
  {
    if classroomId !in rooms then
      Outside(UnknownClassroom(classroomId))
    else
      var room := rooms[classroomId];
      if loc.accuracy.Some? && loc.accuracy.value > AccuracyCeiling as real then
        Outside(AccuracyTooLow(loc.accuracy.value, AccuracyCeiling))
      else
        var d := distance(loc.point, room.center);
        if d > room.radius then
          Outside(OutsideBoundary(d, room.radius))
        else if loc.floor.Some? && room.floor.Some? && loc.floor.value != room.floor.value then
          Outside(WrongFloor(room.floor.value, loc.floor.value, d))
        else
          Inside(d, classroomId, room.floor, room.building)
  }

  /** A fix whose accuracy is exactly the ceiling is not rejected for accuracy. */
  lemma AccuracyAtCeilingAccepted(rooms: map<string, Room>, distance: (Point, Point) -> nat,
                                  loc: Location, classroomId: string)
    requires classroomId in rooms && loc.accuracy == Some(20.0)
    ensures !VerifyLocation(rooms, distance, loc, classroomId).Outside?
            || !VerifyLocation(rooms, distance, loc, classroomId).failure.AccuracyTooLow?
  {
  }

  /** A valid result always lies within the room's radius. */
  lemma ValidImpliesWithinRadius(rooms: map<string, Room>, distance: (Point, Point) -> nat,
                                 loc: Location, classroomId: string)
    requires VerifyLocation(rooms, distance, loc, classroomId).Valid()
    ensures classroomId in rooms
    ensures VerifyLocation(rooms, distance, loc, classroomId).distance <= rooms[classroomId].radius
  {
  }

  /** A floor mismatch is rejected even inside the radius, but only when both floors are known. */
  lemma FloorMismatchRejected(rooms: map<string, Room>, distance: (Point, Point) -> nat,
                              loc: Location, classroomId: string)
    requires classroomId in rooms && AccuracyAcceptable(loc)
    requires distance(loc.point, rooms[classroomId].center) <= rooms[classroomId].radius
    ensures loc.floor.Some? && rooms[classroomId].floor.Some? && loc.floor != rooms[classroomId].floor ==>
              VerifyLocation(rooms, distance, loc, classroomId).Outside?
    ensures loc.floor.None? || rooms[classroomId].floor.None? ==>
              VerifyLocation(rooms, distance, loc, classroomId).Valid()
  {
  }

  /** The room a configuration describes; a missing or zero radius falls back to the default. */
  datatype RoomConfig = RoomConfig(center: Point, radius: Option<int>, floor: Option<int>, building: Option<string>)

  function ConfiguredRoom(config: RoomConfig, defaultRadius: int): (room: Room)
    ensures room.center == config.center && room.floor == config.floor && room.building == config.building
    ensures room.radius == if config.radius.None? || config.radius.value == 0 then defaultRadius
                           else config.radius.value
  {
    Room(config.center,
         if config.radius.Some? && config.radius.value != 0 then config.radius.value else defaultRadius,
         config.floor, config.building)
  }

  /** Properties supplied to an update; each given one replaces the room's, the rest are kept. */
  datatype RoomUpdate = RoomUpdate(lat: Option<real>, lng: Option<real>, radius: Option<int>,
                                   floor: Option<int>, building: Option<string>)

  function Merged(room: Room, u: RoomUpdate): (r: Room)
    ensures r.center.lat == u.lat.GetOr(room.center.lat) && r.center.lng == u.lng.GetOr(room.center.lng)
    ensures r.radius == u.radius.GetOr(room.radius)
    ensures r.floor == (if u.floor.Some? then u.floor else room.floor)
    ensures r.building == (if u.building.Some? then u.building else room.building)
    ensures u == RoomUpdate(None, None, None, None, None) ==> r == room
  {
    Room(Point(u.lat.GetOr(room.center.lat), u.lng.GetOr(room.center.lng)),
         u.radius.GetOr(room.radius),
         if u.floor.Some? then u.floor else room.floor,
         if u.building.Some? then u.building else room.building)
  }

  datatype Nearest = Nearest(id: string, room: Room, distance: nat)

  datatype Campus = Campus(onCampus: bool, distanceFromCenter: nat, campusRadius: int)

  datatype Consistency = Consistency(consistent: bool, distance: Option<nat>)

  /** Whether covering `d` metres in `seconds` seconds is faster than 15 km/h, with the
      quotient's behaviour at zero and negative elapsed time (infinite, not-a-number, negative). */
  predicate TooFast(d: nat, seconds: int) {
    if seconds > 0 then (d as real / seconds as real) * 3.6 > 15.0
    else seconds == 0 && d > 0
  }

  /** For a positive elapsed time the speed test is the integer inequality 6 d > 25 s. */
  lemma TooFastAsIntegers(d: nat, seconds: int)
    requires seconds > 0
    ensures TooFast(d, seconds) <==> 6 * d > 25 * seconds
  {
    var ds, ss := d as real, seconds as real;
    var q := ds / ss;
    assert q * ss == ds;
    Rearrange(q, 3.6, ss);
    Statistics.ScaleStrict(q * 3.6, 15.0, ss);
    assert ds * 3.6 > 15.0 * ss <==> (6 * d) as real > (25 * seconds) as real;
  }

  lemma Rearrange(q: real, k: real, c: real)
    ensures (q * k) * c == (q * c) * k
  {
  }

  /** Floor number from an altitude; no altitude (or altitude 0) gives none, and the estimate
      never goes below the ground floor. */
  function EstimateFloor(altitude: Option<real>, groundLevelAltitude: real := 200.0): (r: Option<int>)
    ensures r.None? <==> altitude.None? || altitude.value == 0.0
    ensures r.Some? ==> r.value >= 0
    ensures r.Some? && altitude.value >= groundLevelAltitude ==>
              r.value * 3 <= (altitude.value - groundLevelAltitude).Floor < r.value * 3 + 3
    ensures r.Some? && altitude.value < groundLevelAltitude ==> r.value == 0
  {
    if altitude.None? || altitude.value == 0.0 then None
    else Some(Max(0, ((altitude.value - groundLevelAltitude) / 3.0).Floor))
  }

  /** Cutting position `k` out of a sequence without repeats leaves one without repeats that
      holds every other element. */
  lemma CutOut(s: seq<string>, k: nat)
    requires k < |s| && forall i, j :: 0 <= i < j < |s| ==> s[i] != s[j]
    ensures var r := s[..k] + s[k + 1..];
            && (forall i, j :: 0 <= i < j < |r| ==> r[i] != r[j])
            && (forall id :: id in r <==> id in s && id != s[k])
  {
    var r := s[..k] + s[k + 1..];
    assert forall i :: 0 <= i < |r| ==> r[i] == s[if i < k then i else i + 1];
    forall id | id in s && id != s[k]
      ensures id in r
    {
      var i :| 0 <= i < |s| && s[i] == id;
      assert r[if i < k then i else i - 1] == id;
    }
  }

  function DefaultRooms(): seq<(string, Room)> {
    [("ROOM_101", Room(Point(28.6139, 77.2090), 20, Some(1), Some("A"))),
     ("ROOM_102", Room(Point(28.6140, 77.2091), 20, Some(1), Some("A"))),
     ("LAB_201", Room(Point(28.6141, 77.2092), 25, Some(2), Some("B")))]
  }

  predicate DistinctIds(pairs: seq<(string, Room)>) {
    forall i, j :: 0 <= i < j < |pairs| ==> pairs[i].0 != pairs[j].0
  }

  lemma DefaultRoomsDistinct()
    ensures DistinctIds(DefaultRooms())
  {
    var rooms := DefaultRooms();
    assert rooms[0].0 == "ROOM_101" && rooms[1].0 == "ROOM_102" && rooms[2].0 == "LAB_201";
  }

  function IdsOf(pairs: seq<(string, Room)>): (ids: seq<string>)
    ensures |ids| == |pairs| && forall i :: 0 <= i < |pairs| ==> ids[i] == pairs[i].0
  {
    if pairs == [] then [] else IdsOf(pairs[..|pairs| - 1]) + [pairs[|pairs| - 1].0]
  }

  function TableOf(pairs: seq<(string, Room)>): (m: map<string, Room>)
    ensures forall id :: id in m <==> exists i :: 0 <= i < |pairs| && pairs[i].0 == id
    ensures DistinctIds(pairs) ==> forall i :: 0 <= i < |pairs| ==> m[pairs[i].0] == pairs[i].1
  {
    if pairs == [] then map[]
    else
      var m := TableOf(pairs[..|pairs| - 1]);
      var last := pairs[|pairs| - 1];
      assert forall i :: 0 <= i < |pairs| - 1 ==> pairs[..|pairs| - 1][i] == pairs[i];
      m[last.0 := last.1]
  }

  /** A table with distinct ids enumerates each of its rooms exactly once. */
  lemma TableMatchesIds(pairs: seq<(string, Room)>)
    requires DistinctIds(pairs)
    ensures var ids := IdsOf(pairs);
            (forall i, j :: 0 <= i < j < |ids| ==> ids[i] != ids[j]) &&
            (forall id :: id in TableOf(pairs) <==> id in ids)
  {
    var ids := IdsOf(pairs);
    forall id | id in ids
      ensures id in TableOf(pairs)
    {
      var i :| 0 <= i < |ids| && ids[i] == id;
      assert pairs[i].0 == id;
    }
  }

  class GeofencingService {
    const distance: (Point, Point) -> nat
    const defaultRadius: int
    /** Room ids in insertion order (the order in which the table's entries are enumerated). */
    var order: seq<string>
    var classrooms: map<string, Room>

    ghost predicate Valid()
      reads this
    {
      (forall i, j :: 0 <= i < j < |order| ==> order[i] != order[j]) &&
      (forall id :: id in classrooms <==> id in order)
    }

    /** `envRadius` and `configured` are the deployment's overrides; without a usable table the
        three default rooms are loaded, and a missing or zero radius setting gives 20 m. */
    constructor (distance: (Point, Point) -> nat, envRadius: Option<int>,
                 configured: Option<seq<(string, Room)>>)
      requires configured.Some? ==> DistinctIds(configured.value)
      ensures Valid()
      ensures this.distance == distance
      ensures defaultRadius == if envRadius.Some? && envRadius.value != 0 then envRadius.value else 20
      ensures order == IdsOf(configured.GetOr(DefaultRooms()))
      ensures classrooms == TableOf(configured.GetOr(DefaultRooms()))
    {
      var pairs := configured.GetOr(DefaultRooms());
      this.distance := distance;
      defaultRadius := if envRadius.Some? && envRadius.value != 0 then envRadius.value else 20;
      order := IdsOf(pairs);
      classrooms := TableOf(pairs);
      new;
      if configured.None? {
        DefaultRoomsDistinct();
      }
      TableMatchesIds(pairs);
    }

    /** The room with the smallest distance to `loc`; on ties the one enumerated first; none
        for an empty table. `at` is the winner's position in the enumeration. */
    method GetNearestClassroom(loc: Location) returns (nearest: Option<Nearest>, ghost at: nat)
      requires Valid()
      ensures nearest.None? <==> classrooms == map[]
      ensures nearest.Some? ==>
        && at < |order| && order[at] == nearest.value.id
        && nearest.value.id in classrooms && nearest.value.room == classrooms[nearest.value.id]
        && nearest.value.distance == distance(loc.point, nearest.value.room.center)
        && (forall id :: id in classrooms ==> nearest.value.distance <= distance(loc.point, classrooms[id].center))
        && (forall i :: 0 <= i < at ==> distance(loc.point, classrooms[order[i]].center) > nearest.value.distance)
    {
      nearest := None;
      at := 0;
      var k := 0;
      while k < |order|
        invariant 0 <= k <= |order|
        invariant nearest.None? <==> k == 0
        invariant nearest.Some? ==>
          && at < k && order[at] == nearest.value.id
          && nearest.value.room == classrooms[nearest.value.id]
          && nearest.value.distance == distance(loc.point, nearest.value.room.center)
          && (forall i :: 0 <= i < k ==> nearest.value.distance <= distance(loc.point, classrooms[order[i]].center))
          && (forall i :: 0 <= i < at ==> distance(loc.point, classrooms[order[i]].center) > nearest.value.distance)
      {
        var id := order[k];
        var room := classrooms[id];
        var d := distance(loc.point, room.center);
        if nearest.None? || d < nearest.value.distance {
          nearest := Some(Nearest(id, room, d));
          at := k;
        }
        k := k + 1;
      }
      if nearest.None? {
        assert forall id :: id !in classrooms;
        assert classrooms.Keys == {};
      } else {
        assert order[at] in classrooms;
        forall id | id in classrooms
          ensures nearest.value.distance <= distance(loc.point, classrooms[id].center)
        {
          assert id in order;
          var i :| 0 <= i < |order| && order[i] == id;
        }
      }
    }

    /** Whether `loc` is within `campusRadius` of `campusCenter` (defaults 28.6139, 77.2090 and 1000 m). */
    function IsOnCampus(loc: Location, campusCenter: Point, campusRadius: int): (r: Campus)
      ensures r.distanceFromCenter == distance(loc.point, campusCenter)
      ensures r.onCampus <==> r.distanceFromCenter <= campusRadius
      ensures r.campusRadius == campusRadius
    {
      var d := distance(loc.point, campusCenter);
      Campus(d <= campusRadius, d, campusRadius)
    }

    /** Without a previous position the move is consistent; otherwise it is inconsistent exactly
        when the implied speed exceeds 15 km/h. */
    function CheckLocationConsistency(previous: Option<Location>, current: Location,
                                      timeElapsedSeconds: int): (r: Consistency)
      ensures previous.None? ==> r == Consistency(true, None)
      ensures previous.Some? ==> r.distance == Some(distance(previous.value.point, current.point))
      ensures previous.Some? ==>
                (!r.consistent <==> TooFast(distance(previous.value.point, current.point), timeElapsedSeconds))
    {
      if previous.None? then Consistency(true, None)
      else
        var d := distance(previous.value.point, current.point);
        Consistency(!TooFast(d, timeElapsedSeconds), Some(d))
    }

    /** Adds a room, or replaces the room of that id keeping its place in the enumeration. */
    method AddClassroom(classroomId: string, config: RoomConfig) returns (room: Room)
      requires Valid()
      modifies this
      ensures Valid()
      ensures room == ConfiguredRoom(config, defaultRadius)
      ensures classrooms == old(classrooms)[classroomId := room]
      ensures order == if classroomId in old(classrooms) then old(order) else old(order) + [classroomId]
    {
      room := ConfiguredRoom(config, defaultRadius);
      if classroomId !in classrooms {
        order := order + [classroomId];
      }
      classrooms := classrooms[classroomId := room];
    }

    /** Merges `updates` into an existing room; an unknown id fails and changes nothing. */
    method UpdateClassroom(classroomId: string, updates: RoomUpdate) returns (ok: bool, room: Option<Room>)
      requires Valid()
      modifies this
      ensures Valid()
      ensures ok <==> classroomId in old(classrooms)
      ensures !ok ==> room.None? && classrooms == old(classrooms)
      ensures ok ==> room == Some(Merged(old(classrooms)[classroomId], updates)) &&
                     classrooms == old(classrooms)[classroomId := room.value]
      ensures order == old(order)
    {
      if classroomId !in classrooms {
        return false, None;
      }
      var merged := Merged(classrooms[classroomId], updates);
      classrooms := classrooms[classroomId := merged];
      ok, room := true, Some(merged);
    }

    /** Removes a room; an unknown id fails and changes nothing. The other rooms keep their
        insertion order: the id is cut out of the order where it stood. */
    method DeleteClassroom(classroomId: string) returns (ok: bool)
      requires Valid()
      modifies this
      ensures Valid()
      ensures ok <==> classroomId in old(classrooms)
      ensures classrooms == old(classrooms) - {classroomId}
      ensures !ok ==> order == old(order)
      ensures ok ==> exists k :: 0 <= k < |old(order)| && old(order)[k] == classroomId &&
                                order == old(order)[..k] + old(order)[k + 1..]
      ensures forall id :: id in order <==> id in old(order) && id != classroomId
    {
      if classroomId !in classrooms {
        return false;
      }
      var k := 0;
      while order[k] != classroomId
        invariant 0 <= k < |order| && classroomId in order[k..]
        decreases |order| - k
      {
        k := k + 1;
      }
      CutOut(order, k);
      order := order[..k] + order[k + 1..];
      classrooms := classrooms - {classroomId};
      ok := true;
    }
  }
}
