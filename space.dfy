/** The space registry: floors and the meeting rooms on them. */
module Space {
  import opened Errors
  import opened Authorization
  import opened Users

  datatype FloorRecord = FloorRecord(roomsCount: int)

  datatype RoomRecord = RoomRecord(
    name: string,
    floor: int,
    capacity: int,
    hasProjector: bool,
    isAvailable: bool)

  /** A floor lookup: floor number 0 counts as a missing parameter. */
  function FloorDetails(floors: map<int, FloorRecord>, number: int): (r: Result<Option<FloorRecord>>)
    ensures number == 0 <==> r == Err(RequiredParameter)
    ensures number != 0 && number in floors ==> r == Ok(Some(floors[number]))
    ensures number != 0 && number !in floors ==> r == Ok(None)
  {
    if number == 0 then Err(RequiredParameter)
    else if number in floors then Ok(Some(floors[number]))
    else Ok(None)
  }

  /** A floor created under number 0 exists but can never be looked up. */
  lemma FloorZeroUnreachable(floors: map<int, FloorRecord>)
    requires 0 in floors
    ensures FloorDetails(floors, 0) == Err(RequiredParameter)
  {
  }

  /** A room lookup by name: an empty name is refused. */
  function RoomDetails(rooms: map<string, RoomRecord>, name: string): (r: Result<Option<RoomRecord>>)
    ensures name == "" <==> r == Err(RequiredParameter)
    ensures name != "" && name in rooms ==> r == Ok(Some(rooms[name]))
    ensures name != "" && name !in rooms ==> r == Ok(None)
  {
    if name == "" then Err(RequiredParameter)
    else if name in rooms then Ok(Some(rooms[name]))
    else Ok(None)
  }

  /** The room filter: a capacity threshold that is absent or zero passes
      every room, and so does a projector requirement that is false. */
  predicate Admits(room: RoomRecord, capacity: Option<int>, projectorRequired: bool)
  {
    && (capacity.None? || capacity.value == 0 || room.capacity >= capacity.value)
    && (!projectorRequired || room.hasProjector)
  }

  /** The rooms that meet the filters, in two passes as the registry does:
      first by capacity, then by projector. */
  function ListRooms(rooms: map<string, RoomRecord>, capacity: Option<int>, projectorRequired: bool): (r: map<string, RoomRecord>)
    ensures forall n :: n in r <==> n in rooms && Admits(rooms[n], capacity, projectorRequired)
    ensures forall n :: n in r ==> r[n] == rooms[n]
  {
    var byCapacity :=
      if capacity.Some? && capacity.value != 0
      then map n | n in rooms && rooms[n].capacity >= capacity.value :: rooms[n]
      else rooms;
    if projectorRequired
    then map n | n in byCapacity && byCapacity[n].hasProjector :: byCapacity[n]
    else byCapacity
  }

  /** The floors of the building, and for each floor the room last added to it. */
  class Floors {
    const directory: Directory
    var floors: map<int, FloorRecord>
    var floorRoom: map<int, set<string>>

    constructor (directory: Directory)
      ensures this.directory == directory
      ensures floors == map[] && floorRoom == map[]
    {
      this.directory := directory;
      floors, floorRoom := map[], map[];
    }

    /** Creates a floor: the requestor needs manage_floors and the number must
        be new; the floor starts with the room count the caller gives. */
    method CreateFloor(requestor: string, number: int, roomsCount: int) returns (r: Outcome)
      modifies this`floors
      ensures r == (match RequestorPermissions(directory.users, requestor)
                    case Err(e) => Fail(e)
                    case Ok(d) =>
                      if !CanManageFloors(d) then Fail(Authorization)
                      else if number in old(floors) then Fail(Duplicate)
                      else Done)
      ensures r.Fail? ==> floors == old(floors)
      ensures r.Done? ==> floors == old(floors)[number := FloorRecord(roomsCount)]
    {
      var details := RequestorPermissions(directory.users, requestor);
      if details.Err? { return Fail(details.error); }
      if !CanManageFloors(details.value) { return Fail(Authorization); }
      if number in floors { return Fail(Duplicate); }
      floors := floors[number := FloorRecord(roomsCount)];
      r := Done;
    }

    /** Adds one to a floor's room count; the requested increment is ignored. */
    method IncreaseRoomCount(floor: int, incrementCount: int)
      requires floor in floors
      modifies this`floors
      ensures floors == old(floors)[floor := FloorRecord(old(floors)[floor].roomsCount + 1)]
    {
      floors := floors[floor := FloorRecord(floors[floor].roomsCount + 1)];
    }

    /** Takes one from a floor's room count; the requested decrement is ignored. */
    method DecreaseRoomCount(floor: int, incrementCount: int)
      requires floor in floors
      modifies this`floors
      ensures floors == old(floors)[floor := FloorRecord(old(floors)[floor].roomsCount - 1)]
    {
      floors := floors[floor := FloorRecord(floors[floor].roomsCount - 1)];
    }

    /** Records a room as the floor's only room (any room recorded before is
        dropped) and raises the floor's room count. The grouping is written
        before the count is read, so for an unknown floor the grouping changes
        and the call then fails on the missing floor. */
    method AddRoomToFloor(floor: int, room: string) returns (r: Outcome)
      modifies this`floors, this`floorRoom
      ensures floorRoom == old(floorRoom)[floor := {room}]
      ensures floor in old(floors) ==> r == Done && floors == old(floors)[floor := FloorRecord(old(floors)[floor].roomsCount + 1)]
      ensures floor !in old(floors) ==> r == Fail(MissingKey) && floors == old(floors)
    {
      floorRoom := floorRoom[floor := {room}];
      if floor !in floors { return Fail(MissingKey); }
      IncreaseRoomCount(floor, 1);
      r := Done;
    }
  }

  /** The meeting rooms of the building, keyed by name across all floors. */
  class Rooms {
    const directory: Directory
    const floorRegistry: Floors
    var rooms: map<string, RoomRecord>

    /** Every room is stored under its own name and stands on an existing floor. */
    ghost predicate Valid()
      reads this, floorRegistry
    {
      forall n :: n in rooms ==> rooms[n].name == n && rooms[n].floor in floorRegistry.floors
    }

    constructor (directory: Directory, floorRegistry: Floors)
      ensures this.directory == directory && this.floorRegistry == floorRegistry
      ensures rooms == map[] && Valid()
    {
      this.directory := directory;
      this.floorRegistry := floorRegistry;
      rooms := map[];
    }

    /** Creates a room: the requestor needs manage_rooms, the name must be new
        in the whole building and the floor must exist; the room is then
        attached to its floor, whose room count goes up by one. */
    method CreateRoom(requestor: string, name: string, floor: int, capacity: int, hasProjector: bool) returns (r: Outcome)
      requires Valid()
      modifies this`rooms, floorRegistry`floors, floorRegistry`floorRoom
      ensures Valid()
      ensures r == (match RequestorPermissions(directory.users, requestor)
                    case Err(e) => Fail(e)
                    case Ok(d) =>
                      if !CanManageRooms(d) then Fail(Authorization)
                      else if name in old(rooms) then Fail(Duplicate)
                      else if floor == 0 then Fail(RequiredParameter)
                      else if floor !in old(floorRegistry.floors) then Fail(NotFound)
                      else Done)
      ensures r.Fail? ==> (rooms == old(rooms) && floorRegistry.floors == old(floorRegistry.floors)
                           && floorRegistry.floorRoom == old(floorRegistry.floorRoom))
      ensures r.Done? ==> (rooms == old(rooms)[name := RoomRecord(name, floor, capacity, hasProjector, true)]
                           && floorRegistry.floors == old(floorRegistry.floors)[floor :=
                                FloorRecord(old(floorRegistry.floors)[floor].roomsCount + 1)]
                           && floorRegistry.floorRoom == old(floorRegistry.floorRoom)[floor := {name}])
    {
      var details := RequestorPermissions(directory.users, requestor);
      if details.Err? { return Fail(details.error); }
      if !CanManageRooms(details.value) { return Fail(Authorization); }
      if name in rooms { return Fail(Duplicate); }
      var floorDetails := FloorDetails(floorRegistry.floors, floor);
      if floorDetails.Err? { return Fail(floorDetails.error); }
      if floorDetails.value.None? { return Fail(NotFound); }
      rooms := rooms[name := RoomRecord(name, floor, capacity, hasProjector, true)];
      r := floorRegistry.AddRoomToFloor(floor, name);
    }
  }
}
