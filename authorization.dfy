/** Permission sets and the pure decisions taken over them.
    A permission set is a map from permission names to a value; only the
    presence of a name grants anything, the value is never looked at. */
module Authorization {
  import opened Errors

  type Permissions = map<string, int>

  const ManageUsers: string := "manage_users"
  const ManageOrganizations: string := "manage_organizations"
  const ManageFloors: string := "manage_floors"
  const ManageRooms: string := "manage_rooms"
  const ManageBookings: string := "manage_bookings"

  /** Permissions given to every admin account: everything except booking. */
  function AdminPermissions(): (p: Permissions)
    ensures p.Keys == {ManageUsers, ManageOrganizations, ManageFloors, ManageRooms}
    ensures ManageBookings !in p
  {
    map[ManageUsers := 1, ManageOrganizations := 1, ManageFloors := 1, ManageRooms := 1]
  }

  /** Permissions given to every organization member: booking only. */
  function MemberPermissions(): (p: Permissions)
    ensures p.Keys == {ManageBookings}
  {
    map[ManageBookings := 1]
  }

  /** The shared shape of the five decisions: no requestor, or a requestor
      without the name among its permissions, is denied. */
  predicate Grants(details: Option<Permissions>, name: string)
  {
    details.Some? && name in details.value
  }

  function CanManageUsers(details: Option<Permissions>): (r: bool)
    ensures details == None || details == Some(map[]) ==> !r
    ensures r <==> details.Some? && ManageUsers in details.value.Keys
  {
    Grants(details, ManageUsers)
  }

  function CanManageOrganizations(details: Option<Permissions>): (r: bool)
    ensures details == None || details == Some(map[]) ==> !r
    ensures r <==> details.Some? && ManageOrganizations in details.value.Keys
  {
    Grants(details, ManageOrganizations)
  }

  function CanManageFloors(details: Option<Permissions>): (r: bool)
    ensures details == None || details == Some(map[]) ==> !r
    ensures r <==> details.Some? && ManageFloors in details.value.Keys
  {
    Grants(details, ManageFloors)
  }

  function CanManageRooms(details: Option<Permissions>): (r: bool)
    ensures details == None || details == Some(map[]) ==> !r
    ensures r <==> details.Some? && ManageRooms in details.value.Keys
  {
    Grants(details, ManageRooms)
  }

  function CanManageBookings(details: Option<Permissions>): (r: bool)
    ensures details == None || details == Some(map[]) ==> !r
    ensures r <==> details.Some? && ManageBookings in details.value.Keys
  {
    Grants(details, ManageBookings)
  }

  /** Two permission maps with the same names decide every action alike,
      whatever values they store. */
  lemma ValuesNeverInspected(p: Permissions, q: Permissions)
    requires p.Keys == q.Keys
    ensures CanManageUsers(Some(p)) == CanManageUsers(Some(q))
    ensures CanManageOrganizations(Some(p)) == CanManageOrganizations(Some(q))
    ensures CanManageFloors(Some(p)) == CanManageFloors(Some(q))
    ensures CanManageRooms(Some(p)) == CanManageRooms(Some(q))
    ensures CanManageBookings(Some(p)) == CanManageBookings(Some(q))
  {
  }

  /** Admins manage users, organizations, floors and rooms, but cannot book. */
  lemma AdminRights()
    ensures CanManageUsers(Some(AdminPermissions()))
    ensures CanManageOrganizations(Some(AdminPermissions()))
    ensures CanManageFloors(Some(AdminPermissions()))
    ensures CanManageRooms(Some(AdminPermissions()))
    ensures !CanManageBookings(Some(AdminPermissions()))
  {
  }

  /** Members can book, and can manage nothing else. */
  lemma MemberRights()
    ensures CanManageBookings(Some(MemberPermissions()))
    ensures !CanManageUsers(Some(MemberPermissions()))
    ensures !CanManageOrganizations(Some(MemberPermissions()))
    ensures !CanManageFloors(Some(MemberPermissions()))
    ensures !CanManageRooms(Some(MemberPermissions()))
  {
  }
}
