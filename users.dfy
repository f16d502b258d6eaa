/** The directory of organizations and users, and the per-organization
    monthly booking-hour counters. */
module Users {
  import opened Errors
  import opened Authorization

  datatype Role = Admin | Member

  datatype UserRecord = UserRecord(
    email: string,
    fullName: string,
    role: Role,
    permissions: Permissions,
    organization: string)

  datatype OrganizationRecord = OrganizationRecord(name: string, contactInfo: string)

  /** Lower-casing of one character (ASCII letters only). */
  function LowerChar(c: char): (r: char)
    ensures 'A' <= c <= 'Z' ==> r as int == c as int + 32
    ensures !('A' <= c <= 'Z') ==> r == c
    ensures !('A' <= r <= 'Z')
  {
    if 'A' <= c <= 'Z' then (c as int + 32) as char else c
  }

  function Lower(s: string): (r: string)
    ensures |r| == |s|
    ensures forall i :: 0 <= i < |s| ==> r[i] == LowerChar(s[i])
  {
    seq(|s|, i requires 0 <= i < |s| => LowerChar(s[i]))
  }

  predicate IsLower(s: string)
  {
    forall i :: 0 <= i < |s| ==> !('A' <= s[i] <= 'Z')
  }

  /** Lower-casing gives a lower-case text, leaves lower-case text alone,
      and empties only the empty text. */
  lemma LowerProperties(s: string)
    ensures IsLower(Lower(s))
    ensures Lower(Lower(s)) == Lower(s)
    ensures IsLower(s) ==> Lower(s) == s
    ensures Lower(s) == "" <==> s == ""
  {
    assert forall i :: 0 <= i < |s| ==> Lower(Lower(s))[i] == Lower(s)[i];
    if IsLower(s) {
      assert forall i :: 0 <= i < |s| ==> Lower(s)[i] == s[i];
    }
  }

  /** A user lookup by email: an empty email is refused, an unknown one is None. */
  function UserDetails(users: map<string, UserRecord>, email: string): (r: Result<Option<UserRecord>>)
    ensures email == "" <==> r == Err(RequiredParameter)
    ensures email != "" && email in users ==> r == Ok(Some(users[email]))
    ensures email != "" && email !in users ==> r == Ok(None)
  {
    if email == "" then Err(RequiredParameter)
    else if email in users then Ok(Some(users[email]))
    else Ok(None)
  }

  /** The organization of a user, who must be known under exactly that email. */
  function OrganizationOfUser(users: map<string, UserRecord>, email: string): (r: Result<string>)
    ensures email in users <==> r.Ok?
    ensures email in users ==> r.value == users[email].organization
    ensures email !in users ==> r.error == NotFound
  {
    if email in users then Ok(users[email].organization) else Err(NotFound)
  }

  function OrganizationDetails(organizations: map<string, OrganizationRecord>, name: string): (r: Result<Option<OrganizationRecord>>)
    ensures name == "" <==> r == Err(RequiredParameter)
    ensures name != "" && name in organizations ==> r == Ok(Some(organizations[name]))
    ensures name != "" && name !in organizations ==> r == Ok(None)
  {
    if name == "" then Err(RequiredParameter)
    else if name in organizations then Ok(Some(organizations[name]))
    else Ok(None)
  }

  /** The permissions of a looked-up user, for the authorization decisions. */
  function PermissionsOf(details: Option<UserRecord>): (r: Option<Permissions>)
    ensures details.None? <==> r.None?
    ensures details.Some? ==> r.value == details.value.permissions
  {
    match details
    case None => None
    case Some(u) => Some(u.permissions)
  }

  /** What an authorization check is given for a requestor: the permissions
      of the user found under the lower-cased requestor, or None. */
  function RequestorPermissions(users: map<string, UserRecord>, requestor: string): (r: Result<Option<Permissions>>)
    ensures requestor == "" <==> r == Err(RequiredParameter)
    ensures requestor != "" && Lower(requestor) in users ==> r == Ok(Some(users[Lower(requestor)].permissions))
    ensures requestor != "" && Lower(requestor) !in users ==> r == Ok(None)
  {
    LowerProperties(requestor);
    match UserDetails(users, Lower(requestor))
    case Err(e) => Err(e)
    case Ok(d) => Ok(PermissionsOf(d))
  }

  /** The counter key of an organization for one month ("mm-YYYY"). */
  function OrgBookingKey(organization: string, monthYear: string): (k: string)
    ensures |k| == |organization| + |monthYear|
    ensures k[..|organization|] == organization && k[|organization|..] == monthYear
  {
    organization + monthYear
  }

  /** With month texts of one fixed length (the clock always gives "mm-YYYY"),
      distinct organization-month pairs have distinct counters. */
  lemma OrgBookingKeyInjective(o1: string, m1: string, o2: string, m2: string)
    requires |m1| == |m2|
    requires OrgBookingKey(o1, m1) == OrgBookingKey(o2, m2)
    ensures o1 == o2 && m1 == m2
  {
    var k := OrgBookingKey(o1, m1);
    assert o1 == k[..|o1|] == o2;
  }

  /** A counter read: an absent key counts as zero. */
  function Hours(hours: map<string, int>, key: string): (r: int)
    ensures key in hours ==> r == hours[key]
    ensures key !in hours ==> r == 0
  {
    if key in hours then hours[key] else 0
  }

  /** The counters after one booking: the old value plus one. */
  function Incremented(hours: map<string, int>, key: string): (h: map<string, int>)
    ensures h.Keys == hours.Keys + {key}
    ensures Hours(h, key) == Hours(hours, key) + 1
    ensures forall k :: k in hours && k != key ==> h[k] == hours[k]
  {
    hours[key := Hours(hours, key) + 1]
  }

  /** The counters after one cancellation: the old value minus one, but a
      zero (or absent) counter stays at zero. */
  function Decremented(hours: map<string, int>, key: string): (h: map<string, int>)
    ensures h.Keys == hours.Keys + {key}
    ensures Hours(hours, key) != 0 ==> Hours(h, key) == Hours(hours, key) - 1
    ensures Hours(hours, key) == 0 ==> Hours(h, key) == 0
    ensures forall k :: k in hours && k != key ==> h[k] == hours[k]
  {
    hours[key := if Hours(hours, key) != 0 then Hours(hours, key) - 1 else 0]
  }

  predicate NonNegative(hours: map<string, int>)
  {
    forall k :: k in hours ==> hours[k] >= 0
  }

  /** Counters never go negative, and a booking followed by its cancellation
      reads back as the value before, for every key. */
  lemma CounterProperties(hours: map<string, int>, key: string, other: string)
    requires NonNegative(hours)
    ensures NonNegative(Incremented(hours, key)) && NonNegative(Decremented(hours, key))
    ensures Hours(Decremented(Incremented(hours, key), key), other) == Hours(hours, other)
    ensures other != key ==> Hours(Incremented(hours, key), other) == Hours(hours, other)
    ensures other != key ==> Hours(Decremented(hours, key), other) == Hours(hours, other)
  {
  }

  /** A decrement of a negative counter goes further down: the floor at zero
      only catches a counter that is exactly zero. */
  lemma DecrementBelowZero(hours: map<string, int>, key: string)
    requires Hours(hours, key) < 0
    ensures Hours(Decremented(hours, key), key) == Hours(hours, key) - 1
  {
  }

  /** A second counter of the same organization with another month text is
      independent of the first, whatever the lengths of the month texts. */
  lemma MonthsIndependent(hours: map<string, int>, organization: string, m1: string, m2: string)
    requires m1 != m2
    ensures Hours(Incremented(hours, OrgBookingKey(organization, m1)), OrgBookingKey(organization, m2))
         == Hours(hours, OrgBookingKey(organization, m2))
    ensures Hours(Decremented(hours, OrgBookingKey(organization, m1)), OrgBookingKey(organization, m2))
         == Hours(hours, OrgBookingKey(organization, m2))
  {
  }

  /** The two tables of organizations and users and the counters, held together
      because creating a user consults the organizations and creating an
      organization consults the users. */
  class Directory {
    var organizations: map<string, OrganizationRecord>
    var orgUserMap: map<string, set<string>>
    var orgBookingHours: map<string, int>
    var users: map<string, UserRecord>

    /** Every organization has a member set; users are stored under their own
        lower-case email; admins carry admin permissions and no organization;
        members carry member permissions and belong to a known organization. */
    ghost predicate Valid()
      reads this
    {
      && orgUserMap.Keys == organizations.Keys
      && NonNegative(orgBookingHours)
      && forall e :: e in users ==> UserWellFormed(e, users[e])
    }

    ghost predicate UserWellFormed(e: string, u: UserRecord)
      reads this
    {
      && u.email == e && IsLower(e)
      && (u.role == Admin ==> u.permissions == AdminPermissions() && u.organization == "")
      && (u.role == Member ==> u.permissions == MemberPermissions()
                                && u.organization in organizations
                                && u.organization in orgUserMap
                                && e in orgUserMap[u.organization])
    }

    constructor ()
      ensures Valid()
      ensures organizations == map[] && orgUserMap == map[] && orgBookingHours == map[] && users == map[]
    {
      organizations, orgUserMap, orgBookingHours, users := map[], map[], map[], map[];
    }

    /** Registers an organization: the requestor needs manage_organizations and
        the name must be new; an empty member set is created for it. */
    method CreateOrganization(requestor: string, name: string, contactInfo: string) returns (r: Outcome)
      requires Valid()
      modifies this`organizations, this`orgUserMap
      ensures Valid()
      ensures r == (match RequestorPermissions(old(users), requestor)
                    case Err(e) => Fail(e)
                    case Ok(d) =>
                      if !CanManageOrganizations(d) then Fail(Authorization)
                      else if name in old(organizations) then Fail(Duplicate)
                      else Done)
      ensures r.Fail? ==> organizations == old(organizations) && orgUserMap == old(orgUserMap)
      ensures r.Done? ==> (organizations == old(organizations)[name := OrganizationRecord(name, contactInfo)]
                       && orgUserMap == old(orgUserMap)[name := {}])
    {
      var details := RequestorPermissions(users, requestor);
      if details.Err? { return Fail(details.error); }
      if !CanManageOrganizations(details.value) { return Fail(Authorization); }
      if name in organizations { return Fail(Duplicate); }
      organizations := organizations[name := OrganizationRecord(name, contactInfo)];
      AddOrganizationToMapping(name);
      r := Done;
    }

    /** Starts the empty member set of a new organization. */
    method AddOrganizationToMapping(name: string)
      modifies this`orgUserMap
      ensures orgUserMap == old(orgUserMap)[name := {}]
    {
      orgUserMap := orgUserMap[name := {}];
    }

    /** Records a user as a member of an existing organization. */
    method AddUserToOrganization(organization: string, email: string)
      requires organization in orgUserMap
      modifies this`orgUserMap
      ensures orgUserMap == old(orgUserMap)[organization := old(orgUserMap)[organization] + {email}]
    {
      orgUserMap := orgUserMap[organization := orgUserMap[organization] + {email}];
    }

    /** Registers an admin account under the lower-cased email, with no
        permission check; only an existing email is refused. */
    method CreateAdminUser(email: string, fullName: string) returns (r: Outcome)
      requires Valid()
      modifies this`users
      ensures Valid()
      ensures r == (if Lower(email) in old(users) then Fail(Duplicate) else Done)
      ensures r.Fail? ==> users == old(users)
      ensures r.Done? ==> users == old(users)[Lower(email) :=
                UserRecord(Lower(email), fullName, Admin, AdminPermissions(), "")]
    {
      var key := Lower(email);
      if key in users { return Fail(Duplicate); }
      LowerProperties(email);
      users := users[key := UserRecord(key, fullName, Admin, AdminPermissions(), "")];
      r := Done;
    }

    /** Registers a member of an organization: the requestor needs
        manage_users, the lower-cased email must be new and the organization
        must exist; the user is also added to the organization's member set. */
    method CreateUser(requestor: string, email: string, fullName: string, organization: string) returns (r: Outcome)
      requires Valid()
      modifies this`users, this`orgUserMap
      ensures Valid()
      ensures r == (match RequestorPermissions(old(users), requestor)
                    case Err(e) => Fail(e)
                    case Ok(d) =>
                      if !CanManageUsers(d) then Fail(Authorization)
                      else if Lower(email) in old(users) then Fail(Duplicate)
                      else if organization == "" then Fail(RequiredParameter)
                      else if organization !in organizations then Fail(NotFound)
                      else Done)
      ensures r.Fail? ==> users == old(users) && orgUserMap == old(orgUserMap)
      ensures r.Done? ==> (users == old(users)[Lower(email) :=
                UserRecord(Lower(email), fullName, Member, MemberPermissions(), organization)]
                       && orgUserMap == old(orgUserMap)[organization := old(orgUserMap)[organization] + {Lower(email)}])
    {
      var key := Lower(email);
      var details := RequestorPermissions(users, requestor);
      if details.Err? { return Fail(details.error); }
      if !CanManageUsers(details.value) { return Fail(Authorization); }
      if key in users { return Fail(Duplicate); }
      var org := OrganizationDetails(organizations, organization);
      if org.Err? { return Fail(org.error); }
      if org.value.None? { return Fail(NotFound); }
      LowerProperties(email);
      users := users[key := UserRecord(key, fullName, Member, MemberPermissions(), organization)];
      AddUserToOrganization(organization, key);
      r := Done;
    }

    /** Counts one more booking hour for an organization in a month. */
    method IncreaseBookingHours(organization: string, monthYear: string)
      requires NonNegative(orgBookingHours)
      modifies this`orgBookingHours
      ensures NonNegative(orgBookingHours)
      ensures orgBookingHours == Incremented(old(orgBookingHours), OrgBookingKey(organization, monthYear))
    {
      var key := OrgBookingKey(organization, monthYear);
      var count := Hours(orgBookingHours, key);
      if count != 0 {
        count := count + 1;
        orgBookingHours := orgBookingHours[key := count];
      } else {
        orgBookingHours := orgBookingHours[key := 1];
      }
      CounterProperties(old(orgBookingHours), key, key);
    }

    /** Counts one booking hour less, flooring a zero counter at zero. */
    method DecreaseBookingHours(organization: string, monthYear: string)
      requires NonNegative(orgBookingHours)
      modifies this`orgBookingHours
      ensures NonNegative(orgBookingHours)
      ensures orgBookingHours == Decremented(old(orgBookingHours), OrgBookingKey(organization, monthYear))
    {
      var key := OrgBookingKey(organization, monthYear);
      var count := Hours(orgBookingHours, key);
      if count != 0 {
        count := count - 1;
        orgBookingHours := orgBookingHours[key := count];
      } else {
        orgBookingHours := orgBookingHours[key := 0];
      }
      CounterProperties(old(orgBookingHours), key, key);
    }
  }
}
