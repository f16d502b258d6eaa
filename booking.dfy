/** The booking engine: the reservation table, its two indexes (by user and
    by organization) and the decisions taken when booking and cancelling. */
module Booking {
  import opened Errors
  import opened Authorization
  import opened Generic
  import opened Users
  import opened Space

  /** A time slot, a one-entry mapping from a start hour to an end hour. */
  datatype Slot = Slot(start: int, end: int)

  datatype BookingRecord = BookingRecord(
    slot: Slot,
    date: string,
    user: string,
    room: string,
    organization: string)

  type Key = string

  /** Index buckets: for each owner, the keys of its bookings in insertion order. */
  type Groups = map<string, seq<Key>>

  const Quota: int := 30
  const CancelCutoffMinutes: int := 15

  // ---------------------------------------------------------------------
  // Reservation keys

  function DigitChar(d: int): (c: char)
    requires 0 <= d < 10
    ensures '0' <= c <= '9'
  {
    ('0' as int + d) as char
  }

  /** Decimal text of a natural number, without leading zeros. */
  function NaturalText(n: nat): (s: string)
    ensures |s| >= 1
    ensures forall i :: 0 <= i < |s| ==> '0' <= s[i] <= '9'
    decreases n
  {
    if n < 10 then [DigitChar(n)] else NaturalText(n / 10) + [DigitChar(n % 10)]
  }

  function IntegerText(n: int): (s: string)
    ensures |s| >= 1
  {
    if n < 0 then "-" + NaturalText(-n) else NaturalText(n)
  }

  /** The text of a slot as the mapping prints, "{9: 10}". */
  function SlotText(s: Slot): (t: string)
    ensures |t| >= 6 && t[0] == '{' && t[|t| - 1] == '}'
  {
    "{" + IntegerText(s.start) + ": " + IntegerText(s.end) + "}"
  }

  /** The reservation key: room name, date text and slot text, concatenated. */
  function BookingKey(room: string, date: string, slot: Slot): (k: Key)
    ensures |k| == |room| + |date| + |SlotText(slot)| && k != ""
  {
    room + date + SlotText(slot)
  }

  /** The key starts with the room name, ends with the slot text, and has
      the date text in between. */
  lemma BookingKeyParts(room: string, date: string, slot: Slot)
    ensures var k := BookingKey(room, date, slot);
            && k[..|room|] == room && k[|room|..|room| + |date|] == date
            && k[|room| + |date|..] == SlotText(slot)
  {
  }

  /** Plain concatenation does not keep room and date apart: two different
      rooms on two different date texts can share one key. */
  lemma KeysCanCollide()
    ensures BookingKey("A1", "1-01-2030", Slot(9, 10)) == BookingKey("A11", "-01-2030", Slot(9, 10))
  {
    assert "A1" + "1-01-2030" == "A11" + "-01-2030";
  }

  /** For one room and one date text, the key determines the slot text. */
  lemma KeyDeterminesSlotText(room: string, date: string, s1: Slot, s2: Slot)
    requires BookingKey(room, date, s1) == BookingKey(room, date, s2)
    ensures SlotText(s1) == SlotText(s2)
  {
    BookingKeyParts(room, date, s1);
    BookingKeyParts(room, date, s2);
  }

  /** An omitted date means today. */
  function EffectiveDate(date: string, today: string): (d: string)
    ensures date != "" ==> d == date
    ensures date == "" ==> d == today
  {
    if date == "" then today else date
  }

  // ---------------------------------------------------------------------
  // Index buckets

  predicate NoDup(s: seq<Key>)
  {
    forall i, j :: 0 <= i < j < |s| ==> s[i] != s[j]
  }

  /** The bucket of an owner; an owner without one has no keys. */
  function Bucket(g: Groups, owner: string): (s: seq<Key>)
    ensures owner in g ==> s == g[owner]
    ensures owner !in g ==> s == []
  {
    if owner in g then g[owner] else []
  }

  /** The groups after a key is appended to one owner's bucket. */
  function Added(g: Groups, owner: string, key: Key): (r: Groups)
    ensures r.Keys == g.Keys + {owner}
    ensures Bucket(r, owner) == Bucket(g, owner) + [key]
    ensures forall o :: o in g && o != owner ==> r[o] == g[o]
  {
    g[owner := Bucket(g, owner) + [key]]
  }

  /** A bucket with one key taken out, the others kept in order. */
  function Without(s: seq<Key>, key: Key): (r: seq<Key>)
    ensures forall k :: k in r <==> k in s && k != key
    ensures |r| <= |s|
    ensures key !in s ==> r == s
    ensures NoDup(s) ==> NoDup(r)
  {
    if s == [] then []
    else if s[0] == key then Without(s[1..], key)
    else
      var rest := Without(s[1..], key);
      if NoDup(s) then PrependKeepsNoDup(s, rest); [s[0]] + rest
      else [s[0]] + rest
  }

  /** A bucket without repeats stays so when its first key goes in front of
      a selection of the keys after it. */
  lemma PrependKeepsNoDup(s: seq<Key>, rest: seq<Key>)
    requires s != [] && NoDup(s) && NoDup(rest)
    requires forall k :: k in rest ==> k in s[1..]
    ensures NoDup([s[0]] + rest)
  {
    assert s[0] !in s[1..];
    var t := [s[0]] + rest;
    forall i, j | 0 <= i < j < |t| ensures t[i] != t[j] {
      if i == 0 {
        assert t[j] == rest[j - 1];
        assert t[j] in rest;
      } else {
        assert t[i] == rest[i - 1] && t[j] == rest[j - 1];
      }
    }
  }

  /** Taking out a key that was just appended gives the bucket back. */
  lemma {:induction false} WithoutAppended(s: seq<Key>, key: Key)
    requires key !in s
    ensures Without(s + [key], key) == s
  {
    if s == [] {
      assert [] + [key] == [key];
    } else {
      assert (s + [key])[1..] == s[1..] + [key];
      WithoutAppended(s[1..], key);
    }
  }

  /** The groups after a key is taken out of one owner's bucket; an owner
      without a bucket is left alone. */
  function Removed(g: Groups, owner: string, key: Key): (r: Groups)
    ensures r.Keys == g.Keys
    ensures owner in g ==> r[owner] == Without(g[owner], key)
    ensures forall o :: o in g && o != owner ==> r[o] == g[o]
  {
    if owner in g then g[owner := Without(g[owner], key)] else g
  }

  /** Which index a bucket map is: by user, or by organization. */
  datatype IndexKind = ByUser | ByOrganization

  /** The owner of a record in one index. */
  function Owner(rec: BookingRecord, kind: IndexKind): (o: string)
    ensures kind == ByUser ==> o == rec.user
    ensures kind == ByOrganization ==> o == rec.organization
  {
    match kind
    case ByUser => rec.user
    case ByOrganization => rec.organization
  }

  /** A key is in the table exactly when it is in the bucket of the record's
      owner; it is in no other bucket, and no bucket repeats a key. */
  predicate IndexAgrees(b: map<Key, BookingRecord>, g: Groups, kind: IndexKind)
  {
    && (forall k :: k in b ==> Owner(b[k], kind) in g && k in g[Owner(b[k], kind)])
    && (forall o, k :: o in g && k in g[o] ==> k in b && Owner(b[k], kind) == o)
    && (forall o :: o in g ==> NoDup(g[o]))
  }

  /** Both indexes agree with the table. */
  predicate IndexesAgree(b: map<Key, BookingRecord>, ug: Groups, og: Groups)
  {
    IndexAgrees(b, ug, ByUser) && IndexAgrees(b, og, ByOrganization)
  }

  /** Every record's user is known and still belongs to the record's organization. */
  predicate OwnersKnown(b: map<Key, BookingRecord>, users: map<string, UserRecord>)
  {
    forall k :: k in b ==> b[k].user in users && users[b[k].user].organization == b[k].organization
  }

  /** The directory only ever adds users, so a new user table keeps every
      booking's owner known. */
  lemma OwnersKnownAsUsersGrow(b: map<Key, BookingRecord>, users: map<string, UserRecord>, users': map<string, UserRecord>)
    requires OwnersKnown(b, users)
    requires forall e :: e in users ==> e in users' && users'[e] == users[e]
    ensures OwnersKnown(b, users')
  {
  }

  /** Creating a user or an admin adds one fresh email to the user table;
      that keeps every part of the engine's invariant, which reads the table. */
  lemma NewUserKeepsEngineInvariant(b: map<Key, BookingRecord>, ug: Groups, og: Groups,
                                    users: map<string, UserRecord>, hours: map<string, int>,
                                    email: string, rec: UserRecord)
    requires IndexesAgree(b, ug, og) && OwnersKnown(b, users) && NonNegative(hours)
    requires email !in users
    ensures IndexesAgree(b, ug, og) && OwnersKnown(b, users[email := rec]) && NonNegative(hours)
  {
    OwnersKnownAsUsersGrow(b, users, users[email := rec]);
  }

  /** Every stored key is the key its record's room, date and slot make. */
  predicate KeysMatch(b: map<Key, BookingRecord>)
  {
    forall k :: k in b ==> k == BookingKey(b[k].room, b[k].date, b[k].slot)
  }

  /** An accepted booking stores its record under the key it makes. */
  lemma BookKeepsKeysMatch(b: map<Key, BookingRecord>, users: map<string, UserRecord>, requestor: string,
                           roomName: string, slot: Slot, date: string, today: string)
    requires KeysMatch(b)
    requires requestor in users
    ensures KeysMatch(b[BookingKey(roomName, EffectiveDate(date, today), slot) :=
                        NewRecord(users, requestor, roomName, slot, date, today)])
  {
  }

  /** Deleting a key keeps the remaining keys matching their records. */
  lemma CancelKeepsKeysMatch(b: map<Key, BookingRecord>, key: Key)
    requires KeysMatch(b)
    ensures KeysMatch(b - {key})
  {
  }

  /** A new record whose user is known and in the record's organization
      keeps every owner known. */
  lemma InsertKeepsOwnersKnown(b: map<Key, BookingRecord>, users: map<string, UserRecord>, key: Key, rec: BookingRecord)
    requires OwnersKnown(b, users)
    requires rec.user in users && users[rec.user].organization == rec.organization
    ensures OwnersKnown(b[key := rec], users)
  {
  }

  /** Inserting a fresh key with its record into the table and into the
      bucket of the record's owner keeps an index in agreement. */
  lemma InsertKeepsIndex(b: map<Key, BookingRecord>, g: Groups, kind: IndexKind, key: Key, rec: BookingRecord)
    requires IndexAgrees(b, g, kind)
    requires key !in b
    ensures IndexAgrees(b[key := rec], Added(g, Owner(rec, kind), key), kind)
  {
    var owner := Owner(rec, kind);
    var b', g' := b[key := rec], Added(g, owner, key);
    assert key !in Bucket(g, owner);
    forall k | k in b'
      ensures Owner(b'[k], kind) in g' && k in g'[Owner(b'[k], kind)]
    {
      if k != key {
        var o := Owner(b[k], kind);
        assert k in g[o];
        assert g[o] <= g'[o];
      }
    }
    forall o, k | o in g' && k in g'[o]
      ensures k in b' && Owner(b'[k], kind) == o
    {
      if o == owner {
        assert k in Bucket(g, owner) + [key];
      }
    }
    forall o | o in g'
      ensures NoDup(g'[o])
    {
      if o == owner {
        AppendKeepsNoDup(Bucket(g, owner), key);
      }
    }
  }

  lemma AppendKeepsNoDup(s: seq<Key>, key: Key)
    requires NoDup(s) && key !in s
    ensures NoDup(s + [key])
  {
  }

  /** Inserting into the table and both owner buckets keeps both indexes. */
  lemma InsertKeepsIndexes(b: map<Key, BookingRecord>, ug: Groups, og: Groups, key: Key, rec: BookingRecord)
    requires IndexesAgree(b, ug, og)
    requires key !in b
    ensures IndexesAgree(b[key := rec], Added(ug, rec.user, key), Added(og, rec.organization, key))
  {
    InsertKeepsIndex(b, ug, ByUser, key, rec);
    InsertKeepsIndex(b, og, ByOrganization, key, rec);
  }

  /** Removing a booked key from the table and from the bucket of the
      record's owner keeps an index in agreement, and leaves the key in no
      bucket at all. */
  lemma RemoveKeepsIndex(b: map<Key, BookingRecord>, g: Groups, kind: IndexKind, key: Key)
    requires IndexAgrees(b, g, kind)
    requires key in b
    ensures IndexAgrees(b - {key}, Removed(g, Owner(b[key], kind), key), kind)
    ensures forall o :: o in Removed(g, Owner(b[key], kind), key) ==> key !in Removed(g, Owner(b[key], kind), key)[o]
  {
    var owner := Owner(b[key], kind);
    var b', g' := b - {key}, Removed(g, owner, key);
    forall k | k in b'
      ensures Owner(b'[k], kind) in g' && k in g'[Owner(b'[k], kind)]
    {
      assert k in g[Owner(b[k], kind)];
    }
    forall o, k | o in g' && k in g'[o]
      ensures k in b' && Owner(b'[k], kind) == o
    {
      assert k in g[o];
    }
    assert forall o :: o in g' ==> key !in g'[o];
  }

  /** Removing from the table and both owner buckets keeps both indexes. */
  lemma RemoveKeepsIndexes(b: map<Key, BookingRecord>, ug: Groups, og: Groups, key: Key)
    requires IndexesAgree(b, ug, og)
    requires key in b
    ensures IndexesAgree(b - {key}, Removed(ug, b[key].user, key), Removed(og, b[key].organization, key))
    ensures forall u :: u in Removed(ug, b[key].user, key) ==> key !in Removed(ug, b[key].user, key)[u]
    ensures forall o :: o in Removed(og, b[key].organization, key) ==> key !in Removed(og, b[key].organization, key)[o]
  {
    RemoveKeepsIndex(b, ug, ByUser, key);
    RemoveKeepsIndex(b, og, ByOrganization, key);
  }

  /** Each booked key sits in exactly one user bucket and one organization bucket. */
  lemma OneBucketEach(b: map<Key, BookingRecord>, ug: Groups, og: Groups, key: Key, u: string, o: string)
    requires IndexesAgree(b, ug, og)
    requires key in b
    ensures u in ug && key in ug[u] <==> u == b[key].user
    ensures o in og && key in og[o] <==> o == b[key].organization
  {
  }

  /** A booking followed by its cancellation restores the table and every
      bucket's keys; the owner's buckets stay, possibly empty. */
  lemma BookThenCancel(b: map<Key, BookingRecord>, ug: Groups, og: Groups, key: Key, rec: BookingRecord, owner: string)
    requires IndexesAgree(b, ug, og)
    requires key !in b
    ensures b[key := rec] - {key} == b
    ensures Bucket(Removed(Added(ug, rec.user, key), rec.user, key), owner) == Bucket(ug, owner)
    ensures Bucket(Removed(Added(og, rec.organization, key), rec.organization, key), owner) == Bucket(og, owner)
  {
    assert key !in Bucket(ug, rec.user) && key !in Bucket(og, rec.organization);
    AddThenRemove(ug, rec.user, key, owner);
    AddThenRemove(og, rec.organization, key, owner);
  }

  /** Appending a key that was in no bucket of one owner and taking it out
      again gives every owner's bucket back. */
  lemma AddThenRemove(g: Groups, who: string, key: Key, owner: string)
    requires key !in Bucket(g, who)
    ensures Bucket(Removed(Added(g, who, key), who, key), owner) == Bucket(g, owner)
  {
    WithoutAppended(Bucket(g, who), key);
  }

  // ---------------------------------------------------------------------
  // Lookups

  /** A booking lookup by key: an empty key is refused. */
  function BookingDetails(b: map<Key, BookingRecord>, key: Key): (r: Result<Option<BookingRecord>>)
    ensures key == "" <==> r == Err(RequiredParameter)
    ensures key != "" && key in b ==> r == Ok(Some(b[key]))
    ensures key != "" && key !in b ==> r == Ok(None)
  {
    if key == "" then Err(RequiredParameter)
    else if key in b then Ok(Some(b[key]))
    else Ok(None)
  }

  /** Whether a booking exists, looked up by key or, when the key is empty,
      by the key its room, date and slot make. */
  function BookingExists(b: map<Key, BookingRecord>, key: Key, room: string, date: string, slot: Slot): (r: bool)
    ensures key != "" ==> (r <==> key in b)
    ensures key == "" ==> (r <==> BookingKey(room, date, slot) in b)
  {
    (if key == "" then BookingKey(room, date, slot) else key) in b
  }

  // ---------------------------------------------------------------------
  // Booking and cancelling: the checks, in the order they are made

  /** Why a booking request is refused, or Done when it is accepted. */
  function BookCheck(users: map<string, UserRecord>, rooms: map<string, RoomRecord>, hours: map<string, int>,
                     b: map<Key, BookingRecord>, requestor: string, roomName: string, slot: Slot,
                     date: string, monthYear: string, today: string): (r: Outcome)
    ensures r == Done ==> && requestor in users && roomName in rooms
                          && Hours(hours, OrgBookingKey(users[requestor].organization, monthYear)) < Quota
                          && BookingKey(roomName, EffectiveDate(date, today), slot) !in b
  {
    // the permission check looks the requestor up lower-cased ...
    match RequestorPermissions(users, requestor)
    case Err(e) => Fail(e)
    case Ok(d) =>
      if !CanManageBookings(d) then Fail(Authorization)
      else
        // ... the user lookup that follows does not (the requestor is not
        // empty here, so that lookup only tells found from not found)
        if requestor !in users then Fail(NotFound)
        else
          match RoomDetails(rooms, roomName)
          case Err(e) => Fail(e)
          case Ok(None) => Fail(NotFound)
          case Ok(Some(_)) =>
            if Hours(hours, OrgBookingKey(users[requestor].organization, monthYear)) >= Quota then Fail(QuotaExceeded)
            else if BookingKey(roomName, EffectiveDate(date, today), slot) in b then Fail(Duplicate)
            else Done
  }

  /** A booking is accepted exactly when every check passes. */
  lemma BookAcceptedIff(users: map<string, UserRecord>, rooms: map<string, RoomRecord>, hours: map<string, int>,
                        b: map<Key, BookingRecord>, requestor: string, roomName: string, slot: Slot,
                        date: string, monthYear: string, today: string)
    ensures BookCheck(users, rooms, hours, b, requestor, roomName, slot, date, monthYear, today) == Done
        <==> && requestor != ""
             && Lower(requestor) in users
             && CanManageBookings(Some(users[Lower(requestor)].permissions))
             && requestor in users
             && roomName != "" && roomName in rooms
             && Hours(hours, OrgBookingKey(users[requestor].organization, monthYear)) < Quota
             && BookingKey(roomName, EffectiveDate(date, today), slot) !in b
  {
  }

  /** An admin account is refused for want of manage_bookings. */
  lemma AdminsCannotBook(users: map<string, UserRecord>, rooms: map<string, RoomRecord>, hours: map<string, int>,
                         b: map<Key, BookingRecord>, requestor: string, roomName: string, slot: Slot,
                         date: string, monthYear: string, today: string)
    requires requestor != "" && Lower(requestor) in users
    requires users[Lower(requestor)].permissions == AdminPermissions()
    ensures BookCheck(users, rooms, hours, b, requestor, roomName, slot, date, monthYear, today) == Fail(Authorization)
  {
  }

  /** A member who writes the email with capital letters passes the
      permission check but is not found by the lookup that follows. */
  lemma CapitalizedRequestorNotFound(users: map<string, UserRecord>, rooms: map<string, RoomRecord>, hours: map<string, int>,
                                     b: map<Key, BookingRecord>, requestor: string, roomName: string, slot: Slot,
                                     date: string, monthYear: string, today: string)
    requires forall e :: e in users ==> IsLower(e)
    requires !IsLower(requestor)
    requires Lower(requestor) in users && users[Lower(requestor)].permissions == MemberPermissions()
    ensures BookCheck(users, rooms, hours, b, requestor, roomName, slot, date, monthYear, today) == Fail(NotFound)
  {
    assert requestor != "";
    assert requestor !in users;
  }

  /** An organization at its quota cannot book, whatever else holds. */
  lemma QuotaBlocksBooking(users: map<string, UserRecord>, rooms: map<string, RoomRecord>, hours: map<string, int>,
                           b: map<Key, BookingRecord>, requestor: string, roomName: string, slot: Slot,
                           date: string, monthYear: string, today: string)
    requires requestor in users
    requires Hours(hours, OrgBookingKey(users[requestor].organization, monthYear)) >= Quota
    ensures BookCheck(users, rooms, hours, b, requestor, roomName, slot, date, monthYear, today) != Done
  {
  }

  /** The record an accepted booking stores. */
  function NewRecord(users: map<string, UserRecord>, requestor: string, roomName: string, slot: Slot,
                     date: string, today: string): (rec: BookingRecord)
    requires requestor in users
    ensures rec.slot == slot && rec.date == EffectiveDate(date, today) && rec.user == requestor
    ensures rec.room == roomName && rec.organization == users[requestor].organization
  {
    BookingRecord(slot, EffectiveDate(date, today), requestor, roomName, users[requestor].organization)
  }

  /** Booking the same room, date and slot again is refused: as a duplicate,
      or on the quota when the first booking used the organization's last hour. */
  lemma RebookingRefused(users: map<string, UserRecord>, rooms: map<string, RoomRecord>, hours: map<string, int>,
                         b: map<Key, BookingRecord>, requestor: string, roomName: string, slot: Slot,
                         date: string, monthYear: string, today: string)
    requires BookCheck(users, rooms, hours, b, requestor, roomName, slot, date, monthYear, today) == Done
    ensures requestor in users
    ensures var counter := OrgBookingKey(users[requestor].organization, monthYear);
            var again := BookCheck(users, rooms, Incremented(hours, counter),
                                   b[BookingKey(roomName, EffectiveDate(date, today), slot) :=
                                     NewRecord(users, requestor, roomName, slot, date, today)],
                                   requestor, roomName, slot, date, monthYear, today);
            && (Hours(hours, counter) + 1 < Quota ==> again == Fail(Duplicate))
            && (Hours(hours, counter) + 1 >= Quota ==> again == Fail(QuotaExceeded))
  {
    BookAcceptedIff(users, rooms, hours, b, requestor, roomName, slot, date, monthYear, today);
  }

  /** Why a cancellation is refused, or Done when it is accepted. `now` is
      the current time of day in minutes. */
  function CancelCheck(users: map<string, UserRecord>, b: map<Key, BookingRecord>, parse: DateParser,
                       requestor: string, room: string, slot: Slot, date: string,
                       today: string, now: int): (r: Outcome)
    ensures var key := BookingKey(room, EffectiveDate(date, today), slot);
            r == Done ==> key in b && b[key].user == requestor && requestor in users
  {
    // the key is never empty, so the booking lookup only tells found from not found
    var key := BookingKey(room, EffectiveDate(date, today), slot);
    if key !in b then Fail(NotFound)
    else
      var rec := b[key];
      // ownership, not permission, decides who may cancel
      if requestor != rec.user then Fail(NotOwner)
      else
        match UserDetails(users, requestor)
        case Err(e) => Fail(e)
        case Ok(None) => Fail(NotFound)
        case Ok(Some(_)) =>
          match DatesAreSame(parse, rec.date, today)
          case Err(e) => Fail(e)
          case Ok(same) =>
            if !same then Done
            else
              match HourStartMinutes(slot.start)
              case Err(e) => Fail(e)
              case Ok(start) =>
                if MinutesBetween(start, now) < CancelCutoffMinutes then Fail(TooLateToCancel) else Done
  }

  /** Anyone but the owner is refused; a booking for another day is always
      cancellable by its owner. */
  lemma CancelOwnership(users: map<string, UserRecord>, b: map<Key, BookingRecord>, parse: DateParser,
                        requestor: string, room: string, slot: Slot, date: string, today: string, now: int)
    requires BookingKey(room, EffectiveDate(date, today), slot) in b
    ensures var rec := b[BookingKey(room, EffectiveDate(date, today), slot)];
            && (requestor != rec.user ==> CancelCheck(users, b, parse, requestor, room, slot, date, today, now) == Fail(NotOwner))
            && ((requestor == rec.user && requestor != "" && requestor in users && DatesAreSame(parse, rec.date, today) == Ok(false))
                ==> CancelCheck(users, b, parse, requestor, room, slot, date, today, now) == Done)
  {
  }

  /** The same-day guard: an owner's cancellation of a slot starting at a
      valid hour H is refused exactly when now is less than 15 minutes from
      H:00, on either side of it. */
  lemma CancelTimeGuard(users: map<string, UserRecord>, b: map<Key, BookingRecord>, parse: DateParser,
                        requestor: string, room: string, slot: Slot, date: string, today: string, now: int)
    requires BookingKey(room, EffectiveDate(date, today), slot) in b
    requires requestor == b[BookingKey(room, EffectiveDate(date, today), slot)].user
    requires requestor != "" && requestor in users
    requires DatesAreSame(parse, b[BookingKey(room, EffectiveDate(date, today), slot)].date, today) == Ok(true)
    requires 0 <= slot.start < 24
    ensures CancelCheck(users, b, parse, requestor, room, slot, date, today, now) == Fail(TooLateToCancel)
        <==> -CancelCutoffMinutes < now - 60 * slot.start < CancelCutoffMinutes
    ensures now == 60 * slot.start - 10 ==> CancelCheck(users, b, parse, requestor, room, slot, date, today, now) == Fail(TooLateToCancel)
    ensures now == 60 * slot.start - 20 ==> CancelCheck(users, b, parse, requestor, room, slot, date, today, now) == Done
  {
  }

  // ---------------------------------------------------------------------
  // Queries

  /** The records of a list of keys, in the same order. */
  function RecordsOf(b: map<Key, BookingRecord>, keys: seq<Key>): (r: seq<BookingRecord>)
    requires forall k :: k in keys ==> k in b
    ensures |r| == |keys|
    ensures forall i :: 0 <= i < |keys| ==> r[i] == b[keys[i]]
    decreases |keys|
  {
    if keys == [] then [] else RecordsOf(b, keys[..|keys| - 1]) + [b[keys[|keys| - 1]]]
  }

  /** The records of a list of keys whose dates lie in a range, in order;
      the first date that cannot be tested stops the walk with its error. */
  function SelectInRange(b: map<Key, BookingRecord>, keys: seq<Key>, range: seq<string>, parse: DateParser): (r: Result<seq<BookingRecord>>)
    requires forall k :: k in keys ==> k in b
    ensures keys != [] && |range| != 2 ==> r == Err(InvalidRange)
    decreases |keys|
  {
    if keys == [] then Ok([])
    else
      match SelectInRange(b, keys[..|keys| - 1], range, parse)
      case Err(e) => Err(e)
      case Ok(found) =>
        var rec := b[keys[|keys| - 1]];
        match DateInRange(parse, rec.date, range)
        case Err(e) => Err(e)
        case Ok(inside) => Ok(if inside then found + [rec] else found)
  }

  /** A walk ends without error exactly when every date can be tested; it
      then kept every record whose date is in range and kept nothing else. */
  lemma {:induction false} SelectInRangeMeaning(b: map<Key, BookingRecord>, keys: seq<Key>, range: seq<string>, parse: DateParser)
    requires forall k :: k in keys ==> k in b
    ensures var r := SelectInRange(b, keys, range, parse);
            && (r.Ok? <==> forall i :: 0 <= i < |keys| ==> DateInRange(parse, b[keys[i]].date, range).Ok?)
            && (r.Ok? ==> forall i :: 0 <= i < |keys| && DateInRange(parse, b[keys[i]].date, range) == Ok(true) ==> b[keys[i]] in r.value)
            && (r.Ok? ==> forall x :: x in r.value ==> DateInRange(parse, x.date, range) == Ok(true))
            && (r.Ok? ==> forall x :: x in r.value ==> x in RecordsOf(b, keys))
    decreases |keys|
  {
    if keys != [] {
      var init := keys[..|keys| - 1];
      SelectInRangeMeaning(b, init, range, parse);
      var r := SelectInRange(b, keys, range, parse);
      assert forall i :: 0 <= i < |init| ==> keys[i] == init[i];
      if r.Ok? {
        forall x | x in RecordsOf(b, init) ensures x in RecordsOf(b, keys) {
          var i :| 0 <= i < |init| && RecordsOf(b, init)[i] == x;
          assert RecordsOf(b, keys)[i] == x;
        }
        assert RecordsOf(b, keys)[|keys| - 1] == b[keys[|keys| - 1]];
      }
    }
  }

  /** One more key whose date can be tested extends a walk that has not
      failed by that key's record, if its date is in range. */
  lemma SelectStep(b: map<Key, BookingRecord>, keys: seq<Key>, i: nat, range: seq<string>, parse: DateParser,
                   found: seq<BookingRecord>, inside: bool)
    requires forall k :: k in keys ==> k in b
    requires i < |keys|
    requires SelectInRange(b, keys[..i], range, parse) == Ok(found)
    requires DateInRange(parse, b[keys[i]].date, range) == Ok(inside)
    ensures SelectInRange(b, keys[..i + 1], range, parse) == Ok(if inside then found + [b[keys[i]]] else found)
  {
    assert keys[..i + 1][..i] == keys[..i];
  }

  /** One more key whose date cannot be tested makes the walk fail with that error. */
  lemma SelectStepFails(b: map<Key, BookingRecord>, keys: seq<Key>, i: nat, range: seq<string>, parse: DateParser,
                        found: seq<BookingRecord>, e: Error)
    requires forall k :: k in keys ==> k in b
    requires i < |keys|
    requires SelectInRange(b, keys[..i], range, parse) == Ok(found)
    requires DateInRange(parse, b[keys[i]].date, range) == Err(e)
    ensures SelectInRange(b, keys[..i + 1], range, parse) == Err(e)
  {
    assert keys[..i + 1][..i] == keys[..i];
  }

  lemma RecordsStep(b: map<Key, BookingRecord>, keys: seq<Key>, i: nat)
    requires forall k :: k in keys ==> k in b
    requires i < |keys|
    ensures RecordsOf(b, keys[..i + 1]) == RecordsOf(b, keys[..i]) + [b[keys[i]]]
  {
    assert keys[..i + 1][..i] == keys[..i];
  }

  /** An error met on a prefix of the keys is the error of the whole walk. */
  lemma {:induction false} SelectErrorPersists(b: map<Key, BookingRecord>, keys: seq<Key>, n: nat, range: seq<string>, parse: DateParser)
    requires forall k :: k in keys ==> k in b
    requires n <= |keys|
    requires SelectInRange(b, keys[..n], range, parse).Err?
    ensures SelectInRange(b, keys, range, parse) == SelectInRange(b, keys[..n], range, parse)
    decreases |keys| - n
  {
    if n == |keys| {
      assert keys[..n] == keys;
    } else {
      assert keys[..|keys| - 1][..n] == keys[..n];
      SelectErrorPersists(b, keys[..|keys| - 1], n, range, parse);
    }
  }

  /** The organization a listing is about: the user's when a user is given. */
  function QueriedOrganization(users: map<string, UserRecord>, user: string, organization: string): (o: string)
    ensures user == "" ==> o == organization
    ensures user != "" && user in users ==> o == users[user].organization
  {
    if user != "" && user in users then users[user].organization else organization
  }

  /** The bookings of an organization, or of the organization of a user when
      one is given; an empty or absent bucket gives the empty list before the
      range is looked at, and an empty range means no date filter. */
  function OrgQuery(users: map<string, UserRecord>, b: map<Key, BookingRecord>, og: Groups,
                    user: string, organization: string, range: seq<string>, parse: DateParser): (r: Result<seq<BookingRecord>>)
    requires forall o, k :: o in og && k in og[o] ==> k in b
    ensures user != "" && user !in users ==> r == Err(NotFound)
    ensures var keys := Bucket(og, QueriedOrganization(users, user, organization));
            && ((user == "" || user in users) && keys == [] ==> r == Ok([]))
            && ((user == "" || user in users) && range == [] ==> r == Ok(RecordsOf(b, keys)))
  {
    var org := if user != "" then OrganizationOfUser(users, user) else Ok(organization);
    match org
    case Err(e) => Err(e)
    case Ok(o) =>
      var keys := Bucket(og, o);
      if keys == [] then Ok([])
      else if |range| > 0 then SelectInRange(b, keys, range, parse)
      else Ok(RecordsOf(b, keys))
  }

  /** The walk over one organization bucket: every record when no range is
      given, otherwise the records whose date is in range; the first date
      that cannot be tested ends the walk with its error. */
  method CollectBookings(b: map<Key, BookingRecord>, keys: seq<Key>, range: seq<string>, parse: DateParser)
    returns (r: Result<seq<BookingRecord>>)
    requires forall k :: k in keys ==> k in b
    ensures |range| > 0 ==> r == SelectInRange(b, keys, range, parse)
    ensures |range| == 0 ==> r == Ok(RecordsOf(b, keys))
  {
    var found: seq<BookingRecord> := [];
    var i := 0;
    while i < |keys|
      invariant 0 <= i <= |keys|
      invariant forall k :: k in keys[..i] ==> k in b
      invariant |range| > 0 ==> SelectInRange(b, keys[..i], range, parse) == Ok(found)
      invariant |range| == 0 ==> found == RecordsOf(b, keys[..i])
    {
      var rec := b[keys[i]];
      if |range| > 0 {
        var inside := DateInRange(parse, rec.date, range);
        if inside.Err? {
          SelectStepFails(b, keys, i, range, parse, found, inside.error);
          SelectErrorPersists(b, keys, i + 1, range, parse);
          return Err(inside.error);
        }
        SelectStep(b, keys, i, range, parse, found, inside.value);
        if inside.value { found := found + [rec]; }
        assert SelectInRange(b, keys[..i + 1], range, parse) == Ok(found);
      } else {
        RecordsStep(b, keys, i);
        found := found + [rec];
        assert found == RecordsOf(b, keys[..i + 1]);
      }
      i := i + 1;
    }
    assert keys[..i] == keys;
    r := Ok(found);
  }

  // ---------------------------------------------------------------------
  // The engine

  class BookingEngine {
    const directory: Directory
    const roomRegistry: Rooms
    var bookings: map<Key, BookingRecord>
    var userGroup: Groups
    var orgGroup: Groups

    ghost predicate Valid()
      reads this, directory
    {
      && IndexesAgree(bookings, userGroup, orgGroup)
      && OwnersKnown(bookings, directory.users)
      && NonNegative(directory.orgBookingHours)
    }

    constructor (directory: Directory, roomRegistry: Rooms)
      requires NonNegative(directory.orgBookingHours)
      ensures this.directory == directory && this.roomRegistry == roomRegistry
      ensures bookings == map[] && userGroup == map[] && orgGroup == map[]
      ensures Valid()
    {
      this.directory := directory;
      this.roomRegistry := roomRegistry;
      bookings, userGroup, orgGroup := map[], map[], map[];
    }

    /** Books a room for a slot on a date (today when the date is empty).
        `monthYear` and `today` are what the clock gives. On success the
        record is stored, its key is appended to the user's and to the
        organization's bucket, and the organization's counter for the month
        goes up by one; on failure nothing changes. */
    method BookRoom(requestor: string, roomName: string, slot: Slot, date: string, monthYear: string, today: string)
      returns (r: Outcome)
      requires Valid()
      modifies this`bookings, this`userGroup, this`orgGroup, directory`orgBookingHours
      ensures Valid()
      ensures r == BookCheck(directory.users, roomRegistry.rooms, old(directory.orgBookingHours), old(bookings),
                             requestor, roomName, slot, date, monthYear, today)
      ensures r.Fail? ==> (bookings == old(bookings) && userGroup == old(userGroup) && orgGroup == old(orgGroup)
                           && directory.orgBookingHours == old(directory.orgBookingHours))
      ensures r.Done? ==> (requestor in directory.users
                           && var rec := NewRecord(directory.users, requestor, roomName, slot, date, today);
                              var key := BookingKey(roomName, rec.date, slot);
                              && key !in old(bookings)
                              && bookings == old(bookings)[key := rec]
                              && userGroup == Added(old(userGroup), requestor, key)
                              && orgGroup == Added(old(orgGroup), rec.organization, key)
                              && directory.orgBookingHours
                                 == Incremented(old(directory.orgBookingHours), OrgBookingKey(rec.organization, monthYear)))
    {
      ghost var verdict := BookCheck(directory.users, roomRegistry.rooms, directory.orgBookingHours, bookings,
                                     requestor, roomName, slot, date, monthYear, today);
      var allowed := RequestorPermissions(directory.users, requestor);
      if allowed.Err? { return Fail(allowed.error); }
      if !CanManageBookings(allowed.value) { return Fail(Authorization); }
      if requestor !in directory.users { return Fail(NotFound); }
      var roomDetails := RoomDetails(roomRegistry.rooms, roomName);
      if roomDetails.Err? { return Fail(roomDetails.error); }
      if roomDetails.value.None? { return Fail(NotFound); }
      var organization := directory.users[requestor].organization;
      if Hours(directory.orgBookingHours, OrgBookingKey(organization, monthYear)) >= Quota {
        return Fail(QuotaExceeded);
      }
      var day := EffectiveDate(date, today);
      var key := BookingKey(roomName, day, slot);
      if BookingExists(bookings, key, roomName, day, slot) { return Fail(Duplicate); }
      assert verdict == Done;
      StoreBooking(key, BookingRecord(slot, day, requestor, roomName, organization), monthYear);
      r := Done;
    }

    /** Cancels a booking (today's when the date is empty). `today`,
        `monthYear` and `now` are what the clock gives; `parse` reads date
        texts. On success the record and both of its index entries are
        removed and the counter of the requestor's organization goes down
        by one, not below zero; on failure nothing changes. */
    method CancelBooking(requestor: string, room: string, slot: Slot, date: string,
                         monthYear: string, today: string, now: int, parse: DateParser)
      returns (r: Outcome)
      requires Valid()
      modifies this`bookings, this`userGroup, this`orgGroup, directory`orgBookingHours
      ensures Valid()
      ensures r == CancelCheck(directory.users, old(bookings), parse, requestor, room, slot, date, today, now)
      ensures r.Fail? ==> (bookings == old(bookings) && userGroup == old(userGroup) && orgGroup == old(orgGroup)
                           && directory.orgBookingHours == old(directory.orgBookingHours))
      ensures r.Done? ==> (var key := BookingKey(room, EffectiveDate(date, today), slot);
                           && key in old(bookings) && requestor in directory.users
                           && var organization := directory.users[requestor].organization;
                              && organization == old(bookings)[key].organization
                              && bookings == old(bookings) - {key}
                              && userGroup == Removed(old(userGroup), requestor, key)
                              && orgGroup == Removed(old(orgGroup), organization, key)
                              && (forall u :: u in userGroup ==> key !in userGroup[u])
                              && (forall o :: o in orgGroup ==> key !in orgGroup[o])
                              && directory.orgBookingHours
                                 == Decremented(old(directory.orgBookingHours), OrgBookingKey(organization, monthYear)))
    {
      ghost var verdict := CancelCheck(directory.users, bookings, parse, requestor, room, slot, date, today, now);
      var key := BookingKey(room, EffectiveDate(date, today), slot);
      if key !in bookings { return Fail(NotFound); }
      var rec := bookings[key];
      if requestor != rec.user { return Fail(NotOwner); }
      var details := UserDetails(directory.users, requestor);
      if details.Err? { return Fail(details.error); }
      if details.value.None? { return Fail(NotFound); }
      var same := DatesAreSame(parse, rec.date, today);
      if same.Err? { return Fail(same.error); }
      if same.value {
        var start := HourStartMinutes(slot.start);
        if start.Err? { return Fail(start.error); }
        if MinutesBetween(start.value, now) < CancelCutoffMinutes { return Fail(TooLateToCancel); }
      }
      assert verdict == Done;
      ForgetBooking(key, requestor, details.value.value.organization, monthYear);
      r := Done;
    }

    /** Appends a key to a user's bucket, starting the bucket if needed. */
    method AddUserBooking(user: string, key: Key)
      modifies this`userGroup
      ensures userGroup == Added(old(userGroup), user, key)
    {
      userGroup := Added(userGroup, user, key);
    }

    /** Appends a key to an organization's bucket, starting the bucket if needed. */
    method AddOrganizationBooking(organization: string, key: Key)
      modifies this`orgGroup
      ensures orgGroup == Added(old(orgGroup), organization, key)
    {
      orgGroup := Added(orgGroup, organization, key);
    }

    /** Takes a key out of a user's bucket; a user without a bucket is left alone. */
    method DeleteUserBooking(user: string, key: Key)
      modifies this`userGroup
      ensures userGroup == Removed(old(userGroup), user, key)
    {
      if user in userGroup {
        userGroup := userGroup[user := Without(userGroup[user], key)];
      }
    }

    /** Takes a key out of an organization's bucket; one without a bucket is left alone. */
    method DeleteOrganizationBooking(organization: string, key: Key)
      modifies this`orgGroup
      ensures orgGroup == Removed(old(orgGroup), organization, key)
    {
      if organization in orgGroup {
        orgGroup := orgGroup[organization := Without(orgGroup[organization], key)];
      }
    }

    /** The writes of an accepted booking: the record, both index entries and
        the month's counter, keeping the engine invariant. */
    method StoreBooking(key: Key, rec: BookingRecord, monthYear: string)
      requires Valid()
      requires key !in bookings
      requires rec.user in directory.users && directory.users[rec.user].organization == rec.organization
      modifies this`bookings, this`userGroup, this`orgGroup, directory`orgBookingHours
      ensures Valid()
      ensures bookings == old(bookings)[key := rec]
      ensures userGroup == Added(old(userGroup), rec.user, key)
      ensures orgGroup == Added(old(orgGroup), rec.organization, key)
      ensures directory.orgBookingHours == Incremented(old(directory.orgBookingHours), OrgBookingKey(rec.organization, monthYear))
    {
      InsertKeepsIndexes(bookings, userGroup, orgGroup, key, rec);
      InsertKeepsOwnersKnown(bookings, directory.users, key, rec);
      bookings := bookings[key := rec];
      AddUserBooking(rec.user, key);
      AddOrganizationBooking(rec.organization, key);
      directory.IncreaseBookingHours(rec.organization, monthYear);
    }

    /** The writes of an accepted cancellation: the record and both index
        entries go, and the counter of the user's organization goes down,
        keeping the engine invariant. */
    method ForgetBooking(key: Key, user: string, organization: string, monthYear: string)
      requires Valid()
      requires key in bookings && bookings[key].user == user
      requires user in directory.users && directory.users[user].organization == organization
      modifies this`bookings, this`userGroup, this`orgGroup, directory`orgBookingHours
      ensures Valid()
      ensures organization == old(bookings)[key].organization
      ensures bookings == old(bookings) - {key}
      ensures userGroup == Removed(old(userGroup), user, key)
      ensures orgGroup == Removed(old(orgGroup), organization, key)
      ensures forall u :: u in userGroup ==> key !in userGroup[u]
      ensures forall o :: o in orgGroup ==> key !in orgGroup[o]
      ensures directory.orgBookingHours == Decremented(old(directory.orgBookingHours), OrgBookingKey(organization, monthYear))
    {
      RemoveKeepsIndexes(bookings, userGroup, orgGroup, key);
      assert OwnersKnown(bookings - {key}, directory.users);
      bookings := bookings - {key};
      DeleteUserBooking(user, key);
      DeleteOrganizationBooking(organization, key);
      directory.DecreaseBookingHours(organization, monthYear);
    }

    /** The bookings of an organization (or of a user's organization), in
        bucket order, kept only when inside the date range if one is given. */
    method BookingsOfOrganization(user: string, organization: string, dateRange: seq<string>, parse: DateParser)
      returns (r: Result<seq<BookingRecord>>)
      requires Valid()
      ensures r == OrgQuery(directory.users, bookings, orgGroup, user, organization, dateRange, parse)
    {
      var org := organization;
      if user != "" {
        var owner := OrganizationOfUser(directory.users, user);
        if owner.Err? { return Err(owner.error); }
        org := owner.value;
      }
      var keys := Bucket(orgGroup, org);
      if keys == [] { return Ok([]); }
      r := CollectBookings(bookings, keys, dateRange, parse);
    }

    /** The bookings of a user, in bucket order. */
    method BookingsOfUser(user: string) returns (r: seq<BookingRecord>)
      requires Valid()
      ensures r == RecordsOf(bookings, Bucket(userGroup, user))
      ensures forall x :: x in r ==> x in bookings.Values && x.user == user
      ensures forall k :: k in bookings && bookings[k].user == user ==> bookings[k] in r
    {
      r := [];
      var keys := Bucket(userGroup, user);
      if keys == [] { return; }
      var i := 0;
      assert forall k :: k in keys ==> k in bookings;
      while i < |keys|
        invariant 0 <= i <= |keys|
        invariant r == RecordsOf(bookings, keys[..i])
      {
        RecordsStep(bookings, keys, i);
        r := r + [bookings[keys[i]]];
        i := i + 1;
      }
      assert keys[..i] == keys;
      UserQueryComplete(bookings, userGroup, user);
    }
  }

  /** The user listing holds exactly that user's bookings. */
  lemma UserQueryComplete(b: map<Key, BookingRecord>, ug: Groups, user: string)
    requires IndexAgrees(b, ug, ByUser)
    ensures forall x :: x in RecordsOf(b, Bucket(ug, user)) ==> x in b.Values && x.user == user
    ensures forall k :: k in b && b[k].user == user ==> b[k] in RecordsOf(b, Bucket(ug, user))
  {
    var keys := Bucket(ug, user);
    var rs := RecordsOf(b, keys);
    forall x | x in rs ensures x in b.Values && x.user == user {
      var i :| 0 <= i < |rs| && rs[i] == x;
      assert keys[i] in ug[user];
    }
    forall k | k in b && b[k].user == user ensures b[k] in rs {
      assert k in keys;
      var i :| 0 <= i < |keys| && keys[i] == k;
      assert rs[i] == b[k];
    }
  }

  /** The records of an organization's bucket are stored bookings of that
      organization, and every stored booking of it is among them. */
  lemma OrgBucketExact(b: map<Key, BookingRecord>, og: Groups, o: string)
    requires IndexAgrees(b, og, ByOrganization)
    ensures forall x :: x in RecordsOf(b, Bucket(og, o)) ==> x in b.Values && x.organization == o
    ensures forall k :: k in b && b[k].organization == o ==> b[k] in RecordsOf(b, Bucket(og, o))
  {
    var keys := Bucket(og, o);
    var rs := RecordsOf(b, keys);
    forall x | x in rs ensures x in b.Values && x.organization == o {
      var i :| 0 <= i < |rs| && rs[i] == x;
      assert keys[i] in og[o];
    }
    forall k | k in b && b[k].organization == o ensures b[k] in rs {
      assert k in keys;
      var i :| 0 <= i < |keys| && keys[i] == k;
      assert rs[i] == b[k];
    }
  }

  /** Filtering an organization's bucket by a date range keeps exactly the
      organization's bookings whose date is in range. */
  lemma OrgBucketInRange(b: map<Key, BookingRecord>, og: Groups, o: string, range: seq<string>, parse: DateParser)
    requires IndexAgrees(b, og, ByOrganization)
    ensures var r := SelectInRange(b, Bucket(og, o), range, parse);
            && (r.Ok? ==> forall x :: x in r.value ==> x in b.Values && x.organization == o && DateInRange(parse, x.date, range) == Ok(true))
            && (r.Ok? ==> forall k :: k in b && b[k].organization == o && DateInRange(parse, b[k].date, range) == Ok(true) ==> b[k] in r.value)
  {
    var keys := Bucket(og, o);
    SelectInRangeMeaning(b, keys, range, parse);
    OrgBucketExact(b, og, o);
    var r := SelectInRange(b, keys, range, parse);
    if r.Ok? {
      forall k | k in b && b[k].organization == o && DateInRange(parse, b[k].date, range) == Ok(true)
        ensures b[k] in r.value
      {
        assert k in keys;
        var i :| 0 <= i < |keys| && keys[i] == k;
      }
    }
  }

  /** Filtering an organization's bucket by a date range succeeds exactly
      when the date of every stored booking of the organization can be tested. */
  lemma OrgBucketSucceeds(b: map<Key, BookingRecord>, og: Groups, o: string, range: seq<string>, parse: DateParser)
    requires IndexAgrees(b, og, ByOrganization)
    ensures SelectInRange(b, Bucket(og, o), range, parse).Ok?
        <==> forall k :: k in b && b[k].organization == o ==> DateInRange(parse, b[k].date, range).Ok?
  {
    var keys := Bucket(og, o);
    SelectInRangeMeaning(b, keys, range, parse);
    if SelectInRange(b, keys, range, parse).Ok? {
      forall k | k in b && b[k].organization == o ensures DateInRange(parse, b[k].date, range).Ok? {
        assert k in keys;
        var i :| 0 <= i < |keys| && keys[i] == k;
      }
    } else {
      var i :| 0 <= i < |keys| && !DateInRange(parse, b[keys[i]].date, range).Ok?;
      assert keys[i] in og[o];
    }
  }

  /** The organization listing holds only stored bookings of the organization
      (the user's, when a user is given): all of them when no range is given,
      and exactly those whose date is in range when one is. */
  lemma OrgQueryComplete(users: map<string, UserRecord>, b: map<Key, BookingRecord>, og: Groups,
                         user: string, organization: string, range: seq<string>, parse: DateParser)
    requires IndexAgrees(b, og, ByOrganization)
    ensures var r := OrgQuery(users, b, og, user, organization, range, parse);
            var o := QueriedOrganization(users, user, organization);
            && (r.Ok? ==> forall x :: x in r.value ==> x in b.Values && x.organization == o)
            && (r.Ok? && range == [] ==> forall k :: k in b && b[k].organization == o ==> b[k] in r.value)
            && (r.Ok? && range != [] ==> forall x :: x in r.value ==> DateInRange(parse, x.date, range) == Ok(true))
            && (r.Ok? && range != [] ==>
                  forall k :: k in b && b[k].organization == o && DateInRange(parse, b[k].date, range) == Ok(true)
                    ==> b[k] in r.value)
  {
    var r := OrgQuery(users, b, og, user, organization, range, parse);
    if r.Ok? {
      var o := QueriedOrganization(users, user, organization);
      OrgBucketExact(b, og, o);
      OrgBucketInRange(b, og, o, range, parse);
    }
  }

  /** When the listing succeeds: an unknown user is "not found"; otherwise
      a listing without a range always succeeds, and one with a range
      succeeds exactly when the date of every stored booking of the
      organization can be tested against it. */
  lemma OrgQuerySucceeds(users: map<string, UserRecord>, b: map<Key, BookingRecord>, og: Groups,
                         user: string, organization: string, range: seq<string>, parse: DateParser)
    requires IndexAgrees(b, og, ByOrganization)
    ensures var r := OrgQuery(users, b, og, user, organization, range, parse);
            var o := QueriedOrganization(users, user, organization);
            && (user != "" && user !in users ==> r == Err(NotFound))
            && ((user == "" || user in users) && range == [] ==> r.Ok?)
            && ((user == "" || user in users) && range != [] ==>
                  (r.Ok? <==> forall k :: k in b && b[k].organization == o ==> DateInRange(parse, b[k].date, range).Ok?))
  {
    if user == "" || user in users {
      var o := QueriedOrganization(users, user, organization);
      OrgBucketSucceeds(b, og, o, range, parse);
    }
  }
}
