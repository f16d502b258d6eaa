# Conference-room booking core, modelled in Dafny

This project models the core of a small in-memory conference-room booking
service. The service has five parts:

- **Organizations and users**: admins, and members who belong to exactly one
  organization.
- **A permission scheme**: five `manage_*` permissions. Admins hold every one
  except `manage_bookings`; members hold only `manage_bookings`.
- **A space registry**: floors, and rooms that are unique by name across the
  whole building.
- **A booking engine**: it books and cancels room slots, and keeps two
  indexes of the bookings, one by user and one by organization.
- **A monthly quota**: each organization may book 30 hours per month. The
  counters are keyed by organization name plus the "mm-YYYY" month text.

Modules, one per component:

- `Errors`: the error kinds, `Option`, `Result` and `Outcome`. Each Python
  exception an operation raises becomes one `Error` value.
- `Authorization` (`utils/authorization.py`): the permission maps and the five
  `can_manage_*` decisions.
- `Generic` (`utils/generic.py`): the date and time helpers.
  - Date texts are turned into dates by a parser passed as a parameter.
    `None` stands for `strptime` failing.
  - Times of day are whole minutes.
- `Users` (`users/user.py`): a `Directory` class holding the organization
  table, the member sets, the monthly hour counters and the user table.
  - The source's `Organization` and `User` singletons call each other, so the
    model keeps them in one class.
  - User lookups, lower-casing, and the counter arithmetic are pure functions
    next to the class.
- `Space` (`booking/booking.py`, the `Floor` and `Room` classes): `Floors` and
  `Rooms` classes, the lookups, and the room filter.
- `Booking` (`booking/booking.py`, the `Booking` class): the `BookingEngine`
  class.
  - Its fields are the booking table, which maps a key to a record, and the
    two index maps. Each index maps an owner to its keys, kept in insertion
    order.
  - `BookRoom` and `CancelBooking` are each proved equal to a pure decision
    function, `BookCheck` or `CancelCheck`. That function lists the source's
    checks in the source's order.
  - On success, the new state is proved to be a stated pure transition of
    the old state. On failure, nothing changes.
  - The engine invariant `Valid()` is preserved by both operations. It says:
    - every stored key is in its user's bucket and in its organization's
      bucket, and in no other bucket;
    - no bucket repeats a key;
    - every booking's user is known and still belongs to the booking's
      organization;
    - no hour counter is negative.
  - Stored keys also match their records: each key is the one its record's
    room, date and slot make (`KeysMatch`). This is kept beside `Valid()`
    rather than in it; `BookKeepsKeysMatch` and `CancelKeepsKeysMatch` show
    that booking and cancelling preserve it.
  - Creating a user or an admin keeps the engine invariant, because the
    user table only grows (`NewUserKeepsEngineInvariant`).
  - The two listing queries are loops. They are proved equal to recursive
    specifications, and then proved to return exactly the owner's bookings
    (within the date range when one is given). The organization listing is
    also proved to succeed exactly when every date it must test can be
    tested.

Behaviours of the source that the proofs make explicit:

- The permission check lower-cases the requestor, but the booking code then
  looks the user up again without lower-casing. A member who types their
  email with capitals passes the first check and is rejected as "not found"
  (`CapitalizedRequestorNotFound`).
- The booking key is plain concatenation of room name, date text and slot
  text. Two different rooms on two different date texts can therefore share
  one key; `KeysCanCollide` gives an instance with the rooms `A1` and `A11`.
- The cancellation guard uses the absolute time difference. On the booking's
  own day, it refuses a cancellation less than 15 minutes before the slot's
  start hour and also less than 15 minutes after it; anything further away
  on either side is accepted (`CancelTimeGuard`).
- Hour counters are decremented only when non-zero. A zero counter stays
  zero, but a negative counter would keep going down (`DecrementBelowZero`).
- A floor created with number 0 exists but can never be looked up, because
  number 0 counts as a missing parameter (`FloorZeroUnreachable`).
- `add_room_to_floor` replaces the floor's room grouping with the new room
  alone, so the grouping holds only the last room added
  (`Space.Floors.AddRoomToFloor`).

## Model

| member | source | states |
|---|---|---|
| `Authorization.AdminPermissions` | utils/authorization.py:12-20 | the admin permission set is exactly the four manage permissions other than bookings |
| `Authorization.MemberPermissions` | utils/authorization.py:22-27 | the member permission set is exactly `manage_bookings` |
| `Authorization.CanManageUsers` | utils/authorization.py:29-37 | granted if and only if a requestor was found whose permissions include `manage_users`; no requestor, or no permissions, is a denial |
| `Authorization.CanManageOrganizations` | utils/authorization.py:39-47 | granted if and only if the requestor's permissions include `manage_organizations`; no requestor is a denial |
| `Authorization.CanManageFloors` | utils/authorization.py:49-57 | granted if and only if the requestor's permissions include `manage_floors`; no requestor is a denial |
| `Authorization.CanManageRooms` | utils/authorization.py:59-67 | granted if and only if the requestor's permissions include `manage_rooms`; no requestor is a denial |
| `Authorization.CanManageBookings` | utils/authorization.py:69-77 | granted if and only if the requestor's permissions include `manage_bookings`; no requestor is a denial |
| `Authorization.ValuesNeverInspected` | utils/authorization.py:29-77 | two permission maps with the same names give the same five decisions, whatever values they store |
| `Authorization.AdminRights` | utils/authorization.py:12-77 | admins may manage users, organizations, floors and rooms, and may not book |
| `Authorization.MemberRights` | utils/authorization.py:22-77 | members may book and may manage nothing else |
| `Generic.DateLe` | utils/generic.py:45 | the date comparison: a later year is later whatever month and day, within a year a later month is later, and a date is never before itself |
| `Generic.DateLeIsTotalOrder` | utils/generic.py:45-47 | the calendar order used for range tests is reflexive, total, antisymmetric and transitive |
| `Generic.DatesAreSame` | utils/generic.py:25-27 | fails when either text does not parse (the first is parsed first); otherwise true exactly when both name the same day |
| `Generic.SameDayDifferentText` | utils/generic.py:25-27 | two different texts that parse to the same day compare as the same date |
| `Generic.MinutesBetween` | utils/generic.py:30-34 | the absolute number of minutes between two times of day, in either order |
| `Generic.MinutesBetweenSymmetric` | utils/generic.py:30-34 | the difference does not depend on argument order, and is zero only for equal times |
| `Generic.HourStartMinutes` | booking/booking.py:265-267 | the text "H:00" parses as a time exactly when 0 <= H < 24, giving 60·H minutes; otherwise the parse fails |
| `Generic.DateInRange` | utils/generic.py:37-47 | a range that does not have exactly two bounds is refused before any parsing; an unparsable bound or date fails; otherwise the test is start <= date <= end, inclusive |
| `Generic.RangeIncludesBounds` | utils/generic.py:37-47 | both bounds of an ordered range lie inside it |
| `Users.Lower` | users/user.py:115 | lower-casing keeps the length and maps each character on its own: capitals become lower case and every other character is kept |
| `Users.LowerProperties` | users/user.py:115 | lower-casing yields lower-case text, is idempotent, leaves lower-case text unchanged, and yields the empty text only from the empty text |
| `Users.UserDetails` | users/user.py:183-187 | an empty email is a missing parameter; a known email gives its record; an unknown one gives none |
| `Users.OrganizationOfUser` | users/user.py:176-181 | a known user gives that user's organization; an unknown user is "not found" |
| `Users.OrganizationDetails` | users/user.py:47-51 | an empty name is a missing parameter; a known name gives its record; an unknown one gives none |
| `Users.PermissionsOf` | utils/authorization.py:32-34 | a missing user has no permissions; a found user contributes exactly its stored permissions |
| `Users.RequestorPermissions` | users/user.py:160-164 | an empty requestor is a missing parameter; otherwise the permissions of the user stored under the lower-cased requestor, or none |
| `Users.OrgBookingKey` | users/user.py:92-95 | the counter key is the organization name followed by the month text |
| `Users.OrgBookingKeyInjective` | users/user.py:92-95 | with month texts of one fixed length, different organization–month pairs have different counter keys |
| `Users.Hours` | users/user.py:87-90 | an organization's hours for a month; a counter never written reads as zero |
| `Users.Incremented` | users/user.py:65-74 | the counters after a booking: that counter is one more than before (an absent one becomes 1), and every other counter is unchanged |
| `Users.Decremented` | users/user.py:76-85 | the counters after a cancellation: a non-zero counter goes down by one, a zero or absent one is zero afterwards, and every other counter is unchanged |
| `Users.CounterProperties` | users/user.py:65-85 | counters stay non-negative; a booking followed by a cancellation restores every counter; other counters are untouched |
| `Users.DecrementBelowZero` | users/user.py:76-85 | a negative counter is still decremented, because only a counter of exactly zero is held at zero |
| `Users.MonthsIndependent` | users/user.py:92-95 | booking or cancelling in one month leaves the same organization's counter for any other month unchanged, whatever the lengths of the month texts |
| `Users.Directory.constructor` | users/user.py:10-13 | the directory starts with no organizations, member sets, counters or users, and satisfies its invariant |
| `Users.Directory.CreateOrganization` | users/user.py:15-45 | checks the permission, then duplicates; on success stores the organization and an empty member set and keeps the invariant; on failure changes nothing |
| `Users.Directory.AddOrganizationToMapping` | users/user.py:57-58 | the organization's member set becomes empty |
| `Users.Directory.AddUserToOrganization` | users/user.py:60-63 | the user is added to the organization's member set |
| `Users.Directory.CreateAdminUser` | users/user.py:111-126 | with no permission check, an existing lower-cased email is a duplicate; otherwise stores an admin with the admin permissions and no organization |
| `Users.Directory.CreateUser` | users/user.py:128-170 | checks the permission, then a duplicate lower-cased email, then an empty or unknown organization; on success stores a member with the member permissions and adds it to the organization's member set; on failure changes nothing |
| `Users.Directory.IncreaseBookingHours` | users/user.py:65-74 | only the counters change, as `Incremented` says, and they stay non-negative |
| `Users.Directory.DecreaseBookingHours` | users/user.py:76-85 | only the counters change, as `Decremented` says, and they stay non-negative |
| `Space.FloorDetails` | booking/booking.py:48-52 | floor number 0 is a missing parameter; a known floor gives its record; an unknown one gives none |
| `Space.FloorZeroUnreachable` | booking/booking.py:19-52 | a floor stored under number 0 can never be looked up |
| `Space.RoomDetails` | booking/booking.py:128-132 | an empty name is a missing parameter; a known room gives its record; an unknown one gives none |
| `Space.ListRooms` | booking/booking.py:134-141 | a room is listed if and only if it meets both filters (a capacity of none or zero, or no projector requirement, filters nothing), with its record unchanged |
| `Space.Floors.constructor` | booking/booking.py:15-17 | no floors and no room groupings |
| `Space.Floors.CreateFloor` | booking/booking.py:19-46 | checks the permission, then duplicates; on success stores the floor with the given room count; on failure changes nothing |
| `Space.Floors.IncreaseRoomCount` | booking/booking.py:58-61 | the floor's room count goes up by exactly one, whatever increment is passed |
| `Space.Floors.DecreaseRoomCount` | booking/booking.py:63-66 | the floor's room count goes down by exactly one, whatever decrement is passed |
| `Space.Floors.AddRoomToFloor` | booking/booking.py:68-74 | the floor's grouping becomes that room alone; a known floor's count goes up by one; for an unknown floor the grouping is still written and the call then fails on the missing key |
| `Space.Rooms.constructor` | booking/booking.py:80-82 | no rooms, and the invariant holds |
| `Space.Rooms.CreateRoom` | booking/booking.py:84-126 | checks the permission, then a duplicate name, then floor 0, then an unknown floor; on success stores an available room, adds one to the floor's room count, sets the floor's grouping, and keeps every room on an existing floor; on failure changes nothing |
| `Booking.SlotText` | booking/booking.py:155 | a slot is rendered as a braced single-entry mapping, `{start: end}` |
| `Booking.BookingKey` | booking/booking.py:152-155 | the key's length is the sum of its parts, so it is never empty |
| `Booking.BookingKeyParts` | booking/booking.py:152-155 | the key is the room name, then the date text, then the slot text |
| `Booking.KeysCanCollide` | booking/booking.py:152-155 | different rooms and date texts can have the same key |
| `Booking.KeyDeterminesSlotText` | booking/booking.py:152-155 | for one room and one date text, equal keys mean equal slot texts |
| `Booking.EffectiveDate` | booking/booking.py:177-178 | an empty date means today; any other date is kept |
| `Booking.Bucket` | booking/booking.py:305-307 | an owner's keys, or none when the owner has no bucket |
| `Booking.Added` | booking/booking.py:206-222 | the key is appended to the owner's bucket (a new bucket when there is none), and every other bucket is unchanged |
| `Booking.Without` | booking/booking.py:224-240 | the bucket keeps exactly its other keys, still without repeats, and is unchanged when the key is absent |
| `Booking.Removed` | booking/booking.py:224-240 | the key leaves the owner's bucket; an owner without a bucket, and every other bucket, is left alone |
| `Booking.WithoutAppended` | booking/booking.py:206-240 | removing a key that was just appended gives the bucket back |
| `Booking.InsertKeepsOwnersKnown` | booking/booking.py:187-193 | a new record whose user is known and belongs to the record's organization keeps every booking's owner known |
| `Booking.OwnersKnownAsUsersGrow` | users/user.py:106-109 | users are only ever added, so every booking's owner stays known |
| `Booking.NewUserKeepsEngineInvariant` | users/user.py:104-170 | creating a user or an admin adds one fresh email to the user table, which keeps both indexes, every booking's owner known and every counter non-negative |
| `Booking.InsertKeepsIndex` | booking/booking.py:187-195 | storing a fresh key and appending it to its owner's bucket keeps that index in agreement with the table |
| `Booking.InsertKeepsIndexes` | booking/booking.py:187-195 | the same holds for the user index and the organization index together |
| `Booking.RemoveKeepsIndex` | booking/booking.py:272-275 | deleting a booked key from the table and its owner's bucket keeps the index in agreement and leaves the key in no bucket |
| `Booking.RemoveKeepsIndexes` | booking/booking.py:272-275 | the same holds for both indexes together |
| `Booking.OneBucketEach` | booking/booking.py:147-150 | a booked key is in exactly one user bucket (its user's) and exactly one organization bucket (its organization's) |
| `Booking.AddThenRemove` | booking/booking.py:206-240 | appending a key new to one owner's bucket and taking it out again gives every owner's bucket back |
| `Booking.BookThenCancel` | booking/booking.py:187-196 | booking a fresh key and cancelling it restores the table and the contents of every bucket |
| `Booking.BookingDetails` | booking/booking.py:288-292 | an empty key is a missing parameter; a booked key gives its record; an unknown one gives none |
| `Booking.BookingExists` | booking/booking.py:280-286 | a given key is tested directly; an empty key is replaced by the key of the room, date and slot |
| `Booking.BookKeepsKeysMatch` | booking/booking.py:176-193 | an accepted booking is stored under the key its own room, effective date and slot make, so every stored key keeps matching its record |
| `Booking.CancelKeepsKeysMatch` | booking/booking.py:270-272 | deleting a booking keeps every other stored key matching its record |
| `Booking.BookCheck` | booking/booking.py:161-185 | the checks of a booking request in source order; an accepted request has a known requestor as typed, an existing room, an organization under its quota for the month and a free key (the converse is `Booking.BookAcceptedIff`) |
| `Booking.BookAcceptedIff` | booking/booking.py:157-198 | a booking is accepted if and only if: the requestor is non-empty; the lower-cased requestor is a user with `manage_bookings`; the requestor as typed is a user; the room exists; the organization is under 30 hours this month; and the key is free |
| `Booking.AdminsCannotBook` | booking/booking.py:161-162 | a requestor with admin permissions is refused for authorization |
| `Booking.CapitalizedRequestorNotFound` | booking/booking.py:161-166 | a member who writes the email in capitals passes the permission check and is then refused as "not found" |
| `Booking.QuotaBlocksBooking` | booking/booking.py:172-175 | an organization at or above 30 hours cannot book |
| `Booking.NewRecord` | booking/booking.py:187-193 | the stored record holds the slot, the effective date, the requestor, the room and the requestor's organization |
| `Booking.RebookingRefused` | booking/booking.py:172-185 | after an accepted booking, the same request is refused: as a duplicate, or on the quota if the first booking used up the last hour |
| `Booking.CancelCheck` | booking/booking.py:245-268 | the checks of a cancellation in source order; an accepted cancellation names a stored booking whose user is the requestor, and the requestor is a known user |
| `Booking.CancelOwnership` | booking/booking.py:251-263 | anyone but the booking's user is refused; the owner may always cancel a booking for another day |
| `Booking.CancelTimeGuard` | booking/booking.py:263-268 | on the booking's day, the owner is refused exactly when now is strictly within 15 minutes of H:00 on either side, for a start hour H of 0 to 23 |
| `Booking.RecordsOf` | booking/booking.py:328-330 | the records of the keys, one per key, in key order |
| `Booking.SelectInRange` | booking/booking.py:309-316 | a non-empty walk with a range of the wrong length fails with invalid range |
| `Booking.SelectStep` | booking/booking.py:309-316 | one more key whose date can be tested extends the walk by its record exactly when that date is in range |
| `Booking.SelectStepFails` | booking/booking.py:309-316 | one more key whose date cannot be tested makes the walk fail with that error |
| `Booking.SelectInRangeMeaning` | booking/booking.py:309-316 | a walk ends without error if and only if every key's date can be tested; a walk that ends without error kept every record in range, and kept only in-range records of the given keys |
| `Booking.SelectErrorPersists` | booking/booking.py:309-316 | the first date that cannot be tested aborts the walk with its error |
| `Booking.CollectBookings` | booking/booking.py:309-318 | the loop over a bucket returns every record in bucket order when no range is given, and otherwise the range walk's result, including its first error |
| `Booking.QueriedOrganization` | booking/booking.py:302-303 | the listing is about the given organization, or the user's organization when a user is given |
| `Booking.OrgBucketExact` | booking/booking.py:305-316 | under the organization index invariant, the records of an organization's bucket are exactly the stored bookings of that organization |
| `Booking.OrgBucketInRange` | booking/booking.py:309-316 | filtering an organization's bucket by a range keeps exactly that organization's stored bookings whose date is in range |
| `Booking.UserQueryComplete` | booking/booking.py:320-332 | under the index invariant, the user listing holds only stored bookings of that user, and all of them |
| `Booking.OrgQuery` | booking/booking.py:301-318 | an unknown user is "not found"; for a known user or a given organization, an empty or missing bucket gives no bookings and a listing without a range gives the bucket's records in order |
| `Booking.OrgBucketSucceeds` | booking/booking.py:309-316 | under the organization index, filtering the organization's bucket by a range succeeds if and only if the date of every stored booking of the organization can be tested against it |
| `Booking.OrgQuerySucceeds` | booking/booking.py:298-318 | under the index invariant, an unknown user gives "not found"; otherwise the listing succeeds without a range, and with a range it succeeds if and only if every stored booking of the organization has a date that can be tested against it |
| `Booking.OrgQueryComplete` | booking/booking.py:298-318 | under the index invariant, the organization listing holds only stored bookings of the organization (the user's, when a user is given), all of the organization's bookings when there is no range, and exactly those whose date is in range when there is one |
| `Booking.BookingEngine.constructor` | booking/booking.py:147-150 | empty table and indexes, and the engine invariant holds |
| `Booking.BookingEngine.AddUserBooking` | booking/booking.py:206-213 | the user's bucket gets the key appended (a new bucket when there is none); nothing else changes |
| `Booking.BookingEngine.AddOrganizationBooking` | booking/booking.py:215-222 | the organization's bucket gets the key appended (a new bucket when there is none); nothing else changes |
| `Booking.BookingEngine.DeleteUserBooking` | booking/booking.py:224-231 | the key leaves the user's bucket; a user without a bucket is left alone |
| `Booking.BookingEngine.DeleteOrganizationBooking` | booking/booking.py:233-240 | the key leaves the organization's bucket; an organization without a bucket is left alone |
| `Booking.BookingEngine.StoreBooking` | booking/booking.py:187-196 | the writes of an accepted booking (the record, both buckets and the month's counter) keep the engine invariant |
| `Booking.BookingEngine.ForgetBooking` | booking/booking.py:270-276 | the writes of an accepted cancellation remove the record and its key from every bucket, lower the counter of the user's organization (which is the booking's organization), and keep the engine invariant |
| `Booking.BookingEngine.BookRoom` | booking/booking.py:157-204 | the outcome is `BookCheck` of the old state. On success the record is stored under the fresh key, the key is appended to the requestor's and the organization's buckets, the month's counter goes up by one, and the invariant is kept. On failure nothing changes |
| `Booking.BookingEngine.CancelBooking` | booking/booking.py:242-278 | the outcome is `CancelCheck` of the old state. On success the record is deleted, the key leaves both buckets and is in no bucket afterwards, the counter of the requestor's organization (which is the booking's organization) goes down, and the invariant is kept. On failure nothing changes |
| `Booking.BookingEngine.BookingsOfOrganization` | booking/booking.py:298-318 | the result equals the specification `OrgQuery`: an unknown user is "not found", an empty or missing bucket gives no bookings, and otherwise the bucket walk's result. What that result holds is proved by `Booking.OrgQueryComplete`, and when it succeeds by `Booking.OrgQuerySucceeds` |
| `Booking.BookingEngine.BookingsOfUser` | booking/booking.py:320-332 | the records of the user's bucket in order: only that user's stored bookings, and all of them |

## Left out

- The `threading.Lock` around the deletions: concurrency is not modelled, and each operation is one atomic step.
- Generated `uuid` ids, the success message strings, the diagnostic `print`, and the `other_details` dictionaries stored with organizations and rooms: none of them affects any decision.
- The module-level singletons: the model passes objects explicitly (`Rooms` knows its `Directory` and `Floors`; `BookingEngine` knows its `Directory` and `Rooms`).
- `get_today`, `get_month_year` and `get_current_hour_minute`: clock reads become the parameters `today`, `monthYear` and `now` (minutes since midnight).
- `get_date_before` and the commented-out date comparison: no core operation uses them.
- `datetime.strptime`: it becomes the `DateParser` parameter, whose `None` stands for a `ValueError`; the calendar format rules are not modelled.
- The floating-point minutes of `get_time_difference_in_minutes`: both times have whole minutes, so the model uses exact integer minutes.
- `str.lower`: only ASCII letters are lower-cased; full Unicode case mapping is not modelled.
- The `time_slot` dictionary: it is modelled as a single start-to-end pair. The empty default dictionary is not modelled; in cancellation it would raise `StopIteration`. Multi-entry dictionaries are not modelled either.
- Exception classes and messages: each becomes a distinct `Error` value. The source's plain `Exception`s become `QuotaExceeded`, `NotOwner`, `TooLateToCancel` and `InvalidRange`. A `KeyError` becomes `MissingKey`.
- `get_all_floors`, `get_all_organizations`, `get_all_users` and `get_all_bookings` return a table unchanged; in the model they are the class fields themselves.
- The unused `bookings` attribute of the `Room` class is not modelled.
- The private `_check_if_*_exists` and `_check_can_*` helpers are inlined into the operations that call them, as a map membership test and `RequestorPermissions` followed by the matching `CanManage*` decision.
- Space.Floors.IncreaseRoomCount: requires the floor to exist, where the source would raise `KeyError`; its only caller checks this first.
- Space.Floors.DecreaseRoomCount: requires the floor to exist, where the source would raise `KeyError`; the source never calls it.
- Users.Directory.AddUserToOrganization: requires the organization's member set to exist, where the source would raise `KeyError`; its only caller checks this first.
- The `KeyError` that `_delete_*_booking_mapping` would raise for a key missing from a non-empty bucket cannot occur under the engine invariant, so it is not modelled.
- `get_booking_details` refusing an empty key cannot fire inside cancellation, because a booking key always ends with the slot text. `CancelCheck` therefore tests membership directly; the lookup itself is `Booking.BookingDetails`.
- The engine invariant does not relate the hour counters to the number of stored bookings. The counters are keyed by the clock's month, while bookings carry their own date, so the source keeps no such relation. The model proves per-operation counter effects instead.
- Python's dynamic typing of inputs (for example a non-integer floor number or capacity) is not modelled; inputs have the types the code evidently expects.
- `exceptions.py` and `test_cases.py` are not part of this model.
