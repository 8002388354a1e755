# Resource booking services, modelled in Dafny

This project models the three services at the centre of the pgra-backend resource-booking
application:

- **Booking creation** (`BookingService.create`). It looks the resource up and fails with NotFound
  when there is none. It prices the interval as its duration in hours times the resource's hourly
  rate. It refuses the booking with Forbidden when any reservation on the same resource overlaps
  the half-open interval [start, end). Otherwise it appends one new reservation.
- **The resource store** (`ResourceService`). It creates, finds, lists, updates and removes
  resources. Update and remove first check that the row exists and fail with NotFound otherwise.
- **The user store** (`UserService`). It creates, finds, lists, updates, promotes and removes
  users. Passwords are stored only as hashes. Only an administrator or the user themself may
  update a user.

The database tables become state held by one class per service:

- the resource and user tables are maps from id to row;
- the reservation table is a sequence of rows, and the overlap query is a search loop over it;
- the booking service reads the resource table through a reference to the resource service.

Each class keeps an invariant `Valid()`. Every row is stored under its own id. Ids are handed out by
a counter, standing in for the database's generated keys. For reservations, `Valid()` also says that
no two reservations on the same resource overlap. This holds for all reservations, whatever their
status, because creation is the only writer and it checks every row. `Booking.AppendKeepsNoOverlap`
is the lemma that carries the invariant across a successful booking.

Times are integer milliseconds. Prices are Dafny `real`s, so the duration in hours is exact
rational arithmetic. The source uses floating point, and neither version rounds. Intervals with
`end <= start` are not rejected, because the source does not reject them either. The
non-overlap invariant holds for them as well.

Module layout: `Common` (ids, `Option`, `Error`, `Result`), `Resources`, `Users`, `Booking`.

Error outcomes:

| model | source |
|---|---|
| `NotFound` | `NotFoundException` thrown by a service after its own lookup |
| `Forbidden` | `ForbiddenException` thrown by a service |
| `MissingRecord` | the database client's error for an update or delete of a row that does not exist (`user.update`, `user.delete`, reached without a prior lookup) |
| `UnknownArgument` | the database client's rejection of a data record that names a column the table lacks |

`UnknownArgument` arises in one case. `UserService.update` hashes the password only when it is
truthy. An empty string is falsy, so it is neither hashed nor deleted from `dataToUpdate`, and the
write then names the non-existent `password` column. The request validation in front of the
service would normally refuse such a password; the service itself does not.

## Model

| member | source | states |
|---|---|---|
| `Booking.BookingService.Create` | src/booking/booking.service.ts:13-49 | Absent resource: NotFound and the table is unchanged. Any reservation on that resource overlapping [start, end), whatever its status: Forbidden and the table is unchanged. Otherwise exactly one PENDING reservation is appended, with a fresh id, the given times, resource and user, and the price from the resource's hourly rate. All earlier rows are untouched. The non-overlap invariant is preserved. |
| `Booking.BookingService.FindConflict` | src/booking/booking.service.ts:28-36 | Returns nothing exactly when no stored reservation matches the overlap query. Otherwise it returns the first matching row, meaning same resource, `endTime > start` and `startTime < end`. |
| `Booking.AppendKeepsNoOverlap` | src/booking/booking.service.ts:28-48 | Appending a row that conflicts with no existing row keeps all rows pairwise non-overlapping. |
| `Booking.OverlappingSymmetric` | src/booking/booking.service.ts:32-33 | The overlap test is symmetric in its two reservations. |
| `Booking.TouchingDoesNotConflict` | src/booking/booking.service.ts:32-33 | A reservation ending exactly at `start`, or starting exactly at `end`, does not conflict. |
| `Booking.LaterOverlapConflicts` | src/booking/booking.service.ts:28-39 | An existing 10:00-12:00 booking conflicts with a request for 11:00-13:00 on the same resource. |
| `Booking.OtherResourcesIrrelevant` | src/booking/booking.service.ts:30 | Adding reservations on other resources never creates or removes a conflict. |
| `Booking.ConflictIgnoresStatus` | src/booking/booking.service.ts:28-36 | Changing a row's status, to CANCELLED for example, never changes whether a conflict exists, because the query has no status filter. |
| `Booking.TwoHoursAtHundred` | src/booking/booking.service.spec.ts:88-124 | A two-hour booking at 100 per hour costs 200. |
| `Booking.NinetyMinutesAtHundred` | src/booking/booking.service.ts:23-27 | Fractional hours are priced exactly: 1.5 hours at 100 per hour cost 150. |
| `Booking.PriceLinear` | src/booking/booking.service.ts:23-27 | The price depends only on the duration and scales linearly with it. |
| `Booking.PriceNonNegative` | src/booking/booking.service.ts:23-27 | A non-negative duration at a non-negative rate has a non-negative price. |
| `Resources.ResourceService.Create` | src/resource/resource.service.ts:14-25 | Adds exactly one resource under a fresh id, with the given name, description, hourly price and owner and no image. Every other row is unchanged. |
| `Resources.ResourceService.FindOne` | src/resource/resource.service.ts:27-33 | Returns the row with that id when it exists, and nothing otherwise. |
| `Resources.ResourceService.FindAll` | src/resource/resource.service.ts:35-37 | Returns every stored resource exactly once and nothing else. |
| `Resources.ResourceService.Update` | src/resource/resource.service.ts:39-55 | Absent id: NotFound and the table is unchanged. Present id: that row is replaced by its patched form and every other row is unchanged. |
| `Resources.Patched` | src/resource/resource.service.ts:51-54 | An update can never change a resource's id or owner. |
| `Resources.PatchedFields` | src/resource/resource.service.ts:51-54 | Each supplied field overwrites the stored one, and each absent field keeps its stored value. |
| `Resources.EmptyPatchIsIdentity` | src/resource/resource.service.ts:51-54 | An update that supplies no field leaves the row unchanged. |
| `Resources.PatchIdempotent` | src/resource/resource.service.ts:51-54 | Applying the same update twice gives the same row as applying it once. |
| `Resources.ResourceService.Remove` | src/resource/resource.service.ts:57-71 | Absent id: NotFound and the table is unchanged. Present id: returns that row and deletes exactly it. |
| `Users.UserService.FindAll` | src/user/user.service.ts:17-19 | Returns every stored user exactly once and nothing else. |
| `Users.UserService.FindOne` | src/user/user.service.ts:21-27 | Returns the row with that id when it exists, and nothing otherwise. |
| `Users.UserService.Create` | src/user/user.service.ts:29-41 | Adds exactly one user under a fresh id, with the given name and email, the role from the request and the hash of the given password. Every other row is unchanged. |
| `Users.UserService.PrepareUpdate` | src/user/user.service.ts:50-55 | The data record copies the request's name, email and role. A non-empty password is replaced by its hash and removed from the record. No password means no new hash. An empty password stays in the record unhashed. |
| `Users.UserService.Update` | src/user/user.service.ts:43-60 | Forbidden exactly when the caller is neither an ADMIN nor the target user. Every failure leaves the table unchanged. On success only the target's row changes: supplied fields overwrite, a given password changes the stored hash to its hash, and the id and absent fields stay. |
| `Users.Applied` | src/user/user.service.ts:56-59 | Writing an update record never changes the user's id. |
| `Users.Promoted` | src/user/user.service.ts:71-76 | After a promotion the user is an OWNER. Only that user's role changes; the other fields and all other users stay the same. |
| `Users.PromoteIdempotent` | src/user/user.service.ts:71-76 | Promoting a user twice gives the same table as promoting them once. |
| `Users.UserService.PromoteToOwner` | src/user/user.service.ts:62-77 | Absent id: NotFound and nothing changes. Present id: the table becomes its promoted form and the promoted row is returned. |
| `Users.UserService.Remove` | src/user/user.service.ts:79-85 | Absent id: the database's missing-record error and the table is unchanged. Present id: returns that row and deletes exactly it. |

## Left out

- Database engine, connection pooling and URL rewriting (src/prisma/prisma.service.ts): replaced by in-memory tables.
- Concurrency: the check-then-write sequence of booking creation runs as one atomic step here, so the race between two concurrent bookings is not modelled.
- Floating point: times and prices use exact integer and real arithmetic in place of JavaScript doubles and the decimal-to-number conversion.
- Invalid dates (`NaN` times) are not modelled: times are always integers.
- Generated values: ids come from a per-table counter in place of generated keys; `createdAt`/`updatedAt` timestamps are not modelled.
- Database schema effects are not modelled, because the schema is not part of this model. This covers foreign-key failures of `ownerId`/`userId` references, the unique email constraint, and cascades when a resource or user is deleted. The reservation status default of PENDING is taken from the booking test's expected row.
- Password hashing: bcrypt is a function `hash: string -> string` fixed when the user service is built; its random salt is not modelled.
- The update-user request type (src/user/dto/update-user.dto.ts) is not part of this model; it is taken to be the partial form of the create-user request (name, email, password, role, each optional).
- Request validation (length and format checks on request fields), controllers, guards, modules, the authentication service and the whole frontend: framework wiring outside the services.
- Blocked periods, availability windows, booking confirmation, cancellation, update and removal, and per-user booking lists: the controllers call them but the services do not implement them.
- Promotion of a user to OWNER when they create a resource: a resource test expects it, but `ResourceService.create` does not do it, so the model does not either.
