# Mock OPERA API booking store, in Dafny

The system is a mock hotel-booking API. Its state is one in-memory list of
booking records. Each record is a JSON object; this model gives it string
keys and string values. The API has these operations:

- `POST /bookings` adds the four submitted fields (`guest_name`,
  `room_type`, `check_in`, `check_out`) plus a generated `id` to the end of
  the list, and returns the stored record.
- `PUT /bookings/{id}` finds the first record whose `id` matches and merges
  the four submitted fields into it (a dictionary update: every other key is
  kept). It returns the record, or raises 404 "Booking not found".
- `DELETE /bookings/{id}` removes the first record whose `id` matches and
  returns `{"status": "deleted"}`, or raises 404.
- `GET /bookings` returns the list.
- `GET /availability` returns the constant
  `{"rooms_available": {"single": 5, "double": 3, "suite": 2}}`.

Records loaded at start-up may carry any keys. Their ids may repeat, and a
record may have no `id` at all. The handlers return at the first matching
record (app.py:70, app.py:80), and repeated ids are why that matters. A
record with no `id` makes the scan's `b["id"]` raise a KeyError before any
later record is looked at. The model keeps that outcome as
`KeyError("id")`, and the list stays unchanged.

`BookingSpec.dfy` (module `BookingSpec`) describes each of the three
mutating requests (create, update, delete) as a pure transition from the
old list to a `Step`: the new list plus the reply. The
lemmas about sequences of requests are proved there. `Store.dfy` (module
`App`) has the class `Store`. Its field `bookings` is the module-level list.
Its methods use the same scanning loops as the handlers and change the field
in place. Each mutating method is proved to perform the matching transition.
The two read-only requests, `GET /bookings` and `GET /availability`, are
methods of `Store` only.

The availability reply is wrapped in a `rooms_available` key (app.py:43),
and the model keeps that wrapper.

## Model

| member | source | states |
|---|---|---|
| `BookingSpec.Fields` | app.py:54 | a submitted booking becomes a record with exactly the four field keys, each holding the submitted value, and no `id` |
| `BookingSpec.NewRecord` | app.py:53-55 | the created record has exactly the four submitted fields plus `id` set to the generated id |
| `BookingSpec.Merge` | app.py:67 | the dictionary update overwrites the four submitted fields, keeps every other key and its value, and adds no other key |
| `BookingSpec.MergeIdempotent` | app.py:67 | merging the same submission twice gives the same record as merging it once |
| `BookingSpec.MergeNewRecord` | app.py:54-67 | updating a created record gives the record that a create of the new submission, with the same id, would store |
| `BookingSpec.Find` | app.py:65-66 | the scan stops at the first record whose id matches (`Hit`), at the first record with no `id` (`Broken`, the KeyError), or at the end (`Absent`); every record before the stop has an id different from the requested one |
| `BookingSpec.FindUnique` | app.py:65-66 | the description of where the scan stops has exactly one outcome, so it fixes the result of the scan |
| `BookingSpec.FindWellKeyed` | app.py:65-71 | when every record has an id, the scan never raises a KeyError, and it finds the id if and only if some record has it |
| `BookingSpec.ApplyCreate` | app.py:53-61 | the list grows by one; the earlier records stay the same and in order; the new record is last; the reply is that stored record |
| `BookingSpec.ApplyUpdate` | app.py:64-71 | on a match, only the first matching record changes (merged, `id` kept) and the reply is the updated record; otherwise the list is unchanged and the reply is 404 "Booking not found", or KeyError("id") when the scan hits a record with no id; the length never changes |
| `BookingSpec.ApplyDelete` | app.py:74-81 | on a match, exactly the first matching record is removed; the length drops by one, the other records keep their order (putting the removed record back gives the old list), and the reply is `{"status": "deleted"}`; otherwise the list is unchanged and the reply is 404 or KeyError("id") |
| `BookingSpec.CreateKeepsEarlierScan` | app.py:55-66 | appending a record never moves a scan that already stops inside the list; so after a create that reuses an existing id, update and delete still target the older record |
| `BookingSpec.CreateThenFind` | app.py:55-66 | when every record has an id and the generated id is new, a later scan for that id stops at the new last record |
| `BookingSpec.CreateThenUpdate` | app.py:52-70 | under the same conditions, updating the new booking by its id replaces only that record, with the newly submitted fields and the same id |
| `BookingSpec.CreateThenDelete` | app.py:52-80 | under the same conditions, deleting the new booking by its id restores the list exactly and acknowledges the delete |
| `BookingSpec.UpdateIdempotent` | app.py:65-70 | sending the same update twice leaves the same list and the same reply as sending it once |
| `BookingSpec.UpdateKeepsIds` | app.py:65-70 | an update leaves every record's `id` key present or absent as before, with the same value, so it keeps every record keyed and keeps ids unique |
| `BookingSpec.DeleteKeepsIds` | app.py:75-80 | a delete keeps every record keyed and keeps ids unique; when ids are unique, the deleted id no longer occurs |
| `BookingSpec.CreateKeepsIds` | app.py:53-56 | a create keeps every record keyed, and with a new id it keeps ids unique |
| `BookingSpec.RunKeepsIds` | app.py:51-81 | any sequence of creates, updates and deletes keeps all records keyed with distinct ids, provided each create gets an id that is new at that moment |
| `App.Store.constructor` | app.py:11-17 | the list starts as the loaded records |
| `App.Store.GetAvailability` | app.py:41-45 | the reply is `{"rooms_available": {"single": 5, "double": 3, "suite": 2}}` and does not depend on the list or change it |
| `App.Store.GetBookings` | app.py:47-49 | returns the current list unchanged |
| `App.Store.Create` | app.py:51-61 | appends the record and returns it, as `ApplyCreate` describes |
| `App.Store.Update` | app.py:63-71 | its loop, with the early return and the KeyError on a record with no id, changes the list and replies as `ApplyUpdate` describes |
| `App.Store.Delete` | app.py:73-81 | its loop, with the pop at the found index, changes the list and replies as `ApplyDelete` describes |
| `App.CreateUpdateDelete` | scripts/validate_mapping.py:12-22 | the script's create, update, delete sequence on one fresh id gets the expected replies and leaves the list as it was |

## Left out

- Persistence: loading or creating `db.json` at start-up (the constructor takes the loaded list as a parameter), `save_bookings`, the `validation-output.json` log written by `append_validation`, and the webhook file. These are file I/O.
- FastAPI routing and pydantic validation of the request body. The model assumes the four string fields are present. The framework turns an uncaught KeyError into an HTTP 500; the model stops at the `KeyError("id")` outcome.
- `uuid.uuid4()`: the generated id is a parameter of `Create`. The source never checks that it is new. Freshness is only a hypothesis of the lemmas that need it.
- JSON values other than strings. A loaded record whose `id` is, say, a number never equals the path parameter. The model can only express this as a string id that differs.
- Aliasing: `update_booking` returns the dict object that is stored in the list. The model returns a value equal to the stored record.
- The network client in scripts/validate_mapping.py. Only its request sequence is modelled, as `App.CreateUpdateDelete`.
- The /checkin and /checkout endpoints and the 201 from /availability that tests/test_flow.py expects (tests/test_flow.py:10, 34-41). app.py has neither.
- Success status codes (FastAPI's default 200) are not modelled: `Ok` carries only the body. The 404 of `NotFound` is the only status the model represents.
- Concurrency: requests are modelled one after another. FastAPI runs these plain handlers on a thread pool, so two requests can interleave. For example, a `pop` during another request's scan makes that scan skip a record. The model, including `Run` and every `Store` method, does not capture such interleavings.
- Key order: a `map` has no order, so the model does not keep the key order of the JSON records and replies.
