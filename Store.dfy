/**
  The request handlers of the mock OPERA API over the module-level booking
  list, which they change in place. Each handler is proved to perform the
  transition the value model in BookingSpec describes; the properties of the
  transitions are proved there.

  File mirroring of the list, the validation log and the webhook file are
  side channels and are not modelled; the generated uuid is a parameter.
 */
module App {
  import opened BookingSpec

  class Store {
    /** The module-level `bookings` list. */
    var bookings: seq<Record>

    /** Start-up: the list loaded from the data file (empty when the file
        does not exist). */
    constructor (loaded: seq<Record>)
      ensures bookings == loaded
    {
      bookings := loaded;
    }

    /** GET /availability: a constant, whatever the list holds. */
    method GetAvailability() returns (r: map<string, map<string, int>>)
      ensures r.Keys == {"rooms_available"}
      ensures r["rooms_available"].Keys == {"single", "double", "suite"}
      ensures r["rooms_available"]["single"] == 5
      ensures r["rooms_available"]["double"] == 3
      ensures r["rooms_available"]["suite"] == 2
    {
      r := map["rooms_available" := RoomsAvailable];
    }

    /** GET /bookings: the whole list, in order. */
    method GetBookings() returns (r: seq<Record>)
      ensures r == bookings
    {
      r := bookings;
    }

    /** POST /bookings with the id the uuid generator produced. */
    method Create(b: Booking, newId: string) returns (r: Record)
      modifies this
      ensures Step(bookings, Ok(r)) == ApplyCreate(old(bookings), b, newId)
    {
      r := Fields(b);
      r := r[IdKey := newId];
      bookings := bookings + [r];
    }

    /** PUT /bookings/{id}: scan for the first record with the id and merge
        the submitted fields into it. */
    method Update(id: string, b: Booking) returns (reply: Reply)
      modifies this
      ensures Step(bookings, reply) == ApplyUpdate(old(bookings), id, b)
    {
      for i := 0 to |bookings|
        invariant bookings == old(bookings)
        invariant PassesBefore(bookings, id, i)
      {
        var r := bookings[i];
        if IdKey !in r {
          FindUnique(bookings, id, Broken(i));
          return Err(KeyError(IdKey));
        }
        if r[IdKey] == id {
          FindUnique(bookings, id, Hit(i));
          r := Merge(r, b);
          bookings := bookings[i := r];
          return Ok(r);
        }
      }
      FindUnique(bookings, id, Absent);
      reply := Err(NotFound);
    }

    /** DELETE /bookings/{id}: scan for the first record with the id and pop
        it from the list. */
    method Delete(id: string) returns (reply: Reply)
      modifies this
      ensures Step(bookings, reply) == ApplyDelete(old(bookings), id)
    {
      for i := 0 to |bookings|
        invariant bookings == old(bookings)
        invariant PassesBefore(bookings, id, i)
      {
        var r := bookings[i];
        if IdKey !in r {
          FindUnique(bookings, id, Broken(i));
          return Err(KeyError(IdKey));
        }
        if r[IdKey] == id {
          FindUnique(bookings, id, Hit(i));
          bookings := bookings[..i] + bookings[i + 1..];
          return Ok(DeletedAck);
        }
      }
      FindUnique(bookings, id, Absent);
      reply := Err(NotFound);
    }
  }

  /** A client of the handlers: create a booking with a fresh id, update it,
      delete it; the list ends as it began. */
  method CreateUpdateDelete(store: Store, b: Booking, b': Booking, newId: string)
    requires WellKeyed(store.bookings) && !Holds(store.bookings, newId)
    modifies store
    ensures store.bookings == old(store.bookings)
  {
    ghost var s := store.bookings;
    var created := store.Create(b, newId);
    assert created == NewRecord(b, newId);
    CreateThenFind(s, b, newId);
    var updated := store.Update(newId, b');
    CreateThenUpdate(s, b, newId, b');
    assert updated == Ok(NewRecord(b', newId));
    var deleted := store.Delete(newId);
    CreateThenDelete(s, b', newId);
    assert deleted == Ok(DeletedAck);
  }
}
