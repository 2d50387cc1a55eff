/**
  The in-memory booking list of the mock OPERA API, as values.

  A booking is a JSON object with string keys; the list holds the records in
  insertion order. Ids are NOT guaranteed unique (records loaded at start-up
  may repeat an id or lack one), so every lookup is "the first record whose
  `id` matches", and a record without an `id` stops the scan with a KeyError.

  Each operation of the API is a transition `Apply*(s, ...) : Step` from the
  old list to the new list together with the reply sent to the client.
 */
module BookingSpec {

  /** A stored booking: a JSON object with string keys and string values. */
  type Record = map<string, string>

  /** The key under which the server stores the generated identifier. */
  const IdKey: string := "id"

  /** The four fields the client submits on create and update. */
  datatype Booking = Booking(guestName: string, roomType: string, checkIn: string, checkOut: string)

  /** The keys of a submitted booking, as the request model serialises them. */
  const BookingKeys: set<string> := {"guest_name", "room_type", "check_in", "check_out"}

  /** Why a request failed: the HTTP 404 the handler raises, or the KeyError
      raised by reading `id` from a record that has none. */
  datatype Failure = HttpError(status: int, detail: string) | KeyError(key: string)

  const NotFound: Failure := HttpError(404, "Booking not found")

  /** The body the server answers with, or the failure it raises. */
  datatype Reply = Ok(body: Record) | Err(failure: Failure)

  /** The new list together with the reply of one request. */
  datatype Step = Step(store: seq<Record>, reply: Reply)

  /** The acknowledgement returned by a successful delete. */
  const DeletedAck: Record := map["status" := "deleted"]

  /** The constant answer of the availability endpoint. */
  const RoomsAvailable: map<string, int> := map["single" := 5, "double" := 3, "suite" := 2]

  // ---------------------------------------------------------------------
  // Records

  /** The dictionary form of a submitted booking. */
  function Fields(b: Booking): (f: Record)
    ensures f.Keys == BookingKeys
    ensures Carries(f, b)
    ensures IdKey !in f
  {
    map["guest_name" := b.guestName, "room_type" := b.roomType,
        "check_in" := b.checkIn, "check_out" := b.checkOut]
  }

  /** `r` holds the submitted values under the four field keys. */
  predicate Carries(r: Record, b: Booking)
  {
    && "guest_name" in r && r["guest_name"] == b.guestName
    && "room_type" in r && r["room_type"] == b.roomType
    && "check_in" in r && r["check_in"] == b.checkIn
    && "check_out" in r && r["check_out"] == b.checkOut
  }

  /** The record a create stores: the submitted fields plus the new id. */
  function NewRecord(b: Booking, newId: string): (r: Record)
    ensures r.Keys == BookingKeys + {IdKey}
    ensures Carries(r, b) && r[IdKey] == newId
  {
    Fields(b)[IdKey := newId]
  }

  /** Python's `record.update(fields)`: the submitted fields overwrite, every
      other key keeps its value. */
  function Merge(r: Record, b: Booking): (m: Record)
    ensures m.Keys == r.Keys + BookingKeys
    ensures Carries(m, b)
    ensures forall k :: k in r && k !in BookingKeys ==> m[k] == r[k]
  {
    r + Fields(b)
  }

  lemma MergeIdempotent(r: Record, b: Booking)
    ensures Merge(Merge(r, b), b) == Merge(r, b)
  {
  }

  /** Merging into a record that already has all four keys replaces their
      values, so updating a created record gives the record created from the
      new submission. */
  lemma MergeNewRecord(b: Booking, b': Booking, newId: string)
    ensures Merge(NewRecord(b, newId), b') == NewRecord(b', newId)
  {
  }

  // ---------------------------------------------------------------------
  // The first-match scan shared by update and delete

  predicate HasId(r: Record)
  {
    IdKey in r
  }

  /** The scan passes index `k` only if every earlier record has an id that
      differs from the requested one. */
  predicate PassesBefore(s: seq<Record>, id: string, k: nat)
  {
    k <= |s| && forall j :: 0 <= j < k ==> HasId(s[j]) && s[j][IdKey] != id
  }

  /** Where the scan stops: on the first match, on a record without an id
      (KeyError), or at the end of the list. */
  datatype Scan = Hit(index: nat) | Broken(index: nat) | Absent

  predicate ScanDescribes(s: seq<Record>, id: string, r: Scan)
  {
    match r
    case Hit(i) => PassesBefore(s, id, i) && i < |s| && HasId(s[i]) && s[i][IdKey] == id
    case Broken(i) => PassesBefore(s, id, i) && i < |s| && !HasId(s[i])
    case Absent => PassesBefore(s, id, |s|)
  }

  function Shift(r: Scan): Scan
  {
    match r
    case Hit(i) => Hit(i + 1)
    case Broken(i) => Broken(i + 1)
    case Absent => Absent
  }

  /** The scan of `for b in bookings: if b["id"] == id`. */
  function Find(s: seq<Record>, id: string): (r: Scan)
    ensures ScanDescribes(s, id, r)
  {
    if |s| == 0 then Absent
    else if !HasId(s[0]) then Broken(0)
    else if s[0][IdKey] == id then Hit(0)
    else Shift(Find(s[1..], id))
  }

  /** At most one scan outcome fits a list, so the description determines Find. */
  lemma FindUnique(s: seq<Record>, id: string, r: Scan)
    requires ScanDescribes(s, id, r)
    ensures Find(s, id) == r
  {
  }

  /** Every record carries an id: the scan can then never raise a KeyError. */
  predicate WellKeyed(s: seq<Record>)
  {
    forall j :: 0 <= j < |s| ==> HasId(s[j])
  }

  predicate Holds(s: seq<Record>, id: string)
  {
    exists j :: 0 <= j < |s| && HasId(s[j]) && s[j][IdKey] == id
  }

  /** No two records share an id. */
  predicate UniqueIds(s: seq<Record>)
  {
    forall j, k :: 0 <= j < |s| && 0 <= k < |s| && HasId(s[j]) && HasId(s[k]) && s[j][IdKey] == s[k][IdKey] ==> j == k
  }

  /** On a list where every record has an id, the scan finds the id exactly
      when some record carries it, and reports "not found" otherwise. */
  lemma FindWellKeyed(s: seq<Record>, id: string)
    requires WellKeyed(s)
    ensures !Find(s, id).Broken?
    ensures Find(s, id).Hit? <==> Holds(s, id)
  {
  }

  // ---------------------------------------------------------------------
  // The operations

  /** POST /bookings: append the submitted fields with the generated id. */
  function ApplyCreate(s: seq<Record>, b: Booking, newId: string): (t: Step)
    ensures |t.store| == |s| + 1 && t.store[..|s|] == s
    ensures t.store[|s|] == NewRecord(b, newId)
    ensures t.reply == Ok(t.store[|s|])
  {
    var r := NewRecord(b, newId);
    Step(s + [r], Ok(r))
  }

  /** PUT /bookings/{id}: merge the submitted fields into the first record
      with that id and return it; 404 when no record has it. */
  function ApplyUpdate(s: seq<Record>, id: string, b: Booking): (t: Step)
    ensures |t.store| == |s|
    ensures Find(s, id).Hit? ==>
      var i := Find(s, id).index;
      && t.store == s[i := Merge(s[i], b)]
      && t.store[i][IdKey] == id
      && t.reply == Ok(t.store[i])
    ensures Find(s, id).Absent? ==> t == Step(s, Err(NotFound))
    ensures Find(s, id).Broken? ==> t == Step(s, Err(KeyError(IdKey)))
  {
    match Find(s, id)
    case Hit(i) =>
      var r := Merge(s[i], b);
      Step(s[i := r], Ok(r))
    case Broken(_) => Step(s, Err(KeyError(IdKey)))
    case Absent => Step(s, Err(NotFound))
  }

  /** DELETE /bookings/{id}: remove the first record with that id and
      acknowledge; 404 when no record has it. */
  function ApplyDelete(s: seq<Record>, id: string): (t: Step)
    ensures Find(s, id).Hit? ==>
      var i := Find(s, id).index;
      && |t.store| == |s| - 1
      && t.store == s[..i] + s[i + 1..]
      && t.store[..i] + [s[i]] + t.store[i..] == s
      && t.reply == Ok(DeletedAck)
    ensures Find(s, id).Absent? ==> t == Step(s, Err(NotFound))
    ensures Find(s, id).Broken? ==> t == Step(s, Err(KeyError(IdKey)))
  {
    match Find(s, id)
    case Hit(i) =>
      assert s[..i] + [s[i]] + s[i + 1..] == s;
      Step(s[..i] + s[i + 1..], Ok(DeletedAck))
    case Broken(_) => Step(s, Err(KeyError(IdKey)))
    case Absent => Step(s, Err(NotFound))
  }

  // ---------------------------------------------------------------------
  // Properties relating several requests

  /** Appending a record never changes where a scan that already stopped
      inside the list stops: a create whose id duplicates an existing one
      leaves update and delete targeting the older record. */
  lemma CreateKeepsEarlierScan(s: seq<Record>, b: Booking, newId: string, id: string)
    requires !Find(s, id).Absent?
    ensures Find(ApplyCreate(s, b, newId).store, id) == Find(s, id)
  {
  }

  /** A create with a fresh id on a list where every record has an id makes
      the new record the target of later scans for that id. */
  lemma CreateThenFind(s: seq<Record>, b: Booking, newId: string)
    requires WellKeyed(s) && !Holds(s, newId)
    ensures Find(ApplyCreate(s, b, newId).store, newId) == Hit(|s|)
  {
  }

  /** Updating a freshly created booking by its id rewrites that booking and
      nothing else. */
  lemma CreateThenUpdate(s: seq<Record>, b: Booking, newId: string, b': Booking)
    requires WellKeyed(s) && !Holds(s, newId)
    ensures ApplyUpdate(ApplyCreate(s, b, newId).store, newId, b')
         == Step(s + [NewRecord(b', newId)], Ok(NewRecord(b', newId)))
  {
    CreateThenFind(s, b, newId);
    MergeNewRecord(b, b', newId);
    var t := ApplyCreate(s, b, newId).store;
    assert t[|s| := NewRecord(b', newId)] == s + [NewRecord(b', newId)];
  }

  /** Deleting a freshly created booking by its id restores the list. */
  lemma CreateThenDelete(s: seq<Record>, b: Booking, newId: string)
    requires WellKeyed(s) && !Holds(s, newId)
    ensures ApplyDelete(ApplyCreate(s, b, newId).store, newId) == Step(s, Ok(DeletedAck))
  {
  }

  /** Sending the same update twice leaves the list, and the reply, as one
      update does. */
  lemma UpdateIdempotent(s: seq<Record>, id: string, b: Booking)
    ensures ApplyUpdate(ApplyUpdate(s, id, b).store, id, b) == ApplyUpdate(s, id, b)
  {
    var t := ApplyUpdate(s, id, b);
    match Find(s, id)
    case Hit(i) =>
      assert forall j :: 0 <= j < i ==> t.store[j] == s[j];
      FindUnique(t.store, id, Hit(i));
      MergeIdempotent(s[i], b);
    case Broken(_) =>
    case Absent =>
  }

  /** An update keeps every id in place, so it keeps the list well keyed and
      its ids unique. */
  lemma UpdateKeepsIds(s: seq<Record>, id: string, b: Booking)
    ensures forall j :: 0 <= j < |s| ==>
      (HasId(ApplyUpdate(s, id, b).store[j]) <==> HasId(s[j])) &&
      (HasId(s[j]) ==> ApplyUpdate(s, id, b).store[j][IdKey] == s[j][IdKey])
    ensures WellKeyed(s) ==> WellKeyed(ApplyUpdate(s, id, b).store)
    ensures UniqueIds(s) ==> UniqueIds(ApplyUpdate(s, id, b).store)
  {
  }

  /** A delete keeps the list well keyed and its ids unique; with unique ids
      the deleted id is gone afterwards. */
  lemma DeleteKeepsIds(s: seq<Record>, id: string)
    ensures WellKeyed(s) ==> WellKeyed(ApplyDelete(s, id).store)
    ensures UniqueIds(s) ==> UniqueIds(ApplyDelete(s, id).store)
    ensures UniqueIds(s) && Find(s, id).Hit? ==> !Holds(ApplyDelete(s, id).store, id)
  {
    var t := ApplyDelete(s, id).store;
    if Find(s, id).Hit? {
      var i := Find(s, id).index;
      assert forall j :: 0 <= j < |t| ==> t[j] == s[if j < i then j else j + 1];
    }
  }

  /** A create with a fresh id keeps the list well keyed and its ids unique. */
  lemma CreateKeepsIds(s: seq<Record>, b: Booking, newId: string)
    ensures WellKeyed(s) ==> WellKeyed(ApplyCreate(s, b, newId).store)
    ensures UniqueIds(s) && !Holds(s, newId) ==> UniqueIds(ApplyCreate(s, b, newId).store)
  {
  }

  // ---------------------------------------------------------------------
  // Sequences of requests

  /** A mutating request, with the id a create would generate. */
  datatype Request = CreateReq(booking: Booking, newId: string) | UpdateReq(id: string, booking: Booking) | DeleteReq(id: string)

  function Apply(s: seq<Record>, q: Request): Step
  {
    match q
    case CreateReq(b, newId) => ApplyCreate(s, b, newId)
    case UpdateReq(id, b) => ApplyUpdate(s, id, b)
    case DeleteReq(id) => ApplyDelete(s, id)
  }

  /** The list after serving the requests in order. */
  function Run(s: seq<Record>, qs: seq<Request>): seq<Record>
    decreases |qs|
  {
    if qs == [] then s else Run(Apply(s, qs[0]).store, qs[1..])
  }

  /** Every create in the run draws an id that no record holds at that moment. */
  predicate FreshIdsAlong(s: seq<Record>, qs: seq<Request>)
    decreases |qs|
  {
    qs == [] ||
    ((qs[0].CreateReq? ==> !Holds(s, qs[0].newId)) && FreshIdsAlong(Apply(s, qs[0]).store, qs[1..]))
  }

  /** Starting from a list whose records all carry distinct ids, any run
      whose creates draw fresh ids keeps it that way. */
  lemma {:induction false} RunKeepsIds(s: seq<Record>, qs: seq<Request>)
    requires WellKeyed(s) && UniqueIds(s) && FreshIdsAlong(s, qs)
    ensures WellKeyed(Run(s, qs)) && UniqueIds(Run(s, qs))
    decreases |qs|
  {
    if qs != [] {
      match qs[0] {
        case CreateReq(b, newId) => CreateKeepsIds(s, b, newId);
        case UpdateReq(id, b) => UpdateKeepsIds(s, id, b);
        case DeleteReq(id) => DeleteKeepsIds(s, id);
      }
      RunKeepsIds(Apply(s, qs[0]).store, qs[1..]);
    }
  }
}
