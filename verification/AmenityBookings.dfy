/**
 Amenity bookings: half-open intervals [startAt, endAt) that are created, moved, cancelled and
 revived. Only the overlap query before each write keeps the live ones apart.
 */
module AmenityBookings {
  import opened Wrappers

  datatype BookingStatus = Requested | Approved | Rejected | Cancelled | Completed

  datatype Booking = Booking(workspaceId: string, amenityId: string, residentId: string,
                             startAt: int, endAt: int, status: BookingStatus)

  datatype Amenity = Amenity(workspaceId: string, isActive: bool, requiresApproval: bool,
                             estateId: Option<string>)

  /** A resident with the estate of the unit they live in, if any. */
  datatype Resident = Resident(id: string, workspaceId: string, estateId: Option<string>)

  /** The caller: the resident record behind the user, and whether the role is RESIDENT. */
  datatype Actor = Actor(isResident: bool, resident: Option<Resident>)

  /** A date field of a request body after parsing. */
  datatype TimeInput = Absent | Malformed | At(ms: int)

  datatype StatusInput = NoStatus | UnknownStatus | Status(status: BookingStatus)

  datatype CreateRequest = CreateRequest(residentId: Option<string>, amenityId: string,
                                         startAt: TimeInput, endAt: TimeInput)

  datatype UpdateRequest = UpdateRequest(startAt: TimeInput, endAt: TimeInput, status: StatusInput)

  datatype BookingError =
    | ResidentNotFound | ResidentRequired | NotYourBooking | AmenityNotFound | AmenityInactive
    | InvalidTimes | EndNotAfterStart | WrongProperty | AlreadyBooked
    | BookingNotFound | OnlyCancelAllowed | StatusRejectedByStore

  /** The rows the handlers read and write. A booking's id is its position in `rows`. */
  datatype Desk = Desk(estate: bool, amenities: map<string, Amenity>, residents: map<string, Resident>,
                       rows: seq<Booking>)

  predicate IsLive(s: BookingStatus) { s == Requested || s == Approved }

  /** The overlap query's row filter. */
  predicate Blocks(b: Booking, workspaceId: string, amenityId: string, startAt: int, endAt: int) {
    && b.workspaceId == workspaceId
    && b.amenityId == amenityId
    && IsLive(b.status)
    && b.startAt < endAt
    && b.endAt > startAt
  }

  predicate Overlaps(rows: seq<Booking>, workspaceId: string, amenityId: string, startAt: int, endAt: int,
                     except: Option<nat>) {
    exists i :: 0 <= i < |rows| && Some(i) != except && Blocks(rows[i], workspaceId, amenityId, startAt, endAt)
  }

  // ---- what the two handlers do, as functions of the rows ----

  function RequestedResident(d: Desk, workspaceId: string, req: CreateRequest, actor: Actor)
    : Result<Resident, BookingError>
  {
    if req.residentId.Some? then
      if req.residentId.value in d.residents && d.residents[req.residentId.value].workspaceId == workspaceId
      then Ok(d.residents[req.residentId.value]) else Err(ResidentNotFound)
    else if actor.resident.Some? then Ok(actor.resident.value) else Err(ResidentRequired)
  }

  /** The first check of createAmenityBooking that fails before the overlap query, if any. */
  function CreateBlocker(d: Desk, workspaceId: string, req: CreateRequest, actor: Actor): Option<BookingError> {
    var resident := RequestedResident(d, workspaceId, req, actor);
    if resident.Err? then Some(resident.error)
    else if actor.isResident && (actor.resident.None? || actor.resident.value.id != resident.value.id)
    then Some(NotYourBooking)
    else if req.amenityId !in d.amenities || d.amenities[req.amenityId].workspaceId != workspaceId
    then Some(AmenityNotFound)
    else if !d.amenities[req.amenityId].isActive then Some(AmenityInactive)
    else if !req.startAt.At? || !req.endAt.At? then Some(InvalidTimes)
    else if req.endAt.ms <= req.startAt.ms then Some(EndNotAfterStart)
    else
      var here := d.amenities[req.amenityId].estateId;
      if d.estate && here.Some? && resident.value.estateId.Some? && here != resident.value.estateId
      then Some(WrongProperty)
      else None
  }

  function Created(d: Desk, workspaceId: string, req: CreateRequest, actor: Actor): (Desk, Result<nat, BookingError>) {
    var blocker := CreateBlocker(d, workspaceId, req, actor);
    if blocker.Some? then (d, Err(blocker.value))
    else if Overlaps(d.rows, workspaceId, req.amenityId, req.startAt.ms, req.endAt.ms, None)
    then (d, Err(AlreadyBooked))
    else
      var status := if d.amenities[req.amenityId].requiresApproval then Requested else Approved;
      var resident := RequestedResident(d, workspaceId, req, actor).value;
      (d.(rows := d.rows + [Booking(workspaceId, req.amenityId, resident.id,
                                    req.startAt.ms, req.endAt.ms, status)]),
       Ok(|d.rows|))
  }

  /** The first check of updateAmenityBooking that fails before the overlap query, if any. */
  function UpdateBlocker(d: Desk, workspaceId: string, id: nat, req: UpdateRequest, actor: Actor)
    : Option<BookingError>
  {
    if id >= |d.rows| || d.rows[id].workspaceId != workspaceId then Some(BookingNotFound)
    else if actor.isResident && (actor.resident.None? || actor.resident.value.id != d.rows[id].residentId)
    then Some(NotYourBooking)
    else if actor.isResident && !req.status.NoStatus? && req.status != Status(Cancelled)
    then Some(OnlyCancelAllowed)
    else if req.startAt.Malformed? || req.endAt.Malformed? then Some(InvalidTimes)
    else if NextTime(req.endAt, d.rows[id].endAt) <= NextTime(req.startAt, d.rows[id].startAt)
    then Some(EndNotAfterStart)
    else None
  }

  function NextTime(input: TimeInput, current: int): int {
    if input.At? then input.ms else current
  }

  function Moved(b: Booking, req: UpdateRequest): Booking {
    b.(startAt := NextTime(req.startAt, b.startAt), endAt := NextTime(req.endAt, b.endAt),
       status := if req.status.Status? then req.status.status else b.status)
  }

  function Updated(d: Desk, workspaceId: string, id: nat, req: UpdateRequest, actor: Actor)
    : (Desk, Result<nat, BookingError>)
  {
    var blocker := UpdateBlocker(d, workspaceId, id, req, actor);
    if blocker.Some? then (d, Err(blocker.value))
    else if req.status.UnknownStatus? then (d, Err(StatusRejectedByStore))
    else
      var b := Moved(d.rows[id], req);
      if IsLive(b.status) && Overlaps(d.rows, workspaceId, b.amenityId, b.startAt, b.endAt, Some(id))
      then (d, Err(AlreadyBooked))
      else (d.(rows := d.rows[id := b]), Ok(id))
  }

  /** The handlers themselves, writing the rows in place. */
  class BookingService {
    const estate: bool
    var amenities: map<string, Amenity>
    var residents: map<string, Resident>
    var rows: seq<Booking>

    constructor (estate: bool)
      ensures Contents() == Desk(estate, map[], map[], [])
    {
      this.estate := estate;
      amenities, residents, rows := map[], map[], [];
    }

    function Contents(): Desk
      reads this
    {
      Desk(estate, amenities, residents, rows)
    }

    method CreateAmenityBooking(workspaceId: string, req: CreateRequest, actor: Actor)
      returns (result: Result<nat, BookingError>)
      modifies this`rows
      ensures (Contents(), result) == Created(old(Contents()), workspaceId, req, actor)
    {
      var resident: Resident;
      if req.residentId.Some? {
        if req.residentId.value !in residents || residents[req.residentId.value].workspaceId != workspaceId {
          return Err(ResidentNotFound);
        }
        resident := residents[req.residentId.value];
      } else {
        if actor.resident.None? { return Err(ResidentRequired); }
        resident := actor.resident.value;
      }
      if actor.isResident && (actor.resident.None? || actor.resident.value.id != resident.id) {
        return Err(NotYourBooking);
      }
      if req.amenityId !in amenities || amenities[req.amenityId].workspaceId != workspaceId {
        return Err(AmenityNotFound);
      }
      var amenity := amenities[req.amenityId];
      if !amenity.isActive { return Err(AmenityInactive); }
      if !req.startAt.At? || !req.endAt.At? { return Err(InvalidTimes); }
      if req.endAt.ms <= req.startAt.ms { return Err(EndNotAfterStart); }
      if estate && amenity.estateId.Some? && resident.estateId.Some? && amenity.estateId != resident.estateId {
        return Err(WrongProperty);
      }
      if Overlaps(rows, workspaceId, req.amenityId, req.startAt.ms, req.endAt.ms, None) {
        return Err(AlreadyBooked);
      }
      var status := if amenity.requiresApproval then Requested else Approved;
      result := Ok(|rows|);
      rows := rows + [Booking(workspaceId, req.amenityId, resident.id, req.startAt.ms, req.endAt.ms, status)];
    }

    method UpdateAmenityBooking(workspaceId: string, id: nat, req: UpdateRequest, actor: Actor)
      returns (result: Result<nat, BookingError>)
      modifies this`rows
      ensures (Contents(), result) == Updated(old(Contents()), workspaceId, id, req, actor)
    {
      if id >= |rows| || rows[id].workspaceId != workspaceId { return Err(BookingNotFound); }
      var existing := rows[id];
      if actor.isResident {
        if actor.resident.None? || actor.resident.value.id != existing.residentId { return Err(NotYourBooking); }
        if !req.status.NoStatus? && req.status != Status(Cancelled) { return Err(OnlyCancelAllowed); }
      }
      if req.startAt.Malformed? || req.endAt.Malformed? { return Err(InvalidTimes); }
      var nextStartAt := if req.startAt.At? then req.startAt.ms else existing.startAt;
      var nextEndAt := if req.endAt.At? then req.endAt.ms else existing.endAt;
      if nextEndAt <= nextStartAt { return Err(EndNotAfterStart); }
      if req.status.UnknownStatus? { return Err(StatusRejectedByStore); }
      var nextStatus := if req.status.Status? then req.status.status else existing.status;
      if nextStatus == Requested || nextStatus == Approved {
        if Overlaps(rows, workspaceId, existing.amenityId, nextStartAt, nextEndAt, Some(id)) {
          return Err(AlreadyBooked);
        }
      }
      rows := rows[id := existing.(startAt := nextStartAt, endAt := nextEndAt, status := nextStatus)];
      result := Ok(id);
    }
  }

  // ---- what the handlers accept, and what they write ----

  /** The request is made for this resident: the one it names, or else the caller's own. */
  predicate MadeFor(d: Desk, req: CreateRequest, actor: Actor, resident: Resident) {
    if req.residentId.Some? then req.residentId.value in d.residents && d.residents[req.residentId.value] == resident
    else actor.resident == Some(resident)
  }

  /** No live booking of the amenity, but for `except`, shares time with [startAt, endAt). */
  predicate IsFree(rows: seq<Booking>, workspaceId: string, amenityId: string, startAt: int, endAt: int, except: nat) {
    forall i :: 0 <= i < |rows| && i != except && rows[i].workspaceId == workspaceId && rows[i].amenityId == amenityId
                && rows[i].status in {Requested, Approved}
                ==> rows[i].endAt <= startAt || endAt <= rows[i].startAt
  }

  /** A create is accepted exactly under these conditions, and adds exactly this row. */
  lemma CreateAcceptedIff(d: Desk, ws: string, req: CreateRequest, actor: Actor, resident: Resident)
    requires MadeFor(d, req, actor, resident)
    ensures var (d', result) := Created(d, ws, req, actor);
            && (result.Ok? <==>
                  && (req.residentId.Some? ==> resident.workspaceId == ws)
                  && (actor.isResident ==> actor.resident.Some? && actor.resident.value.id == resident.id)
                  && req.amenityId in d.amenities && d.amenities[req.amenityId].workspaceId == ws
                  && d.amenities[req.amenityId].isActive
                  && (d.estate && d.amenities[req.amenityId].estateId.Some? && resident.estateId.Some? ==>
                        d.amenities[req.amenityId].estateId == resident.estateId)
                  && req.startAt.At? && req.endAt.At? && req.startAt.ms < req.endAt.ms
                  && IsFree(d.rows, ws, req.amenityId, req.startAt.ms, req.endAt.ms, |d.rows|))
            && (result.Err? ==> d' == d)
            && (result.Ok? ==>
                  && result.value == |d.rows|
                  && d' == d.(rows := d.rows + [Booking(ws, req.amenityId, resident.id, req.startAt.ms, req.endAt.ms,
                                                        d'.rows[|d.rows|].status)])
                  && d'.rows[|d.rows|].status in {Requested, Approved}
                  && (d'.rows[|d.rows|].status == Requested <==> d.amenities[req.amenityId].requiresApproval))
  {
  }

  /** A request for nobody is refused. */
  lemma CreateNeedsResident(d: Desk, ws: string, req: CreateRequest, actor: Actor)
    requires forall resident :: !MadeFor(d, req, actor, resident)
    ensures Created(d, ws, req, actor).1.Err? && Created(d, ws, req, actor).0 == d
  {
    if req.residentId.Some? && req.residentId.value in d.residents {
      assert MadeFor(d, req, actor, d.residents[req.residentId.value]);
    }
    if req.residentId.None? && actor.resident.Some? { assert MadeFor(d, req, actor, actor.resident.value); }
  }

  /** An update is accepted exactly under these conditions, and changes exactly what the request gives. */
  lemma UpdateAcceptedIff(d: Desk, ws: string, id: nat, req: UpdateRequest, actor: Actor)
    ensures var (d', result) := Updated(d, ws, id, req, actor);
            && (result.Err? ==> d' == d)
            && (id >= |d.rows| ==> result.Err?)
            && (id < |d.rows| ==>
                  var b := d.rows[id];
                  var startAt := if req.startAt.At? then req.startAt.ms else b.startAt;
                  var endAt := if req.endAt.At? then req.endAt.ms else b.endAt;
                  var status := if req.status.Status? then req.status.status else b.status;
                  && (result.Ok? <==>
                        && b.workspaceId == ws && startAt < endAt
                        && !req.startAt.Malformed? && !req.endAt.Malformed? && !req.status.UnknownStatus?
                        && (actor.isResident ==>
                              && actor.resident.Some? && actor.resident.value.id == b.residentId
                              && req.status in {NoStatus, Status(Cancelled)})
                        && (status in {Requested, Approved} ==> IsFree(d.rows, ws, b.amenityId, startAt, endAt, id)))
                  && (result.Ok? ==>
                        && result.value == id && |d'.rows| == |d.rows| && d' == d.(rows := d'.rows)
                        && d'.rows[id] == Booking(b.workspaceId, b.amenityId, b.residentId, startAt, endAt, status)
                        && forall i :: 0 <= i < |d.rows| && i != id ==> d'.rows[i] == d.rows[i]))
  {
  }

  // ---- safety over every run ----

  /** Some instant belongs to both half-open intervals. */
  ghost predicate ShareInstant(a: Booking, b: Booking) {
    exists t: int :: Covers(a, t) && Covers(b, t)
  }

  ghost predicate Covers(b: Booking, t: int) { b.startAt <= t < b.endAt }

  ghost predicate NoDoubleBooking(rows: seq<Booking>) {
    forall i, j :: 0 <= i < j < |rows| && IsLive(rows[i].status) && IsLive(rows[j].status)
                   && rows[i].amenityId == rows[j].amenityId
                   ==> !ShareInstant(rows[i], rows[j])
  }

  /** Every row is a non-empty interval on an amenity of the row's own workspace. */
  ghost predicate WellFormed(d: Desk) {
    forall b <- d.rows ::
      && b.startAt < b.endAt
      && b.amenityId in d.amenities && d.amenities[b.amenityId].workspaceId == b.workspaceId
  }

  /** The query's two comparisons test for a shared instant, as long as neither interval is empty. */
  lemma OverlapTestIsExact(a: Booking, b: Booking)
    requires a.startAt < a.endAt && b.startAt < b.endAt
    ensures ShareInstant(a, b) <==> a.startAt < b.endAt && a.endAt > b.startAt
  {
    if a.startAt < b.endAt && a.endAt > b.startAt {
      var t := if a.startAt < b.startAt then b.startAt else a.startAt;
      assert Covers(a, t) && Covers(b, t);
    }
  }

  datatype Op =
    | Create(workspaceId: string, create: CreateRequest, actor: Actor)
    | Update(workspaceId: string, id: nat, update: UpdateRequest, actor: Actor)
    | AddAmenity(amenityId: string, amenity: Amenity)
    | EditAmenity(amenityId: string, isActive: bool, requiresApproval: bool, property: Option<Option<string>>)
    | SetResidents(residents: map<string, Resident>)

  function Step(d: Desk, op: Op): Desk {
    match op
    case Create(ws, req, actor) => Created(d, ws, req, actor).0
    case Update(ws, id, req, actor) => Updated(d, ws, id, req, actor).0
    case AddAmenity(a, amenity) =>
      if a in d.amenities then d else d.(amenities := d.amenities[a := amenity])
    case EditAmenity(a, isActive, requiresApproval, property) =>
      if a !in d.amenities then d
      else
        var edited := d.amenities[a].(isActive := isActive, requiresApproval := requiresApproval);
        d.(amenities := d.amenities[a :=
                   if d.estate && property.Some? then edited.(estateId := property.value) else edited])
    case SetResidents(rs) => d.(residents := rs)
  }

  function Run(d: Desk, ops: seq<Op>): Desk
    decreases |ops|
  {
    if ops == [] then d else Run(Step(d, ops[0]), ops[1..])
  }

  lemma CreateKeepsApart(d: Desk, ws: string, req: CreateRequest, actor: Actor)
    requires WellFormed(d) && NoDoubleBooking(d.rows)
    ensures var d' := Created(d, ws, req, actor).0; WellFormed(d') && NoDoubleBooking(d'.rows)
  {
  }

  lemma UpdateKeepsApart(d: Desk, ws: string, id: nat, req: UpdateRequest, actor: Actor)
    requires WellFormed(d) && NoDoubleBooking(d.rows)
    ensures var d' := Updated(d, ws, id, req, actor).0; WellFormed(d') && NoDoubleBooking(d'.rows)
  {
  }

  /** Through any mix of creates, moves, cancellations and revivals no amenity is double booked. */
  lemma {:induction false} RunsNeverDoubleBook(d: Desk, ops: seq<Op>)
    requires WellFormed(d) && NoDoubleBooking(d.rows)
    ensures WellFormed(Run(d, ops)) && NoDoubleBooking(Run(d, ops).rows)
    decreases |ops|
  {
    if ops == [] {
    } else {
      var op := ops[0];
      match op {
        case Create(ws, req, actor) => CreateKeepsApart(d, ws, req, actor);
        case Update(ws, id, req, actor) => UpdateKeepsApart(d, ws, id, req, actor);
        case AddAmenity(_, _) =>
        case EditAmenity(_, _, _, _) =>
        case SetResidents(_) =>
      }
      RunsNeverDoubleBook(Step(d, op), ops[1..]);
    }
  }

  /** A create that passes the other checks is refused exactly when a live booking shares an instant with it. */
  lemma RefusedIffShared(d: Desk, ws: string, req: CreateRequest, actor: Actor)
    requires WellFormed(d)
    requires CreateBlocker(d, ws, req, actor).None?
    ensures var wanted := Booking(ws, req.amenityId, "", req.startAt.ms, req.endAt.ms, Requested);
            Created(d, ws, req, actor).1 == Err(AlreadyBooked)
            <==> exists i :: 0 <= i < |d.rows| && IsLive(d.rows[i].status)
                             && d.rows[i].amenityId == req.amenityId && ShareInstant(d.rows[i], wanted)
  {
    var wanted := Booking(ws, req.amenityId, "", req.startAt.ms, req.endAt.ms, Requested);
    forall i | 0 <= i < |d.rows| && IsLive(d.rows[i].status) && d.rows[i].amenityId == req.amenityId
      ensures ShareInstant(d.rows[i], wanted) <==> Blocks(d.rows[i], ws, req.amenityId, wanted.startAt, wanted.endAt)
    {
      assert d.rows[i] in d.rows;
      OverlapTestIsExact(d.rows[i], wanted);
    }
  }

  /** A move or revival that passes the other checks is refused exactly when another live booking shares an instant. */
  lemma MoveRefusedIffShared(d: Desk, ws: string, id: nat, req: UpdateRequest, actor: Actor)
    requires WellFormed(d)
    requires UpdateBlocker(d, ws, id, req, actor).None? && !req.status.UnknownStatus?
    ensures var b := Moved(d.rows[id], req);
            Updated(d, ws, id, req, actor).1 == Err(AlreadyBooked)
            <==> IsLive(b.status)
                 && exists i :: 0 <= i < |d.rows| && i != id && IsLive(d.rows[i].status)
                                && d.rows[i].amenityId == b.amenityId && ShareInstant(d.rows[i], b)
  {
    var b := Moved(d.rows[id], req);
    assert d.rows[id] in d.rows;
    forall i | 0 <= i < |d.rows| && IsLive(d.rows[i].status) && d.rows[i].amenityId == b.amenityId
      ensures ShareInstant(d.rows[i], b) <==> Blocks(d.rows[i], ws, b.amenityId, b.startAt, b.endAt)
    {
      assert d.rows[i] in d.rows;
      OverlapTestIsExact(d.rows[i], b);
    }
  }

  /** Cancelling a live booking frees its slot: a create for the very same interval is no longer refused for overlap. */
  lemma CancelFreesTheSlot(d: Desk, ws: string, id: nat, cancel: UpdateRequest, canceller: Actor,
                           req: CreateRequest, actor: Actor)
    requires WellFormed(d) && NoDoubleBooking(d.rows)
    requires id < |d.rows| && IsLive(d.rows[id].status)
    requires cancel == UpdateRequest(Absent, Absent, Status(Cancelled))
    requires UpdateBlocker(d, ws, id, cancel, canceller).None?
    requires req.amenityId == d.rows[id].amenityId
             && req.startAt == At(d.rows[id].startAt) && req.endAt == At(d.rows[id].endAt)
    ensures var (d', cancelled) := Updated(d, ws, id, cancel, canceller);
            cancelled == Ok(id)
            && (CreateBlocker(d', ws, req, actor).None? ==> Created(d', ws, req, actor).1 == Ok(|d.rows|))
  {
    var d' := Updated(d, ws, id, cancel, canceller).0;
    assert forall b :: b in d.rows ==> b.startAt < b.endAt;
    forall i | 0 <= i < |d'.rows|
      ensures !Blocks(d'.rows[i], ws, req.amenityId, req.startAt.ms, req.endAt.ms)
    {
      assert d.rows[i] in d.rows && d.rows[id] in d.rows;
      if i != id { OverlapTestIsExact(d.rows[i], d.rows[id]); }
    }
  }

  // ---- the packing bound ----

  function Max(a: int, b: int): int { if a < b then b else a }
  function Min(a: int, b: int): int { if a < b then a else b }

  /** Length of the part of a booking that falls into the window [lo, hi). */
  function Clipped(b: Booking, lo: int, hi: int): int {
    Max(0, Min(b.endAt, hi) - Max(b.startAt, lo))
  }

  /** Live booked time of one amenity inside the window [lo, hi). */
  function BookedTime(rows: seq<Booking>, amenityId: string, lo: int, hi: int): int {
    if rows == [] then 0
    else
      var b := rows[|rows| - 1];
      BookedTime(rows[..|rows| - 1], amenityId, lo, hi)
      + if IsLive(b.status) && b.amenityId == amenityId then Clipped(b, lo, hi) else 0
  }

  /** An interval that no live booking touches can be cut out of the window. */
  lemma {:induction false} CutWindow(rows: seq<Booking>, amenityId: string, lo: int, s: int, e: int, hi: int)
    requires lo <= s <= e <= hi
    requires forall b <- rows :: b.startAt < b.endAt
    requires forall b <- rows :: IsLive(b.status) && b.amenityId == amenityId ==> b.endAt <= s || e <= b.startAt
    ensures BookedTime(rows, amenityId, lo, hi)
            == BookedTime(rows, amenityId, lo, s) + BookedTime(rows, amenityId, e, hi)
  {
    if rows == [] {
    } else {
      CutWindow(rows[..|rows| - 1], amenityId, lo, s, e, hi);
      assert rows[|rows| - 1] in rows;
    }
  }

  /** In every window, the live bookings of an amenity add up to at most the window's length. */
  lemma {:induction false} PackingBound(rows: seq<Booking>, amenityId: string, lo: int, hi: int)
    requires lo <= hi
    requires forall b <- rows :: b.startAt < b.endAt
    requires NoDoubleBooking(rows)
    ensures BookedTime(rows, amenityId, lo, hi) <= hi - lo
    decreases |rows|
  {
    if rows == [] { return; }
    var n := |rows| - 1;
    var b, rest := rows[n], rows[..n];
    assert forall i :: 0 <= i < n ==> rest[i] == rows[i];
    if !IsLive(b.status) || b.amenityId != amenityId || Clipped(b, lo, hi) == 0 {
      PackingBound(rest, amenityId, lo, hi);
      return;
    }
    var s, e := Max(b.startAt, lo), Min(b.endAt, hi);
    forall i | 0 <= i < n && IsLive(rest[i].status) && rest[i].amenityId == amenityId
      ensures rest[i].endAt <= s || e <= rest[i].startAt
    {
      assert rows[i] in rows && b in rows;
      OverlapTestIsExact(rows[i], b);
    }
    CutWindow(rest, amenityId, lo, s, e, hi);
    PackingBound(rest, amenityId, lo, s);
    PackingBound(rest, amenityId, e, hi);
  }

  /** A live booking of the amenity takes this instant. */
  ghost predicate Takes(b: Booking, amenityId: string, t: int) {
    b.status in {Requested, Approved} && b.amenityId == amenityId && b.startAt <= t < b.endAt
  }

  /** The instants of the window that are taken. */
  ghost function TakenInstants(rows: seq<Booking>, amenityId: string, lo: int, hi: int): set<int> {
    set t: int | lo <= t < hi && IsTaken(rows, amenityId, t)
  }

  ghost predicate IsTaken(rows: seq<Booking>, amenityId: string, t: int) {
    exists i :: 0 <= i < |rows| && Takes(rows[i], amenityId, t)
  }

  ghost function Instants(lo: int, hi: int): set<int> { set t: int | lo <= t < hi && Between(lo, t, hi) }

  predicate Between(lo: int, t: int, hi: int) { lo <= t < hi }

  lemma {:induction false} InstantsCount(lo: int, hi: int)
    requires lo <= hi
    ensures |Instants(lo, hi)| == hi - lo
    decreases hi - lo
  {
    if lo == hi {
    } else {
      InstantsCount(lo, hi - 1);
      assert Instants(lo, hi) == Instants(lo, hi - 1) + {hi - 1};
    }
  }

  /** The instants of the window that one booking takes are as many as its clipped length. */
  lemma ClippedCounts(b: Booking, amenityId: string, lo: int, hi: int)
    requires lo <= hi && b.startAt < b.endAt
    ensures |TakenInstants([b], amenityId, lo, hi)|
            == if IsLive(b.status) && b.amenityId == amenityId then Clipped(b, lo, hi) else 0
  {
    var s, e := Max(b.startAt, lo), Min(b.endAt, hi);
    assert forall t :: IsTaken([b], amenityId, t) <==> Takes([b][0], amenityId, t);
    if IsLive(b.status) && b.amenityId == amenityId && s < e {
      InstantsCount(s, e);
      assert TakenInstants([b], amenityId, lo, hi) == Instants(s, e);
    } else {
      assert TakenInstants([b], amenityId, lo, hi) == {};
    }
  }

  /** Without double bookings, the booked time is the number of instants taken: none is counted twice. */
  lemma {:induction false} BookedTimeIsTakenTime(rows: seq<Booking>, amenityId: string, lo: int, hi: int)
    requires lo <= hi && NoDoubleBooking(rows)
    requires forall b <- rows :: b.startAt < b.endAt
    ensures BookedTime(rows, amenityId, lo, hi) == |TakenInstants(rows, amenityId, lo, hi)|
  {
    if rows == [] {
      assert TakenInstants(rows, amenityId, lo, hi) == {};
    } else {
      var rest, b := rows[..|rows| - 1], rows[|rows| - 1];
      assert forall i :: 0 <= i < |rest| ==> rest[i] == rows[i];
      BookedTimeIsTakenTime(rest, amenityId, lo, hi);
      ClippedCounts(b, amenityId, lo, hi);
      TakenTogether(rest, b, amenityId, lo, hi);
      assert rows == rest + [b];
      hide TakenInstants;
    }
  }

  lemma TakenTogether(rest: seq<Booking>, b: Booking, amenityId: string, lo: int, hi: int)
    requires NoDoubleBooking(rest + [b])
    ensures |TakenInstants(rest + [b], amenityId, lo, hi)|
            == |TakenInstants(rest, amenityId, lo, hi)| + |TakenInstants([b], amenityId, lo, hi)|
  {
    var rows := rest + [b];
    var (all, before, added) := (TakenInstants(rows, amenityId, lo, hi), TakenInstants(rest, amenityId, lo, hi),
                                 TakenInstants([b], amenityId, lo, hi));
    forall t | t in before && t in added ensures false {
      var i :| 0 <= i < |rest| && Takes(rest[i], amenityId, t);
      assert Takes([b][0], amenityId, t);
      assert Covers(rows[i], t) && Covers(rows[|rest|], t) && ShareInstant(rows[i], rows[|rest|]);
    }
    forall t ensures t in all <==> t in before || t in added {
      if t in all {
        var i :| 0 <= i < |rows| && Takes(rows[i], amenityId, t);
        if i < |rest| { assert Takes(rest[i], amenityId, t); } else { assert Takes([b][0], amenityId, t); }
      }
      if t in before {
        var i :| 0 <= i < |rest| && Takes(rest[i], amenityId, t);
        assert Takes(rows[i], amenityId, t);
      }
      if t in added { assert Takes(rows[|rest|], amenityId, t); }
    }
    assert all == before + added && before !! added;
  }

  /** The bound holds for the rows that any run leaves behind. */
  lemma RunsStayPacked(d: Desk, ops: seq<Op>, amenityId: string, lo: int, hi: int)
    requires WellFormed(d) && NoDoubleBooking(d.rows)
    requires lo <= hi
    ensures BookedTime(Run(d, ops).rows, amenityId, lo, hi) <= hi - lo
  {
    RunsNeverDoubleBook(d, ops);
    PackingBound(Run(d, ops).rows, amenityId, lo, hi);
  }
}
