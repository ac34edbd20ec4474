/**
 Residents, units and requests of one workspace. A unit's status column caches whether an ACTIVE
 resident lives in it; the resident operations recount the units they touch.
 */
module Occupancy {
  import opened Wrappers

  type Id = string

  datatype UnitStatus = Vacant | Occupied | Maintenance
  datatype Resident = Resident(email: Option<string>, home: Option<Id>, active: bool)
  datatype Request = Request(unitId: Id, residentId: Option<Id>)

  datatype State = State(units: map<Id, UnitStatus>, residents: map<Id, Resident>, requests: map<Id, Request>)

  datatype PropertyError = NotFound | UnitUnknown | UnitTaken | InviteFailed
    | ResidentsAssigned | RequestsExist | ResidentUnknown

  /** The unit field of an update: left out, cleared, or a unit. */
  datatype HomeChange = KeepHome | ClearHome | MoveTo(unitId: Id)

  predicate LivesIn(r: Resident, u: Id) { r.active && r.home == Some(u) }

  /** The count of syncUnitOccupancy is positive. */
  predicate HasActive(residents: map<Id, Resident>, u: Id) {
    exists id :: id in residents && LivesIn(residents[id], u)
  }

  predicate TakenByOther(residents: map<Id, Resident>, u: Id, self: Id) {
    exists id :: id in residents && id != self && LivesIn(residents[id], u)
  }

  function Synced(s: State, u: Id): State {
    if u !in s.units then s
    else s.(units := s.units[u := if HasActive(s.residents, u) then Occupied else Vacant])
  }

  function SyncedHome(s: State, home: Option<Id>): State {
    if home.Some? then Synced(s, home.value) else s
  }

  // ---- the handlers as functions ----

  function CreateBlocker(s: State, r: Resident): Option<PropertyError> {
    if r.home.Some? && r.home.value !in s.units then Some(UnitUnknown)
    else if r.home.Some? && HasActive(s.residents, r.home.value) then Some(UnitTaken)
    else None
  }

  /** createResident sends the invite between the insert and the recount; the invite may throw. */
  function ResidentCreated(s: State, id: Id, r: Resident, inviteOk: bool): (State, Option<PropertyError>) {
    var blocker := CreateBlocker(s, r);
    if blocker.Some? then (s, blocker)
    else
      var s1 := s.(residents := s.residents[id := r]);
      if r.email.Some? && !inviteOk then (s1, Some(InviteFailed)) else (SyncedHome(s1, r.home), None)
  }

  function Changed(r: Resident, home: HomeChange, active: Option<bool>): Resident {
    r.(home := match home { case KeepHome => r.home case ClearHome => None case MoveTo(u) => Some(u) },
       active := if active.Some? then active.value else r.active)
  }

  function ResidentUpdated(s: State, id: Id, home: HomeChange, active: Option<bool>): (State, Option<PropertyError>) {
    if id !in s.residents then (s, Some(NotFound))
    else if home.MoveTo? && home.unitId !in s.units then (s, Some(UnitUnknown))
    else if home.MoveTo? && TakenByOther(s.residents, home.unitId, id) then (s, Some(UnitTaken))
    else
      var before := s.residents[id];
      var after := Changed(before, home, active);
      (SyncedHome(SyncedHome(s.(residents := s.residents[id := after]), before.home), after.home), None)
  }

  /** A resident with requests is archived, one without is deleted. */
  function ResidentDeleted(s: State, id: Id): (State, Option<PropertyError>) {
    if id !in s.residents then (s, Some(NotFound))
    else
      var before := s.residents[id];
      var hasRequests := exists q :: q in s.requests && s.requests[q].residentId == Some(id);
      var s1 := if hasRequests then s.(residents := s.residents[id := before.(active := false, home := None)])
                else s.(residents := s.residents - {id});
      (SyncedHome(s1, before.home), None)
  }

  function ResidentForceDeleted(s: State, id: Id): (State, Option<PropertyError>) {
    if id !in s.residents then (s, Some(NotFound))
    else
      var s1 := State(s.units, s.residents - {id},
                      map q | q in s.requests && s.requests[q].residentId != Some(id) :: s.requests[q]);
      (SyncedHome(s1, s.residents[id].home), None)
  }

  function UnitDeleted(s: State, u: Id): (State, Option<PropertyError>) {
    if u !in s.units then (s, Some(NotFound))
    else if exists id :: id in s.residents && s.residents[id].home == Some(u) then (s, Some(ResidentsAssigned))
    else if exists q :: q in s.requests && s.requests[q].unitId == u then (s, Some(RequestsExist))
    else (s.(units := s.units - {u}), None)
  }

  function RequestCreated(s: State, q: Id, request: Request): (State, Option<PropertyError>) {
    if request.unitId !in s.units then (s, Some(UnitUnknown))
    else if request.residentId.Some? && request.residentId.value !in s.residents then (s, Some(ResidentUnknown))
    else (s.(requests := s.requests[q := request]), None)
  }

  /** One committed row of a bulk import: the unit is set OCCUPIED without a recount. */
  function RowCommitted(s: State, id: Id, email: string, u: Id): State {
    if u !in s.units then s
    else s.(residents := s.residents[id := Resident(Some(email), Some(u), true)], units := s.units[u := Occupied])
  }

  datatype Op =
    | CreateUnit(unitId: Id)
    | DeleteUnit(unitId: Id)
    | CreateResident(id: Id, resident: Resident, inviteOk: bool)
    | UpdateResident(id: Id, home: HomeChange, active: Option<bool>)
    | DeleteResident(id: Id)
    | ForceDeleteResident(id: Id)
    | CreateRequest(id: Id, request: Request)
    | CommitRow(id: Id, email: string, unitId: Id)

  function Step(s: State, op: Op): State {
    match op
    case CreateUnit(u) => if u in s.units then s else s.(units := s.units[u := Vacant])
    case DeleteUnit(u) => UnitDeleted(s, u).0
    case CreateResident(id, r, inviteOk) => if id in s.residents then s else ResidentCreated(s, id, r, inviteOk).0
    case UpdateResident(id, home, active) => ResidentUpdated(s, id, home, active).0
    case DeleteResident(id) => ResidentDeleted(s, id).0
    case ForceDeleteResident(id) => ResidentForceDeleted(s, id).0
    case CreateRequest(q, request) => if q in s.requests then s else RequestCreated(s, q, request).0
    case CommitRow(id, email, u) => if id in s.residents then s else RowCommitted(s, id, email, u)
  }

  // ---- what the handlers accept, and what they write ----

  /** An ACTIVE resident other than `self` lives in the unit. */
  predicate LivedInBy(s: State, u: Id, self: Id) {
    exists other ::
      other in s.residents && other != self && s.residents[other].active && s.residents[other].home == Some(u)
  }

  /** All residents but one are as before, and so are the requests. */
  ghost predicate OnlyResidentChanges(s: State, s': State, id: Id) {
    && s'.requests == s.requests && s'.units.Keys == s.units.Keys
    && forall other :: other != id ==>
         (other in s'.residents <==> other in s.residents)
         && (other in s.residents ==> s'.residents[other] == s.residents[other])
  }

  /** A resident is inserted exactly when the unit exists and is free. The row stays when the invite throws. */
  lemma CreateAcceptedIff(s: State, id: Id, r: Resident, inviteOk: bool)
    requires id !in s.residents
    ensures var (s', error) := ResidentCreated(s, id, r, inviteOk);
            var fits := r.home.Some? ==> r.home.value in s.units && !LivedInBy(s, r.home.value, id);
            && (error in {None, Some(InviteFailed)} <==> fits)
            && (error == Some(InviteFailed) <==> fits && r.email.Some? && !inviteOk)
            && (!fits ==> s' == s)
            && (fits ==> OnlyResidentChanges(s, s', id) && id in s'.residents && s'.residents[id] == r)
  {
    if r.home.Some? { assert HasActive(s.residents, r.home.value) <==> LivedInBy(s, r.home.value, id); }
    hide HasActive;
  }

  /** An update is accepted exactly when a new unit, if named, exists and is nobody else's; it writes what was given. */
  lemma UpdateAcceptedIff(s: State, id: Id, home: HomeChange, active: Option<bool>)
    ensures var (s', error) := ResidentUpdated(s, id, home, active);
            && (error.None? <==> id in s.residents
                                 && (home.MoveTo? ==> home.unitId in s.units && !LivedInBy(s, home.unitId, id)))
            && (error.Some? ==> s' == s)
            && (error.None? ==>
                  && OnlyResidentChanges(s, s', id) && id in s'.residents
                  && s'.residents[id].email == s.residents[id].email
                  && (home.MoveTo? ==> s'.residents[id].home == Some(home.unitId))
                  && (home.ClearHome? ==> s'.residents[id].home == None)
                  && (home.KeepHome? ==> s'.residents[id].home == s.residents[id].home)
                  && s'.residents[id].active == if active.Some? then active.value else s.residents[id].active)
  {
    if home.MoveTo? { assert TakenByOther(s.residents, home.unitId, id) <==> LivedInBy(s, home.unitId, id); }
    hide HasActive;
    hide TakenByOther;
  }

  /** Deleting archives a resident with requests, out of the unit, and removes one without. */
  lemma DeleteMeans(s: State, id: Id)
    requires id in s.residents
    ensures var (s', error) := ResidentDeleted(s, id);
            && error.None? && OnlyResidentChanges(s, s', id)
            && (id in s'.residents <==> exists q :: q in s.requests && s.requests[q].residentId == Some(id))
            && (id in s'.residents ==> s'.residents[id] == Resident(s.residents[id].email, None, false))
  {
    hide HasActive;
  }

  /** Deleting by force removes the resident and exactly their requests. */
  lemma ForceDeleteMeans(s: State, id: Id)
    requires id in s.residents
    ensures var (s', error) := ResidentForceDeleted(s, id);
            && error.None? && s'.residents == s.residents - {id} && s'.units.Keys == s.units.Keys
            && (forall q :: q in s'.requests <==> (q in s.requests && s.requests[q].residentId != Some(id)))
            && forall q <- s'.requests :: s'.requests[q] == s.requests[q]
  {
    hide HasActive;
  }

  /** A unit goes exactly when nobody, ACTIVE or archived, has it as home and no request names it. */
  lemma UnitDeletedIff(s: State, u: Id)
    ensures var (s', error) := UnitDeleted(s, u);
            && (error.None? <==> && u in s.units && (forall id <- s.residents :: s.residents[id].home != Some(u))
                                 && forall q <- s.requests :: s.requests[q].unitId != u)
            && s' == if error.None? then s.(units := s.units - {u}) else s
  {
  }

  /** Rows with new ids are inserted as their handlers say. */
  lemma NewRowsAreInserted(s: State, op: Op)
    ensures op.CreateRequest? && op.id !in s.requests ==> Step(s, op) == RequestCreated(s, op.id, op.request).0
    ensures op.CreateResident? && op.id !in s.residents ==>
              Step(s, op) == ResidentCreated(s, op.id, op.resident, op.inviteOk).0
    ensures op.CommitRow? && op.id !in s.residents ==> Step(s, op) == RowCommitted(s, op.id, op.email, op.unitId)
    ensures op.CreateUnit? && op.unitId !in s.units ==> Step(s, op) == s.(units := s.units[op.unitId := Vacant])
  {
  }

  /** A request needs a unit and, if it names a resident, that resident. */
  lemma RequestCreatedIff(s: State, q: Id, request: Request)
    ensures var (s', error) := RequestCreated(s, q, request);
            && (error.None? <==> request.unitId in s.units
                                 && (request.residentId.Some? ==> request.residentId.value in s.residents))
            && s' == if error.None? then s.(requests := s.requests[q := request]) else s
  {
  }

  // ---- the index against a recount ----

  predicate AgreesAt(s: State, u: Id) {
    u in s.units ==> (s.units[u] == Occupied <==> HasActive(s.residents, u))
  }

  ghost predicate Agrees(s: State) { forall u :: AgreesAt(s, u) }

  /** No resident or request points at a missing unit, and no request at a missing resident. */
  ghost predicate NothingDangles(s: State) {
    && (forall id <- s.residents :: s.residents[id].home.Some? ==> s.residents[id].home.value in s.units)
    && (forall q <- s.requests :: s.requests[q].unitId in s.units)
    && (forall q <- s.requests :: s.requests[q].residentId.Some? ==> s.requests[q].residentId.value in s.residents)
  }

  lemma SyncIsIdempotent(s: State, u: Id)
    ensures Synced(Synced(s, u), u) == Synced(s, u)
  {
  }

  /** Changing one resident matters only to the units it leaves and enters. */
  lemma OtherUnitsUnaffected(before: map<Id, Resident>, after: map<Id, Resident>, id: Id, u: Id)
    requires forall other :: other != id ==> (other in before <==> other in after)
    requires forall other :: other != id && other in before ==> after[other] == before[other]
    requires id in before ==> !LivesIn(before[id], u)
    requires id in after ==> !LivesIn(after[id], u)
    ensures HasActive(before, u) <==> HasActive(after, u)
  {
  }

  /** The unit's status and its recount are as before. */
  predicate SameAt(s: State, s': State, u: Id) {
    && (u in s.units <==> u in s'.units)
    && (u in s.units ==> s.units[u] == s'.units[u])
    && (HasActive(s.residents, u) <==> HasActive(s'.residents, u))
  }

  /**
   An operation on one resident that recounts the old and the new home repairs both, whatever their
   status was, and leaves every other unit as it is.
   */
  lemma ChangeRepairs(s: State, residents: map<Id, Resident>, id: Id, oldHome: Option<Id>, newHome: Option<Id>, u: Id)
    requires forall other :: other != id ==> (other in s.residents <==> other in residents)
    requires forall other :: other != id && other in residents ==> residents[other] == s.residents[other]
    requires id in s.residents ==> s.residents[id].home == oldHome
    requires id in residents ==> residents[id].home == newHome
    ensures var s' := SyncedHome(SyncedHome(s.(residents := residents), oldHome), newHome);
            if Some(u) == oldHome || Some(u) == newHome then AgreesAt(s', u) else SameAt(s, s', u)
  {
  }

  /** The units an operation recounts, or sets OCCUPIED because it puts an active resident there. */
  function Recounted(s: State, op: Op): set<Id> {
    match op
    case CreateResident(id, r, inviteOk) =>
      if id !in s.residents && ResidentCreated(s, id, r, inviteOk).1.None? then Home(r) else {}
    case UpdateResident(id, home, active) =>
      if id in s.residents && ResidentUpdated(s, id, home, active).1.None?
      then Home(s.residents[id]) + Home(Changed(s.residents[id], home, active)) else {}
    case DeleteResident(id) => if id in s.residents then Home(s.residents[id]) else {}
    case ForceDeleteResident(id) => if id in s.residents then Home(s.residents[id]) else {}
    case CommitRow(id, _, u) => if id !in s.residents && u in s.units then {u} else {}
    case _ => {}
  }

  function Home(r: Resident): set<Id> { if r.home.Some? then {r.home.value} else {} }

  /** The create got past its checks, and the invite then threw before the recount of an active resident's unit. */
  predicate LeavesStale(s: State, op: Op) {
    op.CreateResident? && op.id !in s.residents && CreateBlocker(s, op.resident).None?
    && op.resident.email.Some? && !op.inviteOk && op.resident.active && op.resident.home.Some?
  }

  /** Every operation repairs the units it recounts, whatever their status was. */
  lemma RecountRepairs(s: State, op: Op, u: Id)
    requires u in Recounted(s, op)
    ensures AgreesAt(Step(s, op), u)
  {
    OpEffect(s, op, u);
  }

  /** What one operation does to the agreement at one unit. */
  predicate Effect(s: State, op: Op, u: Id) {
    var s' := Step(s, op);
    if u in Recounted(s, op) then AgreesAt(s', u)
    else if LeavesStale(s, op) && Some(u) == op.resident.home then
      u in s'.units && s'.units[u] == s.units[u] && !HasActive(s.residents, u) && HasActive(s'.residents, u)
    else if op == CreateUnit(u) && u !in s.units then AgreesAt(s', u)
    else if op == DeleteUnit(u) then AgreesAt(s', u) || s' == s
    else SameAt(s, s', u)
  }

  lemma CreateEffect(s: State, op: Op, u: Id)
    requires op.CreateResident?
    ensures Effect(s, op, u)
  {
    if op.id in s.residents || CreateBlocker(s, op.resident).Some? { return; }
    var s' := Step(s, op);
    ChangeRepairs(s, s.residents[op.id := op.resident], op.id, None, op.resident.home, u);
    if op.resident.email.Some? && !op.inviteOk {
      if LivesIn(op.resident, u) {
        assert LivesIn(s'.residents[op.id], u);
      } else {
        OtherUnitsUnaffected(s.residents, s'.residents, op.id, u);
      }
    }
    hide HasActive;
  }

  lemma ExistingResidentEffect(s: State, op: Op, u: Id)
    requires op.UpdateResident? || op.DeleteResident? || op.ForceDeleteResident?
    ensures Effect(s, op, u)
  {
    hide HasActive;
    hide TakenByOther;
    if op.id !in s.residents { return; }
    var before := s.residents[op.id];
    match op {
      case UpdateResident(id, home, active) =>
        var after := Changed(before, home, active);
        ChangeRepairs(s, s.residents[id := after], id, before.home, after.home, u);
      case DeleteResident(id) =>
        ChangeRepairs(s, s.residents - {id}, id, before.home, None, u);
        ChangeRepairs(s, s.residents[id := before.(active := false, home := None)], id, before.home, None, u);
      case ForceDeleteResident(id) =>
        ChangeRepairs(s, s.residents - {id}, id, before.home, None, u);
    }
  }

  lemma CommitEffect(s: State, op: Op, u: Id)
    requires op.CommitRow?
    ensures Effect(s, op, u)
  {
    if op.id in s.residents || op.unitId !in s.units { return; }
    var s' := Step(s, op);
    if u == op.unitId { assert LivesIn(s'.residents[op.id], u); }
    else { OtherUnitsUnaffected(s.residents, s'.residents, op.id, u); }
    hide HasActive;
  }

  lemma OpEffect(s: State, op: Op, u: Id)
    requires NothingDangles(s) || u in Recounted(s, op)
    ensures Effect(s, op, u)
  {
    match op {
      case CreateResident(_, _, _) => CreateEffect(s, op, u);
      case UpdateResident(_, _, _) | DeleteResident(_) | ForceDeleteResident(_) => ExistingResidentEffect(s, op, u);
      case CommitRow(_, _, _) => CommitEffect(s, op, u);
      case CreateUnit(_) | DeleteUnit(_) | CreateRequest(_, _) =>
    }
  }

  /** The units left stale by failed invites and not recounted since. */
  function StaleAfter(s: State, op: Op, stale: set<Id>): set<Id> {
    if LeavesStale(s, op) then stale + {op.resident.home.value} else stale - Recounted(s, op)
  }

  function StaleUnits(s: State, ops: seq<Op>, stale: set<Id>): set<Id>
    decreases |ops|
  {
    if ops == [] then stale else StaleUnits(Step(s, ops[0]), ops[1..], StaleAfter(s, ops[0], stale))
  }

  /** A stale unit has an active resident and is not marked OCCUPIED. */
  predicate IsStale(s: State, u: Id) { u in s.units && s.units[u] != Occupied && HasActive(s.residents, u) }

  ghost predicate Tracked(s: State, stale: set<Id>) {
    forall u :: if u in stale then IsStale(s, u) else AgreesAt(s, u)
  }

  lemma StepKeepsTrack(s: State, op: Op, stale: set<Id>)
    requires Tracked(s, stale) && NothingDangles(s)
    ensures Tracked(Step(s, op), StaleAfter(s, op, stale))
  {
    var s', stale' := Step(s, op), StaleAfter(s, op, stale);
    forall u ensures if u in stale' then IsStale(s', u) else AgreesAt(s', u) {
      assert if u in stale then IsStale(s, u) else AgreesAt(s, u);
      OpEffect(s, op, u);
      OccupiedUnitsStay(s, op, u);
      hide Step;
      hide Recounted;
      hide HasActive;
      hide CreateBlocker;
    }
  }

  /** A unit with a resident is not deleted, and a create that leaves it stale found it empty. */
  lemma OccupiedUnitsStay(s: State, op: Op, u: Id)
    requires NothingDangles(s)
    ensures HasActive(s.residents, u) ==> u in s.units && u in Step(s, op).units
    ensures LeavesStale(s, op) && Some(u) == op.resident.home ==> !HasActive(s.residents, u) && Recounted(s, op) == {}
  {
    if HasActive(s.residents, u) {
      var id :| id in s.residents && LivesIn(s.residents[id], u);
      assert s.residents[id].home.value in s.units;
    }
  }

  lemma StepLeavesNothingDangling(s: State, op: Op)
    requires NothingDangles(s)
    ensures NothingDangles(Step(s, op))
  {
    hide HasActive;
    hide TakenByOther;
    match op {
      case UpdateResident(id, home, active) =>
        if id in s.residents {
          SyncKeepsRows(s.(residents := s.residents[id := Changed(s.residents[id], home, active)]),
                        s.residents[id].home);
          hide Synced;
        }
      case _ =>
    }
  }

  lemma SyncKeepsRows(s: State, home: Option<Id>)
    ensures SyncedHome(s, home).residents == s.residents && SyncedHome(s, home).requests == s.requests
    ensures SyncedHome(s, home).units.Keys == s.units.Keys
  {
  }

  function Run(s: State, ops: seq<Op>): State
    decreases |ops|
  {
    if ops == [] then s else Run(Step(s, ops[0]), ops[1..])
  }

  /** After any run no resident or request points at a missing unit, failed invites included. */
  lemma {:induction false} RunLeavesNothingDangling(s: State, ops: seq<Op>)
    requires NothingDangles(s)
    ensures NothingDangles(Run(s, ops))
    decreases |ops|
  {
    if ops == [] {
    } else {
      StepLeavesNothingDangling(s, ops[0]);
      RunLeavesNothingDangling(Step(s, ops[0]), ops[1..]);
    }
  }

  lemma {:induction false} RunKeepsTrack(s: State, ops: seq<Op>, stale: set<Id>)
    requires Tracked(s, stale) && NothingDangles(s)
    ensures Tracked(Run(s, ops), StaleUnits(s, ops, stale))
    decreases |ops|
  {
    if ops == [] {
    } else {
      StepKeepsTrack(s, ops[0], stale);
      StepLeavesNothingDangling(s, ops[0]);
      RunKeepsTrack(Step(s, ops[0]), ops[1..], StaleAfter(s, ops[0], stale));
    }
  }

  const EMPTY := State(map[], map[], map[])

  /**
   After any run, a unit's status agrees with a recount exactly when no failed invite left it stale, or
   some operation has recounted it since.
   */
  lemma IndexAgreesIff(ops: seq<Op>, u: Id)
    ensures AgreesAt(Run(EMPTY, ops), u) <==> u !in StaleUnits(EMPTY, ops, {})
  {
    RunKeepsTrack(EMPTY, ops, {});
    assert if u in StaleUnits(EMPTY, ops, {}) then IsStale(Run(EMPTY, ops), u) else AgreesAt(Run(EMPTY, ops), u);
  }

  /** A failed invite leaves an occupied unit marked VACANT. */
  lemma FailedInviteExample()
    ensures var s := State(map["A1" := Vacant], map[], map[]);
            var s' := Step(s, CreateResident("r", Resident(Some("ama@example.com"), Some("A1"), true), false));
            Agrees(s) && s'.units["A1"] == Vacant && HasActive(s'.residents, "A1")
  {
    var s := State(map["A1" := Vacant], map[], map[]);
    var s' := Step(s, CreateResident("r", Resident(Some("ama@example.com"), Some("A1"), true), false));
    assert "r" in s'.residents && LivesIn(s'.residents["r"], "A1");
  }

  /** Committed rows keep all units in agreement. */
  lemma CommitKeepsAgreement(s: State, id: Id, email: string, u: Id)
    requires Agrees(s) && id !in s.residents && u in s.units
    ensures Agrees(RowCommitted(s, id, email, u))
  {
    var s' := RowCommitted(s, id, email, u);
    forall v ensures AgreesAt(s', v) {
      assert AgreesAt(s, v);
      if v == u { assert LivesIn(s'.residents[id], u); }
      else { OtherUnitsUnaffected(s.residents, s'.residents, id, v); }
    }
  }

  // ---- the handlers in place ----

  class Registry {
    var units: map<Id, UnitStatus>
    var residents: map<Id, Resident>
    var requests: map<Id, Request>

    function Contents(): State
      reads this
    {
      State(units, residents, requests)
    }

    constructor ()
      ensures Contents() == State(map[], map[], map[])
    {
      units, residents, requests := map[], map[], map[];
    }

    method SyncUnitOccupancy(u: Id)
      modifies this`units
      ensures Contents() == Synced(old(Contents()), u)
    {
      if u !in units { return; }
      var nextStatus := if HasActive(residents, u) then Occupied else Vacant;
      if units[u] != nextStatus {
        units := units[u := nextStatus];
      }
    }

    method CreateResident(id: Id, resident: Resident, inviteOk: bool) returns (error: Option<PropertyError>)
      requires id !in residents
      modifies this`units, this`residents
      ensures (Contents(), error) == ResidentCreated(old(Contents()), id, resident, inviteOk)
    {
      if resident.home.Some? {
        if resident.home.value !in units { return Some(UnitUnknown); }
        if HasActive(residents, resident.home.value) { return Some(UnitTaken); }
      }
      residents := residents[id := resident];
      if resident.email.Some? {
        if !inviteOk { return Some(InviteFailed); }
      }
      if resident.home.Some? { SyncUnitOccupancy(resident.home.value); }
      return None;
    }

    method UpdateResident(id: Id, home: HomeChange, active: Option<bool>) returns (error: Option<PropertyError>)
      modifies this`units, this`residents
      ensures (Contents(), error) == ResidentUpdated(old(Contents()), id, home, active)
    {
      if id !in residents { return Some(NotFound); }
      var resident := residents[id];
      if home.MoveTo? {
        if home.unitId !in units { return Some(UnitUnknown); }
        if TakenByOther(residents, home.unitId, id) { return Some(UnitTaken); }
      }
      var updated := Changed(resident, home, active);
      residents := residents[id := updated];
      if resident.home.Some? { SyncUnitOccupancy(resident.home.value); }
      if updated.home.Some? && updated.home != resident.home { SyncUnitOccupancy(updated.home.value); }
      if updated.home.Some? { SyncIsIdempotent(State(old(units), residents, requests), updated.home.value); }
      return None;
    }

    method DeleteResident(id: Id) returns (error: Option<PropertyError>)
      modifies this`units, this`residents
      ensures (Contents(), error) == ResidentDeleted(old(Contents()), id)
    {
      if id !in residents { return Some(NotFound); }
      var resident := residents[id];
      if exists q :: q in requests && requests[q].residentId == Some(id) {
        residents := residents[id := resident.(active := false, home := None)];
      } else {
        residents := residents - {id};
      }
      if resident.home.Some? { SyncUnitOccupancy(resident.home.value); }
      return None;
    }

    method ForceDeleteResident(id: Id) returns (error: Option<PropertyError>)
      modifies this
      ensures (Contents(), error) == ResidentForceDeleted(old(Contents()), id)
    {
      if id !in residents { return Some(NotFound); }
      var resident := residents[id];
      requests := map q | q in requests && requests[q].residentId != Some(id) :: requests[q];
      residents := residents - {id};
      if resident.home.Some? { SyncUnitOccupancy(resident.home.value); }
      return None;
    }

    method DeleteUnit(u: Id) returns (error: Option<PropertyError>)
      modifies this`units
      ensures (Contents(), error) == UnitDeleted(old(Contents()), u)
    {
      if u !in units { return Some(NotFound); }
      if exists id :: id in residents && residents[id].home == Some(u) { return Some(ResidentsAssigned); }
      if exists q :: q in requests && requests[q].unitId == u { return Some(RequestsExist); }
      units := units - {u};
      return None;
    }

    method CommitImportedRow(id: Id, email: string, u: Id)
      requires id !in residents && u in units
      modifies this`units, this`residents
      ensures Contents() == RowCommitted(old(Contents()), id, email, u)
    {
      residents := residents[id := Resident(Some(email), Some(u), true)];
      units := units[u := Occupied];
    }
  }
}
