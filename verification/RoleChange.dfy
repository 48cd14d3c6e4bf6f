/**
 * Dual approval of role changes. The first half is the service with each call run whole; the
 * second half lets the database operations of any number of calls interleave.
 */
module RoleChange {
  import opened Wrappers
  import opened NdyId
  import opened Identity

  datatype Status = Pending | Approved | Rejected

  datatype Request = Request(target: nat, requestedRole: Role, previousRole: Role, requestedBy: nat,
                             status: Status, reviewedBy: Option<nat>)

  type Requests = map<nat, Request>

  datatype Db = Db(users: Users, requests: Requests)

  datatype Error = Forbidden | NotFound | Conflict | NdyIdTaken

  predicate Privileged(role: Role) {
    role == Founder || role == SuperAdmin
  }

  predicate IsFounder(users: Users, u: nat) {
    u in users && users[u].role == Founder
  }

  /** Founder and Super Admin can only be asked for, and only be decided, by a Founder. */
  predicate MayDecide(users: Users, actor: nat, role: Role) {
    Privileged(role) ==> IsFounder(users, actor)
  }

  // ---------------------------------------------------------------- whole calls

  function Propose(db: Db, id: nat, actor: nat, target: nat, role: Role): (Db, Result<nat, Error>) {
    if !MayDecide(db.users, actor, role) then (db, Err(Forbidden))
    else if target !in db.users then (db, Err(NotFound))
    else
      var request := Request(target, role, db.users[target].role, actor, Pending, None);
      (db.(requests := db.requests[id := request]), Ok(id))
  }

  /** The account after its role changed: same core, NDY ID rebuilt from it. */
  function WithRole(a: Account, role: Role): Account {
    a.(role := role, ndyId := Format(a.coreId, TypeForUser(a.idType, role)))
  }

  predicate NdyIdFree(users: Users, owner: nat, ndyId: string) {
    forall u | u in users && u != owner :: users[u].ndyId != ndyId
  }

  function Resolved(request: Request, actor: nat, approve: bool): Request {
    request.(status := if approve then Approved else Rejected, reviewedBy := Some(actor))
  }

  /** The transaction that ends an approval. */
  function CommitApproval(db: Db, actor: nat, id: nat, request: Request, loaded: Account): (Db, Result<(), Error>)
    requires request.target in db.users
  {
    var updated := WithRole(loaded, request.requestedRole);
    if !NdyIdFree(db.users, request.target, updated.ndyId) then (db, Err(NdyIdTaken))
    else
      var row := db.users[request.target].(role := updated.role, ndyId := updated.ndyId);
      (Db(db.users[request.target := row], db.requests[id := Resolved(request, actor, true)]), Ok(()))
  }

  function Review(db: Db, actor: nat, id: nat, approve: bool): (Db, Result<(), Error>) {
    if id !in db.requests then (db, Err(NotFound))
    else
      var request := db.requests[id];
      if request.status != Pending then (db, Err(Conflict))
      else if actor == request.requestedBy || !MayDecide(db.users, actor, request.requestedRole) then (db, Err(Forbidden))
      else if !approve then (db.(requests := db.requests[id := Resolved(request, actor, false)]), Ok(()))
      else if request.target !in db.users then (db, Err(NotFound))
      else CommitApproval(db, actor, id, request, db.users[request.target])
  }

  class RoleChangeRequestService {
    var users: Users
    var requests: Requests
    var nextRequest: nat

    ghost predicate Valid() reads this {
      forall id | id in requests :: id < nextRequest
    }

    ghost function Tables(): Db reads this {
      Db(users, requests)
    }

    method Create(actor: nat, target: nat, role: Role) returns (r: Result<nat, Error>)
      requires Valid()
      modifies this`requests, this`nextRequest
      ensures Valid()
      ensures (Tables(), r) == Propose(old(Tables()), old(nextRequest), actor, target, role)
    {
      if role == Founder || role == SuperAdmin {
        if actor !in users || users[actor].role != Founder {
          return Err(Forbidden);
        }
      }
      if target !in users {
        return Err(NotFound);
      }
      requests := requests[nextRequest := Request(target, role, users[target].role, actor, Pending, None)];
      r := Ok(nextRequest);
      nextRequest := nextRequest + 1;
    }

    method Approve(actor: nat, id: nat) returns (r: Result<(), Error>)
      requires Valid()
      modifies this`users, this`requests
      ensures Valid()
      ensures (Tables(), r) == Review(old(Tables()), actor, id, true)
    {
      var request :- GetPending(actor, id);
      if request.target !in users {
        return Err(NotFound);
      }
      var target := users[request.target];
      var newNdyId := Format(target.coreId, TypeForUser(target.idType, request.requestedRole));
      if exists u | u in users && u != request.target :: users[u].ndyId == newNdyId {
        return Err(NdyIdTaken);
      }
      users := users[request.target := target.(role := request.requestedRole, ndyId := newNdyId)];
      requests := requests[id := request.(status := Approved, reviewedBy := Some(actor))];
      r := Ok(());
    }

    method Reject(actor: nat, id: nat) returns (r: Result<(), Error>)
      requires Valid()
      modifies this`requests
      ensures Valid()
      ensures (Tables(), r) == Review(old(Tables()), actor, id, false)
    {
      var request :- GetPending(actor, id);
      requests := requests[id := request.(status := Rejected, reviewedBy := Some(actor))];
      r := Ok(());
    }

    /** The three checks both reviews start with. */
    method GetPending(actor: nat, id: nat) returns (r: Result<Request, Error>)
      ensures r.Ok? ==> id in requests && r.value == requests[id] && r.value.status == Pending
                        && actor != r.value.requestedBy && MayDecide(users, actor, r.value.requestedRole)
      ensures r.Err? ==> forall approve :: Review(Tables(), actor, id, approve) == (Tables(), Err(r.error))
    {
      if id !in requests {
        return Err(NotFound);
      }
      var request := requests[id];
      if request.status != Pending {
        return Err(Conflict);
      }
      if actor == request.requestedBy {
        return Err(Forbidden);
      }
      if request.requestedRole in {Founder, SuperAdmin} && (actor !in users || users[actor].role != Founder) {
        return Err(Forbidden);
      }
      r := Ok(request);
    }
  }

  // ---------------------------------------------------------------- whole calls, field by field

  /** A change is proposed by anybody, but to Founder or Super Admin only by a Founder, for somebody who exists. */
  lemma ProposeExactly(db: Db, id: nat, actor: nat, target: nat, role: Role)
    ensures var (after, r) := Propose(db, id, actor, target, role);
            if (role == Founder || role == SuperAdmin) && !(actor in db.users && db.users[actor].role == Founder) then
              r == Err(Forbidden) && after == db
            else if target !in db.users then r == Err(NotFound) && after == db
            else
              && r == Ok(id) && after.users == db.users
              && after.requests == db.requests[id := Request(target, role, db.users[target].role, actor, Pending, None)]
  {
  }

  /**
   * A pending request is decided by somebody other than its requester, and for Founder and Super
   * Admin by a Founder. A rejection only marks it; an approval also gives the target its role and
   * the ID that goes with it, unless somebody else shows that.
   */
  lemma ReviewExactly(db: Db, actor: nat, id: nat, approve: bool)
    ensures var (after, r) := Review(db, actor, id, approve);
            if id !in db.requests then r == Err(NotFound) && after == db
            else
              var request := db.requests[id];
              if request.status != Pending then r == Err(Conflict) && after == db
              else if actor == request.requestedBy
                      || ((request.requestedRole == Founder || request.requestedRole == SuperAdmin)
                          && !(actor in db.users && db.users[actor].role == Founder)) then r == Err(Forbidden) && after == db
              else if !approve then
                && r == Ok(()) && after.users == db.users
                && after.requests == db.requests[id := request.(status := Rejected, reviewedBy := Some(actor))]
              else if request.target !in db.users then r == Err(NotFound) && after == db
              else
                var target := db.users[request.target];
                var idType := if target.idType != "" then target.idType else if request.requestedRole == Founder then "FND" else "MBR";
                var ndyId := "NDY-" + idType + "-" + target.coreId;
                if exists u | u in db.users && u != request.target :: db.users[u].ndyId == ndyId then r == Err(NdyIdTaken) && after == db
                else
                  && r == Ok(())
                  && after.users == db.users[request.target := target.(role := request.requestedRole, ndyId := ndyId)]
                  && after.requests == db.requests[id := request.(status := Approved, reviewedBy := Some(actor))]
  {
  }

  // ---------------------------------------------------------------- runs of whole calls

  datatype Call = CreateCall(id: nat, actor: nat, target: nat, role: Role)
                | ReviewCall(actor: nat, id: nat, approve: bool)

  /** One call; a create whose random id is taken is not a possible call and changes nothing. */
  function Perform(db: Db, call: Call): Db {
    match call
    case CreateCall(id, actor, target, role) =>
      if id in db.requests then db else Propose(db, id, actor, target, role).0
    case ReviewCall(actor, id, approve) => Review(db, actor, id, approve).0
  }

  function Serial(db: Db, calls: seq<Call>): Db
    decreases calls
  {
    if calls == [] then db else Serial(Perform(db, calls[0]), calls[1..])
  }

  /** Why `u` has the role it has: it always had it, or someone else than the requester approved it. */
  ghost predicate RoleExplained(start: Users, db: Db, u: nat) {
    || (u in start && u in db.users && db.users[u].role == start[u].role)
    || exists id | id in db.requests :: Grants(db, id, u)
  }

  predicate Grants(db: Db, id: nat, u: nat)
    requires id in db.requests
  {
    var r := db.requests[id];
    && u in db.users && r.target == u && r.requestedRole == db.users[u].role
    && r.status == Approved && r.reviewedBy.Some? && r.reviewedBy.value != r.requestedBy
  }

  lemma PerformKeepsExplanations(start: Users, db: Db, call: Call)
    requires forall u | u in db.users :: RoleExplained(start, db, u)
    ensures forall u | u in Perform(db, call).users :: RoleExplained(start, Perform(db, call), u)
  {
    var after := Perform(db, call);
    forall u | u in after.users ensures RoleExplained(start, after, u) {
      if call.ReviewCall? && after.users != db.users && u == db.requests[call.id].target {
        assert Grants(after, call.id, u);
      } else {
        assert after.users[u] == db.users[u];
        if id :| id in db.requests && Grants(db, id, u) {
          assert Grants(after, id, u);
        }
      }
    }
  }

  /** Every role that differs from its start value was requested by one admin and approved by another. */
  lemma {:induction false} RolesAreDualApproved(start: Users, db: Db, calls: seq<Call>)
    requires forall u | u in db.users :: RoleExplained(start, db, u)
    ensures forall u | u in Serial(db, calls).users :: RoleExplained(start, Serial(db, calls), u)
    decreases calls
  {
    if calls != [] {
      PerformKeepsExplanations(start, db, calls[0]);
      RolesAreDualApproved(start, Perform(db, calls[0]), calls[1..]);
    }
  }

  /** Once resolved, a request is never touched again. */
  lemma {:induction false} ResolvedIsFinal(db: Db, calls: seq<Call>, id: nat)
    requires id in db.requests && db.requests[id].status != Pending
    ensures id in Serial(db, calls).requests && Serial(db, calls).requests[id] == db.requests[id]
    decreases calls
  {
    if calls != [] {
      ResolvedIsFinal(Perform(db, calls[0]), calls[1..], id);
    }
  }

  lemma ReviewKeepsWellFormed(db: Db, actor: nat, id: nat, approve: bool)
    requires WellFormed(db.users)
    ensures WellFormed(Review(db, actor, id, approve).0.users)
    ensures id in db.requests ==> Review(db, actor, id, approve).1 != Err(NdyIdTaken)
  {
    if approve && id in db.requests && db.requests[id].target in db.users {
      var request := db.requests[id];
      var a := db.users[request.target];
      var t := TypeForUser(a.idType, request.requestedRole);
      TypeSurvives(a, request.requestedRole);
      CoreResolves(db.users, request.target, t);
      assert NdyIdFree(db.users, request.target, Format(a.coreId, t)) by {
        assert forall u | u in db.users && db.users[u].ndyId == Format(a.coreId, t) ::
          Resolves(db.users, Format(a.coreId, t), u);
      }
    }
  }

  lemma TypeSurvives(a: Account, role: Role)
    requires WellFormedAccount(a)
    ensures IsType(TypeForUser(a.idType, role))
  {
  }

  // ---------------------------------------------------------------- interleaved calls

  /**
   * A call in flight, named after the database operation it does next, with what it has read so
   * far. `Deciding` has seen the request pending and is not the requester.
   */
  datatype Flight =
    | LoadingTarget(actor: nat, target: nat, role: Role)
    | Inserting(actor: nat, target: nat, role: Role, previousRole: Role)
    | Deciding(actor: nat, id: nat, request: Request, approve: bool)
    | Loading(actor: nat, id: nat, request: Request, approve: bool)
    | Committing(actor: nat, id: nat, request: Request, account: Account)

  datatype State = State(db: Db, flights: map<nat, Flight>)

  /** A call starts with its first read; `Next` lets a call in flight do its next operation. */
  datatype Event =
    | StartCreate(c: nat, actor: nat, target: nat, role: Role)
    | StartReview(c: nat, actor: nat, id: nat, approve: bool)
    | Next(c: nat, newId: nat)

  function Start(db: Db, e: Event): Option<Flight>
    requires !e.Next?
  {
    match e
    case StartCreate(_, actor, target, role) =>
      if MayDecide(db.users, actor, role) then Some(LoadingTarget(actor, target, role)) else None
    case StartReview(_, actor, id, approve) =>
      if id in db.requests && db.requests[id].status == Pending && actor != db.requests[id].requestedBy
      then Some(Deciding(actor, id, db.requests[id], approve)) else None
  }

  /** The next operation of a call: its effect, and the rest of the call if it goes on. */
  function Advance(db: Db, f: Flight, newId: nat): (Db, Option<Flight>) {
    match f
    case LoadingTarget(actor, target, role) =>
      if target in db.users then (db, Some(Inserting(actor, target, role, db.users[target].role))) else (db, None)
    case Inserting(actor, target, role, previousRole) =>
      if newId in db.requests then (db, Some(f))
      else (db.(requests := db.requests[newId := Request(target, role, previousRole, actor, Pending, None)]), None)
    case Deciding(actor, id, request, approve) =>
      if MayDecide(db.users, actor, request.requestedRole) then (db, Some(Loading(actor, id, request, approve)))
      else (db, None)
    case Loading(actor, id, request, approve) =>
      if !approve then (db.(requests := db.requests[id := Resolved(request, actor, false)]), None)
      else if request.target in db.users then (db, Some(Committing(actor, id, request, db.users[request.target])))
      else (db, None)
    case Committing(actor, id, request, account) =>
      if request.target in db.users then (CommitApproval(db, actor, id, request, account).0, None) else (db, None)
  }

  function Step(s: State, e: Event): State {
    if e.Next? then
      if e.c !in s.flights then s
      else
        var (db, rest) := Advance(s.db, s.flights[e.c], e.newId);
        State(db, if rest.Some? then s.flights[e.c := rest.value] else s.flights - {e.c})
    else if e.c in s.flights then s
    else
      var f := Start(s.db, e);
      if f.Some? then s.(flights := s.flights[e.c := f.value]) else s
  }

  function Run(s: State, events: seq<Event>): State
    decreases events
  {
    if events == [] then s else Run(Step(s, events[0]), events[1..])
  }

  function Founders(users: Users): set<nat> {
    set u | u in users && users[u].role == Founder
  }

  function SuperAdmins(users: Users): set<nat> {
    set u | u in users && users[u].role == SuperAdmin
  }

  /** No open request for Founder or Super Admin was made by anyone outside `founders`. */
  ghost predicate PrivilegedAskedBy(requests: Requests, founders: set<nat>) {
    forall id | id in requests && requests[id].status == Pending && Privileged(requests[id].requestedRole) ::
      requests[id].requestedBy in founders
  }

  predicate FlightOk(f: Flight, founders: set<nat>) {
    match f
    case LoadingTarget(actor, _, role) => Privileged(role) ==> actor in founders
    case Inserting(actor, _, role, _) => Privileged(role) ==> actor in founders
    case Deciding(actor, _, request, _) =>
      Privileged(request.requestedRole) ==> request.requestedBy in founders && actor != request.requestedBy
    case Loading(_, _, request, _) => !Privileged(request.requestedRole)
    case Committing(_, _, request, _) => !Privileged(request.requestedRole)
  }

  ghost predicate Contained(s: State, founders: set<nat>, superAdmins: set<nat>) {
    && Founders(s.db.users) <= founders
    && SuperAdmins(s.db.users) <= superAdmins
    && PrivilegedAskedBy(s.db.requests, founders)
    && forall c | c in s.flights :: FlightOk(s.flights[c], founders)
  }

  ghost predicate AtMostOne(founders: set<nat>) {
    forall a: nat, b: nat | a in founders && b in founders :: a == b
  }

  lemma StepKeepsContained(s: State, e: Event, founders: set<nat>, superAdmins: set<nat>)
    requires Contained(s, founders, superAdmins) && AtMostOne(founders)
    ensures Contained(Step(s, e), founders, superAdmins)
  {
    if e.Next? && e.c in s.flights {
      var f := s.flights[e.c];
      assert FlightOk(f, founders);
      var (db, rest) := Advance(s.db, f, e.newId);
      assert Founders(db.users) <= founders && SuperAdmins(db.users) <= superAdmins by {
        if f.Committing? {
          assert forall u | u in db.users && u != f.request.target :: u in s.db.users && db.users[u] == s.db.users[u];
          assert forall u | u in Founders(db.users) :: u in Founders(s.db.users);
          assert forall u | u in SuperAdmins(db.users) :: u in SuperAdmins(s.db.users);
        }
      }
      if f.Deciding? {
        assert IsFounder(s.db.users, f.actor) ==> f.actor in founders;
      }
    } else if e.StartCreate? && Privileged(e.role) && IsFounder(s.db.users, e.actor) {
      assert e.actor in Founders(s.db.users);
    }
  }

  lemma {:induction false} RunKeepsContained(s: State, events: seq<Event>, founders: set<nat>, superAdmins: set<nat>)
    requires Contained(s, founders, superAdmins) && AtMostOne(founders)
    ensures Contained(Run(s, events), founders, superAdmins)
    decreases events
  {
    if events != [] {
      StepKeepsContained(s, events[0], founders, superAdmins);
      RunKeepsContained(Step(s, events[0]), events[1..], founders, superAdmins);
    }
  }

  /**
   * However the calls interleave, nobody joins the Founders or the Super Admins when there is at
   * most one Founder and no open request for those roles comes from somebody else.
   */
  lemma NobodyIsPromoted(db: Db, events: seq<Event>)
    requires AtMostOne(Founders(db.users)) && PrivilegedAskedBy(db.requests, Founders(db.users))
    ensures Founders(Run(State(db, map[]), events).db.users) <= Founders(db.users)
    ensures SuperAdmins(Run(State(db, map[]), events).db.users) <= SuperAdmins(db.users)
  {
    RunKeepsContained(State(db, map[]), events, Founders(db.users), SuperAdmins(db.users));
  }

  // ---------------------------------------------------------------- the bound of one Founder is exact

  lemma TwoFoundersPromote(users: Users, a: nat, b: nat, t: nat, role: Role)
    requires WellFormed(users) && IsFounder(users, a) && IsFounder(users, b) && a != b && t in users
    ensures exists events :: HasRole(Run(State(Db(users, map[]), map[]), events).db.users, t, role)
  {
    PromotedBy(users, a, b, t, role, 0, 1, 0);
  }

  predicate HasRole(users: Users, u: nat, role: Role) {
    u in users && users[u].role == role
  }

  /** Founder `a` asks, Founder `b` approves, nothing in between. */
  lemma PromotedBy(users: Users, a: nat, b: nat, t: nat, role: Role, c: nat, d: nat, id: nat)
    requires WellFormed(users) && IsFounder(users, a) && IsFounder(users, b) && a != b && t in users
    ensures var events := CreateEvents(c, a, t, role, id) + (ReviewEvents(d, b, id, true) + []);
            HasRole(Run(State(Db(users, map[]), map[]), events).db.users, t, role)
  {
    var db0 := Db(users, map[]);
    var db1 := Propose(db0, id, a, t, role).0;
    AskedThenApproved(users, a, b, t, role, id);
    ReviewRun(State(db1, map[]), d, b, id, true, []);
    CreateRun(State(db0, map[]), c, a, t, role, id, ReviewEvents(d, b, id, true) + []);
  }

  lemma AskedThenApproved(users: Users, asker: nat, approver: nat, t: nat, role: Role, id: nat)
    requires WellFormed(users) && asker != approver && t in users
    requires MayDecide(users, asker, role) && MayDecide(users, approver, role)
    ensures var db1 := Propose(Db(users, map[]), id, asker, t, role).0;
            var db2 := Review(db1, approver, id, true).0;
            && db1 == Db(users, map[id := Request(t, role, users[t].role, asker, Pending, None)])
            && t in db2.users && db2.users[t].role == role && db2.requests.Keys == {id}
  {
    var db1 := Propose(Db(users, map[]), id, asker, t, role).0;
    ReviewKeepsWellFormed(db1, approver, id, true);
  }

  function CreateEvents(c: nat, actor: nat, target: nat, role: Role, newId: nat): seq<Event> {
    [StartCreate(c, actor, target, role), Next(c, newId), Next(c, newId)]
  }

  function ReviewEvents(c: nat, actor: nat, id: nat, approve: bool): seq<Event> {
    [StartReview(c, actor, id, approve), Next(c, 0), Next(c, 0), Next(c, 0)]
  }

  /** A create call nobody interrupts is the service's create. */
  lemma CreateRun(s: State, c: nat, actor: nat, target: nat, role: Role, newId: nat, after: seq<Event>)
    requires c !in s.flights && newId !in s.db.requests
    ensures Run(s, CreateEvents(c, actor, target, role, newId) + after)
         == Run(State(Propose(s.db, newId, actor, target, role).0, s.flights), after)
  {
    var e0, e1 := StartCreate(c, actor, target, role), Next(c, newId);
    var s1 := Step(s, e0);
    var s2 := Step(s1, e1);
    var s3 := Step(s2, e1);
    assert s3 == State(Propose(s.db, newId, actor, target, role).0, s.flights);
    assert CreateEvents(c, actor, target, role, newId) + after == [e0] + ([e1] + ([e1] + after));
    RunCons(s, e0, [e1] + ([e1] + after));
    RunCons(s1, e1, [e1] + after);
    RunCons(s2, e1, after);
  }

  lemma RunCons(s: State, e: Event, after: seq<Event>)
    ensures Run(s, [e] + after) == Run(Step(s, e), after)
  {
    assert ([e] + after)[1..] == after;
  }

  /** A review nobody interrupts is the service's review. */
  lemma ReviewRun(s: State, c: nat, actor: nat, id: nat, approve: bool, after: seq<Event>)
    requires c !in s.flights
    ensures Run(s, ReviewEvents(c, actor, id, approve) + after)
         == Run(State(Review(s.db, actor, id, approve).0, s.flights), after)
  {
    var e0, e := StartReview(c, actor, id, approve), Next(c, 0);
    var s1 := Step(s, e0);
    var s2 := Step(s1, e);
    var s3 := Step(s2, e);
    var s4 := Step(s3, e);
    ReviewSteps(s, c, actor, id, approve);
    assert ReviewEvents(c, actor, id, approve) + after == [e0] + ([e] + ([e] + ([e] + after)));
    RunCons(s, e0, [e] + ([e] + ([e] + after)));
    RunCons(s1, e, [e] + ([e] + after));
    RunCons(s2, e, [e] + after);
    RunCons(s3, e, after);
  }

  lemma ReviewSteps(s: State, c: nat, actor: nat, id: nat, approve: bool)
    requires c !in s.flights
    ensures Step(Step(Step(Step(s, StartReview(c, actor, id, approve)), Next(c, 0)), Next(c, 0)), Next(c, 0))
         == State(Review(s.db, actor, id, approve).0, s.flights)
  {
    var e := Next(c, 0);
    var s1 := Step(s, StartReview(c, actor, id, approve));
    var s2 := Step(s1, e);
    if s1 == s {
      assert s2 == s;
    } else {
      var request := s.db.requests[id];
      assert s1 == State(s.db, s.flights[c := Deciding(actor, id, request, approve)]);
      if MayDecide(s.db.users, actor, request.requestedRole) {
        assert s2 == State(s.db, s.flights[c := Loading(actor, id, request, approve)]);
        LastReviewSteps(s, c, actor, id, request, approve);
      } else {
        assert s2 == s;
      }
    }
  }

  lemma LastReviewSteps(s: State, c: nat, actor: nat, id: nat, request: Request, approve: bool)
    requires c !in s.flights
    ensures Step(Step(State(s.db, s.flights[c := Loading(actor, id, request, approve)]), Next(c, 0)), Next(c, 0))
         == if !approve then State(s.db.(requests := s.db.requests[id := Resolved(request, actor, false)]), s.flights)
            else if request.target in s.db.users
            then State(CommitApproval(s.db, actor, id, request, s.db.users[request.target]).0, s.flights)
            else s
  {
    var e := Next(c, 0);
    var s2 := State(s.db, s.flights[c := Loading(actor, id, request, approve)]);
    var s3 := Step(s2, e);
    if approve && request.target in s.db.users {
      var f := Committing(actor, id, request, s.db.users[request.target]);
      assert s3 == State(s.db, s.flights[c := f]);
      assert Step(s3, e).flights == s.flights;
    } else {
      assert s3.flights == s.flights;
    }
  }

  lemma {:induction false} RunPrefix(s: State, es: seq<Event>, after: seq<Event>)
    ensures Run(s, es + after) == Run(Run(s, es), after)
    decreases es
  {
    if es == [] {
      assert es + after == after;
    } else {
      assert (es + after)[1..] == es[1..] + after;
      RunPrefix(Step(s, es[0]), es[1..], after);
    }
  }

  ghost predicate CanGainFounder(users: Users) {
    exists events :: !(Founders(Run(State(Db(users, map[]), map[]), events).db.users) <= Founders(users))
  }

  ghost predicate CanGainSuperAdmin(users: Users) {
    exists events :: !(SuperAdmins(Run(State(Db(users, map[]), map[]), events).db.users) <= SuperAdmins(users))
  }

  lemma {:induction false} RunKeepsUsers(s: State, events: seq<Event>)
    ensures Run(s, events).db.users.Keys == s.db.users.Keys
    decreases events
  {
    if events != [] {
      RunKeepsUsers(Step(s, events[0]), events[1..]);
    }
  }

  lemma TwoFoundersGain(users: Users, a: nat, b: nat, t: nat)
    requires WellFormed(users) && IsFounder(users, a) && IsFounder(users, b) && a != b && t in users && users[t].role != Founder
    ensures CanGainFounder(users)
  {
    TwoFoundersPromote(users, a, b, t, Founder);
    var events :| HasRole(Run(State(Db(users, map[]), map[]), events).db.users, t, Founder);
    assert t in Founders(Run(State(Db(users, map[]), map[]), events).db.users) && t !in Founders(users);
  }

  /** With no open requests, a Founder can be gained exactly when two Founders and somebody else exist. */
  lemma GainNeedsTwoFounders(users: Users)
    requires WellFormed(users)
    ensures CanGainFounder(users)
       <==> (exists a, b :: IsFounder(users, a) && IsFounder(users, b) && a != b)
            && (exists t | t in users :: users[t].role != Founder)
  {
    var s := State(Db(users, map[]), map[]);
    if a, b, t :| IsFounder(users, a) && IsFounder(users, b) && a != b && t in users && users[t].role != Founder {
      TwoFoundersGain(users, a, b, t);
    }
    if CanGainFounder(users) {
      var events :| !(Founders(Run(s, events).db.users) <= Founders(users));
      RunKeepsUsers(s, events);
      if AtMostOne(Founders(users)) {
        NobodyIsPromoted(s.db, events);
      }
      var t :| t in Founders(Run(s, events).db.users) && t !in Founders(users);
      assert t in users && users[t].role != Founder;
      var a, b :| a in Founders(users) && b in Founders(users) && a != b;
      assert IsFounder(users, a) && IsFounder(users, b);
    }
  }

  /** A Super Admin can be gained exactly when two Founders exist: one of them can become it. */
  lemma GainSuperAdminNeedsTwoFounders(users: Users)
    requires WellFormed(users)
    ensures CanGainSuperAdmin(users) <==> exists a, b :: IsFounder(users, a) && IsFounder(users, b) && a != b
  {
    var s := State(Db(users, map[]), map[]);
    if a, b :| IsFounder(users, a) && IsFounder(users, b) && a != b {
      TwoFoundersPromote(users, a, b, a, SuperAdmin);
      var events :| HasRole(Run(s, events).db.users, a, SuperAdmin);
      assert a in SuperAdmins(Run(s, events).db.users) && a !in SuperAdmins(users);
    }
    if CanGainSuperAdmin(users) {
      if AtMostOne(Founders(users)) {
        var events :| !(SuperAdmins(Run(s, events).db.users) <= SuperAdmins(users));
        NobodyIsPromoted(s.db, events);
      }
      var a, b :| a in Founders(users) && b in Founders(users) && a != b;
      assert IsFounder(users, a) && IsFounder(users, b);
    }
  }

  /**
   * Interleaved, dual approval of every role no longer holds: an approval and a rejection that
   * both saw the request pending leave the role changed and the request rejected.
   */
  lemma RejectedYetApplied(users: Users, asker: nat, x: nat, y: nat, t: nat)
    requires WellFormed(users) && asker != x && asker != y && t in users && users[t].role == User
    ensures exists events ::
              var db := Run(State(Db(users, map[]), map[]), events).db;
              && t in db.users && db.users[t].role == Support
              && forall id | id in db.requests :: db.requests[id].status == Rejected
  {
    RejectedAfterApproval(users, asker, x, y, t, 0, 1, 2, 0);
  }

  function RacingReviews(asker: nat, x: nat, y: nat, t: nat, c: nat, d: nat, e: nat, id: nat): seq<Event> {
    CreateEvents(c, asker, t, Support, id)
    + ([StartReview(d, y, id, false)] + ([Next(d, 0)] + (ReviewEvents(e, x, id, true) + ([Next(d, 0)] + []))))
  }

  lemma RejectedAfterApproval(users: Users, asker: nat, x: nat, y: nat, t: nat, c: nat, d: nat, e: nat, id: nat)
    requires WellFormed(users) && asker != x && asker != y && t in users && d != e
    ensures var db := Run(State(Db(users, map[]), map[]), RacingReviews(asker, x, y, t, c, d, e, id)).db;
            && t in db.users && db.users[t].role == Support
            && db.requests.Keys == {id} && db.requests[id].status == Rejected
  {
    var db0 := Db(users, map[]);
    var db1 := Propose(db0, id, asker, t, Support).0;
    AskedThenApproved(users, asker, x, t, Support, id);
    CreateRun(State(db0, map[]), c, asker, t, Support, id, RacingReviews(asker, x, y, t, c, d, e, id)[3..]);
    RacingRun(db1, x, y, d, e, id);
    assert RacingReviews(asker, x, y, t, c, d, e, id)[3..]
        == [StartReview(d, y, id, false)] + ([Next(d, 0)] + (ReviewEvents(e, x, id, true) + ([Next(d, 0)] + [])));
  }

  lemma RacingRun(db: Db, x: nat, y: nat, d: nat, e: nat, id: nat)
    requires id in db.requests && db.requests[id].status == Pending && db.requests[id].requestedBy != y
    requires db.requests[id].requestedRole == Support && d != e
    ensures Run(State(db, map[]),
                [StartReview(d, y, id, false)] + ([Next(d, 0)] + (ReviewEvents(e, x, id, true) + ([Next(d, 0)] + [])))).db
         == var db2 := Review(db, x, id, true).0;
            db2.(requests := db2.requests[id := Resolved(db.requests[id], y, false)])
  {
    var e0, e1 := StartReview(d, y, id, false), Next(d, 0);
    var held := HeldRejection(db, d, y, id);
    var rest := ReviewEvents(e, x, id, true) + ([e1] + []);
    RunCons(State(db, map[]), e0, [e1] + rest);
    RunCons(Step(State(db, map[]), e0), e1, rest);
    ReviewRun(held, e, x, id, true, [e1] + []);
    RunCons(State(Review(db, x, id, true).0, held.flights), e1, []);
  }

  /** The rejection by `y` has passed its checks and is about to write. */
  function HeldRejection(db: Db, d: nat, y: nat, id: nat): (s: State)
    requires id in db.requests && db.requests[id].status == Pending && db.requests[id].requestedBy != y
    requires db.requests[id].requestedRole == Support
    ensures Step(Step(State(db, map[]), StartReview(d, y, id, false)), Next(d, 0)) == s
  {
    State(db, map[d := Loading(y, id, db.requests[id], false)])
  }

  // ---------------------------------------------------------------- when an approval lasts

  /** A rejection of request `id` that has seen it pending and not written yet. */
  predicate HoldsRejection(f: Flight, id: nat) {
    (f.Deciding? || f.Loading?) && f.id == id && !f.approve
  }

  /** Such a rejection that is past the Founder check, or would pass it now. */
  predicate Ready(users: Users, f: Flight, id: nat) {
    HoldsRejection(f, id) && (f.Loading? || MayDecide(users, f.actor, f.request.requestedRole))
  }

  ghost predicate RejectionHeld(s: State, id: nat) {
    exists c :: c in s.flights && HoldsRejection(s.flights[c], id)
  }

  ghost predicate RejectionReady(s: State, id: nat) {
    exists c :: c in s.flights && Ready(s.db.users, s.flights[c], id)
  }

  predicate IsApproved(db: Db, id: nat) {
    id in db.requests && db.requests[id].status == Approved
  }

  ghost predicate StaysApproved(s: State, id: nat) {
    forall events :: IsApproved(Run(s, events).db, id)
  }

  /** Every held rejection of `id` is waiting for a Founder check its actor cannot pass. */
  ghost predicate Barred(s: State, id: nat, founders: set<nat>) {
    forall c | c in s.flights && HoldsRejection(s.flights[c], id) ::
      s.flights[c].Deciding? && Privileged(s.flights[c].request.requestedRole) && s.flights[c].actor !in founders
  }

  lemma StepKeepsApproved(s: State, e: Event, id: nat, founders: set<nat>)
    requires IsApproved(s.db, id) && Barred(s, id, founders)
    requires Founders(s.db.users) <= founders || !RejectionHeld(s, id)
    ensures IsApproved(Step(s, e).db, id) && Barred(Step(s, e), id, founders)
    ensures !RejectionHeld(s, id) ==> !RejectionHeld(Step(s, e), id)
  {
    var t := Step(s, e);
    if e.Next? && e.c in s.flights && s.flights[e.c].Deciding? {
      assert IsFounder(s.db.users, s.flights[e.c].actor) ==> s.flights[e.c].actor in Founders(s.db.users);
    }
    assert forall c | c in t.flights && HoldsRejection(t.flights[c], id) :: c in s.flights && t.flights[c] == s.flights[c];
    if e.Next? && e.c in s.flights {
      assert !(s.flights[e.c].Loading? && HoldsRejection(s.flights[e.c], id));
    }
  }

  lemma {:induction false} RunKeepsApproved(s: State, events: seq<Event>, id: nat, founders: set<nat>, superAdmins: set<nat>)
    requires IsApproved(s.db, id) && Barred(s, id, founders)
    requires (Contained(s, founders, superAdmins) && AtMostOne(founders)) || !RejectionHeld(s, id)
    ensures IsApproved(Run(s, events).db, id)
    decreases events
  {
    if events != [] {
      StepKeepsApproved(s, events[0], id, founders);
      if Contained(s, founders, superAdmins) && AtMostOne(founders) {
        StepKeepsContained(s, events[0], founders, superAdmins);
      }
      RunKeepsApproved(Step(s, events[0]), events[1..], id, founders, superAdmins);
    }
  }

  /** The held rejection `c` is written: at once, or after the check it passes. */
  lemma ReadyRejects(s: State, c: nat, id: nat)
    requires c in s.flights && Ready(s.db.users, s.flights[c], id)
    ensures !StaysApproved(s, id)
  {
    var n := Next(c, 0);
    var s1 := Step(s, n);
    RunCons(s, n, []);
    if s.flights[c].Loading? {
      assert !IsApproved(Run(s, [n] + []).db, id);
    } else {
      RunCons(s, n, [n] + []);
      RunCons(s1, n, []);
      assert !IsApproved(Run(s, [n] + ([n] + [])).db, id);
    }
  }

  /** Founder and Super Admin stay in the hands of those who have them now. */
  ghost predicate FoundersSettled(s: State) {
    AtMostOne(Founders(s.db.users)) && Contained(s, Founders(s.db.users), SuperAdmins(s.db.users))
  }

  /**
   * From any state: an approval lasts through everything that can follow exactly when no rejection
   * of it is past its checks or would pass them now. For privileged roles, whose check looks at who
   * is a Founder, this is under the condition that nobody becomes one.
   */
  lemma ApprovalLastsExactly(s: State, id: nat)
    requires IsApproved(s.db, id)
    requires FoundersSettled(s)
             || forall c | c in s.flights && HoldsRejection(s.flights[c], id) :: !Privileged(s.flights[c].request.requestedRole)
    ensures StaysApproved(s, id) <==> !RejectionReady(s, id)
  {
    if RejectionReady(s, id) {
      var c :| c in s.flights && Ready(s.db.users, s.flights[c], id);
      ReadyRejects(s, c, id);
    } else {
      var founders, superAdmins := Founders(s.db.users), SuperAdmins(s.db.users);
      forall c | c in s.flights && HoldsRejection(s.flights[c], id)
        ensures s.flights[c].Deciding? && Privileged(s.flights[c].request.requestedRole) && s.flights[c].actor !in founders
      {
        assert !Ready(s.db.users, s.flights[c], id);
      }
      forall events ensures IsApproved(Run(s, events).db, id) {
        RunKeepsApproved(s, events, id, founders, superAdmins);
      }
    }
  }

  /** Whatever the role and whoever becomes a Founder: without a held rejection an approval lasts. */
  lemma ApprovalLasts(s: State, id: nat, events: seq<Event>)
    requires IsApproved(s.db, id) && !RejectionHeld(s, id)
    ensures IsApproved(Run(s, events).db, id)
  {
    assert Barred(s, id, {});
    RunKeepsApproved(s, events, id, {}, {});
  }

  // Without any assumption on the Founders: what matters is whether the rejecting actor can get past the check.

  /** Call `c` is left where it is. */
  predicate Without(events: seq<Event>, c: nat) {
    forall i | 0 <= i < |events| :: !(events[i].Next? && events[i].c == c)
  }

  /** Something can happen, short of letting call `c` on, that lets its actor pass the Founder check. */
  ghost predicate CanPass(s: State, c: nat)
    requires c in s.flights && s.flights[c].Deciding?
  {
    exists events :: Without(events, c)
      && MayDecide(Run(s, events).db.users, s.flights[c].actor, s.flights[c].request.requestedRole)
  }

  ghost predicate RejectionPossible(s: State, id: nat) {
    exists c :: c in s.flights && HoldsRejection(s.flights[c], id) && (s.flights[c].Loading? || CanPass(s, c))
  }

  lemma {:induction false} WithoutKeepsFlight(s: State, events: seq<Event>, c: nat)
    requires c in s.flights && Without(events, c)
    ensures c in Run(s, events).flights && Run(s, events).flights[c] == s.flights[c]
    decreases events
  {
    if events != [] {
      var t := Step(s, events[0]);
      assert c in t.flights && t.flights[c] == s.flights[c];
      WithoutKeepsFlight(t, events[1..], c);
    }
  }

  lemma PossibleRejects(s: State, id: nat)
    requires IsApproved(s.db, id) && RejectionPossible(s, id)
    ensures !StaysApproved(s, id)
  {
    var c :| c in s.flights && HoldsRejection(s.flights[c], id) && (s.flights[c].Loading? || CanPass(s, c));
    if s.flights[c].Loading? {
      ReadyRejects(s, c, id);
    } else {
      var events :| Without(events, c)
        && MayDecide(Run(s, events).db.users, s.flights[c].actor, s.flights[c].request.requestedRole);
      var u := Run(s, events);
      WithoutKeepsFlight(s, events, c);
      ReadyRejects(u, c, id);
      var more :| !IsApproved(Run(u, more).db, id);
      RunPrefix(s, events, more);
      assert !IsApproved(Run(s, events + more).db, id);
    }
  }

  lemma ImpassableIsBarred(s: State, id: nat)
    requires !RejectionPossible(s, id)
    ensures Barred(s, id, Founders(s.db.users))
  {
    forall c | c in s.flights && HoldsRejection(s.flights[c], id)
      ensures s.flights[c].Deciding? && Privileged(s.flights[c].request.requestedRole) && s.flights[c].actor !in Founders(s.db.users)
    {
      assert s.flights[c].Deciding? && !CanPass(s, c);
      assert Without([], c) && Run(s, []) == s;
    }
  }

  lemma PassBefore(s: State, e: Event, c: nat)
    requires c in s.flights && s.flights[c].Deciding? && !(e.Next? && e.c == c)
    requires c in Step(s, e).flights && Step(s, e).flights[c] == s.flights[c] && CanPass(Step(s, e), c)
    ensures CanPass(s, c)
  {
    var events :| Without(events, c)
      && MayDecide(Run(Step(s, e), events).db.users, s.flights[c].actor, s.flights[c].request.requestedRole);
    RunCons(s, e, events);
    assert Without([e] + events, c);
  }

  lemma StepStaysImpassable(s: State, e: Event, id: nat)
    requires IsApproved(s.db, id) && !RejectionPossible(s, id)
    ensures IsApproved(Step(s, e).db, id) && !RejectionPossible(Step(s, e), id)
  {
    var t := Step(s, e);
    ImpassableIsBarred(s, id);
    StepKeepsApproved(s, e, id, Founders(s.db.users));
    forall c | c in t.flights && HoldsRejection(t.flights[c], id)
      ensures t.flights[c].Deciding? && !CanPass(t, c)
    {
      HeldWasHeld(s, e, id, c);
      if CanPass(t, c) {
        PassBefore(s, e, c);
      }
    }
  }

  /** A rejection held after a step was held before, and has not moved. */
  lemma HeldWasHeld(s: State, e: Event, id: nat, c: nat)
    requires IsApproved(s.db, id) && Barred(s, id, Founders(s.db.users))
    requires c in Step(s, e).flights && HoldsRejection(Step(s, e).flights[c], id)
    ensures c in s.flights && Step(s, e).flights[c] == s.flights[c] && s.flights[c].Deciding? && !(e.Next? && e.c == c)
  {
    if e.Next? && e.c in s.flights && s.flights[e.c].Deciding? {
      assert IsFounder(s.db.users, s.flights[e.c].actor) ==> s.flights[e.c].actor in Founders(s.db.users);
    }
  }

  lemma {:induction false} ImpassableLasts(s: State, events: seq<Event>, id: nat)
    requires IsApproved(s.db, id) && !RejectionPossible(s, id)
    ensures IsApproved(Run(s, events).db, id)
    decreases events
  {
    if events != [] {
      StepStaysImpassable(s, events[0], id);
      ImpassableLasts(Step(s, events[0]), events[1..], id);
    }
  }

  /**
   * From any state, whatever the role and whoever the Founders are: an approval lasts through
   * everything that can follow exactly when no held rejection of it is past the Founder check or
   * can be brought past it.
   */
  lemma ApprovalLastsIffImpassable(s: State, id: nat)
    requires IsApproved(s.db, id)
    ensures StaysApproved(s, id) <==> !RejectionPossible(s, id)
  {
    if RejectionPossible(s, id) {
      PossibleRejects(s, id);
    } else {
      forall events ensures IsApproved(Run(s, events).db, id) {
        ImpassableLasts(s, events, id);
      }
    }
  }

  lemma AskedThenApprovedIn(db: Db, asker: nat, approver: nat, t: nat, role: Role, id: nat)
    requires WellFormed(db.users) && asker != approver && t in db.users && id !in db.requests
    requires MayDecide(db.users, asker, role) && MayDecide(db.users, approver, role)
    ensures var db1 := Propose(db, id, asker, t, role).0; HasRole(Review(db1, approver, id, true).0.users, t, role)
  {
    ReviewKeepsWellFormed(Propose(db, id, asker, t, role).0, approver, id, true);
  }

  lemma PromotionRun(s: State, d: nat, a: nat, b: nat, x: nat, id: nat)
    requires WellFormed(s.db.users) && IsFounder(s.db.users, a) && IsFounder(s.db.users, b) && a != b && x in s.db.users
    requires d !in s.flights && id !in s.db.requests
    ensures HasRole(Run(s, CreateEvents(d, a, x, Founder, id) + (ReviewEvents(d, b, id, true) + [])).db.users, x, Founder)
  {
    AskedThenApprovedIn(s.db, a, b, x, Founder, id);
    CreateRun(s, d, a, x, Founder, id, ReviewEvents(d, b, id, true) + []);
    ReviewRun(State(Propose(s.db, id, a, x, Founder).0, s.flights), d, b, id, true, []);
  }

  /** Two Founders can make any account a Founder, whatever else is going on. */
  lemma TwoFoundersPass(s: State, c: nat, a: nat, b: nat)
    requires WellFormed(s.db.users) && IsFounder(s.db.users, a) && IsFounder(s.db.users, b) && a != b
    requires c in s.flights && s.flights[c].Deciding? && s.flights[c].actor in s.db.users
    ensures CanPass(s, c)
  {
    var x := s.flights[c].actor;
    var d := FreshKey(s.flights.Keys);
    var id := FreshKey(s.db.requests.Keys);
    var events := CreateEvents(d, a, x, Founder, id) + (ReviewEvents(d, b, id, true) + []);
    PromotionRun(s, d, a, b, x, id);
    PromotionLeavesOthers(d, a, b, x, id, c);
    assert MayDecide(Run(s, events).db.users, x, s.flights[c].request.requestedRole);
  }

  lemma PromotionLeavesOthers(d: nat, a: nat, b: nat, x: nat, id: nat, c: nat)
    requires c != d
    ensures Without(CreateEvents(d, a, x, Founder, id) + (ReviewEvents(d, b, id, true) + []), c)
  {
  }

  /**
   * With two Founders the check holds nobody back who has an account: an approval lasts exactly
   * when every held rejection of it is for a privileged role and by an actor that does not exist.
   */
  lemma ApprovalLastsAmongFounders(s: State, id: nat, a: nat, b: nat)
    requires IsApproved(s.db, id) && WellFormed(s.db.users)
    requires IsFounder(s.db.users, a) && IsFounder(s.db.users, b) && a != b
    ensures StaysApproved(s, id)
       <==> forall c | c in s.flights && HoldsRejection(s.flights[c], id) ::
              s.flights[c].Deciding? && Privileged(s.flights[c].request.requestedRole) && s.flights[c].actor !in s.db.users
  {
    ApprovalLastsIffImpassable(s, id);
    forall c | c in s.flights && s.flights[c].Deciding?
      ensures CanPass(s, c) <==> !Privileged(s.flights[c].request.requestedRole) || s.flights[c].actor in s.db.users
    {
      PassAmongFounders(s, c, a, b);
    }
  }

  lemma PassAmongFounders(s: State, c: nat, a: nat, b: nat)
    requires WellFormed(s.db.users) && IsFounder(s.db.users, a) && IsFounder(s.db.users, b) && a != b
    requires c in s.flights && s.flights[c].Deciding?
    ensures CanPass(s, c) <==> !Privileged(s.flights[c].request.requestedRole) || s.flights[c].actor in s.db.users
  {
    if !Privileged(s.flights[c].request.requestedRole) {
      assert Without([], c) && Run(s, []) == s;
    } else if s.flights[c].actor in s.db.users {
      TwoFoundersPass(s, c, a, b);
    } else {
      forall events ensures !MayDecide(Run(s, events).db.users, s.flights[c].actor, s.flights[c].request.requestedRole) {
        RunKeepsUsers(s, events);
      }
    }
  }

  // ---------------------------------------------------------------- interleaved dual approval

  /** No approval of the run is committed while a rejection of the same request is held. */
  predicate CleanCommits(s: State, events: seq<Event>)
    decreases events
  {
    events != [] ==>
      && CleanCommit(s, events[0])
      && CleanCommits(Step(s, events[0]), events[1..])
  }

  predicate CleanCommit(s: State, e: Event) {
    e.Next? && e.c in s.flights && s.flights[e.c].Committing? ==>
      forall d | d in s.flights :: !HoldsRejection(s.flights[d], s.flights[e.c].id)
  }

  /** A review in flight is by somebody else, of a request that still asks for the same. */
  predicate ReviewOk(db: Db, f: Flight) {
    f.LoadingTarget? || f.Inserting? ||
    (f.actor != f.request.requestedBy && f.id in db.requests && SameQuestion(f.request, db.requests[f.id]))
  }

  predicate SameQuestion(a: Request, b: Request) {
    a.target == b.target && a.requestedRole == b.requestedRole && a.requestedBy == b.requestedBy
  }

  ghost predicate Explained(start: Users, s: State) {
    && (forall u | u in s.db.users :: RoleExplained(start, s.db, u))
    && (forall c | c in s.flights :: ReviewOk(s.db, s.flights[c]))
    && (forall id | IsApproved(s.db, id) :: !RejectionHeld(s, id))
  }

  predicate DualApproved(r: Request) {
    r.status == Approved && r.reviewedBy.Some? && r.reviewedBy.value != r.requestedBy
  }

  /** Requests are not taken back, ask the same ever after, and stay approved by two people if they were. */
  ghost predicate RequestsLast(db: Db, after: Db) {
    forall id | id in db.requests ::
      id in after.requests && SameQuestion(db.requests[id], after.requests[id])
      && (DualApproved(db.requests[id]) ==> DualApproved(after.requests[id]))
  }

  lemma StepKeepsRequests(start: Users, s: State, e: Event)
    requires Explained(start, s)
    ensures RequestsLast(s.db, Step(s, e).db)
  {
    if e.Next? && e.c in s.flights {
      var f := s.flights[e.c];
      assert ReviewOk(s.db, f);
      if f.Loading? && !f.approve {
        assert RejectionHeld(s, f.id) && !IsApproved(s.db, f.id);
      }
    }
  }

  /** A step changes a role only by committing an approval, which then explains it. */
  lemma StepChangesRole(start: Users, s: State, e: Event, u: nat)
    requires Explained(start, s) && u in Step(s, e).db.users
    ensures u in s.db.users
    ensures Step(s, e).db.users[u].role == s.db.users[u].role || RoleExplained(start, Step(s, e).db, u)
  {
    var t := Step(s, e);
    if e.Next? && e.c in s.flights && s.flights[e.c].Committing? && t.db != s.db && u == s.flights[e.c].request.target {
      assert ReviewOk(s.db, s.flights[e.c]);
      assert Grants(t.db, s.flights[e.c].id, u);
    }
  }

  lemma StepKeepsRoles(start: Users, s: State, e: Event, u: nat)
    requires Explained(start, s) && u in Step(s, e).db.users
    ensures RoleExplained(start, Step(s, e).db, u)
  {
    var t := Step(s, e);
    StepKeepsRequests(start, s, e);
    StepChangesRole(start, s, e, u);
    if t.db.users[u].role == s.db.users[u].role {
      if id :| id in s.db.requests && Grants(s.db, id, u) {
        assert DualApproved(s.db.requests[id]);
        assert Grants(t.db, id, u);
      }
    }
  }

  lemma StepKeepsReviews(start: Users, s: State, e: Event, c: nat)
    requires Explained(start, s) && c in Step(s, e).flights
    ensures ReviewOk(Step(s, e).db, Step(s, e).flights[c])
  {
    StepKeepsRequests(start, s, e);
    if c in s.flights {
      assert ReviewOk(s.db, s.flights[c]);
    }
  }

  lemma StepKeepsUnheld(start: Users, s: State, e: Event, id: nat)
    requires Explained(start, s) && CleanCommit(s, e) && IsApproved(Step(s, e).db, id)
    ensures !RejectionHeld(Step(s, e), id)
  {
    if IsApproved(s.db, id) {
      StepKeepsApproved(s, e, id, {});
    } else {
      assert e.Next? && e.c in s.flights && s.flights[e.c].Committing? && s.flights[e.c].id == id;
      assert forall d | d in Step(s, e).flights :: d in s.flights && Step(s, e).flights[d] == s.flights[d];
    }
  }

  lemma StepKeepsExplained(start: Users, s: State, e: Event)
    requires Explained(start, s) && CleanCommit(s, e)
    ensures Explained(start, Step(s, e))
  {
    var t := Step(s, e);
    forall u | u in t.db.users ensures RoleExplained(start, t.db, u) {
      StepKeepsRoles(start, s, e, u);
    }
    forall c | c in t.flights ensures ReviewOk(t.db, t.flights[c]) {
      StepKeepsReviews(start, s, e, c);
    }
    forall id | IsApproved(t.db, id) ensures !RejectionHeld(t, id) {
      StepKeepsUnheld(start, s, e, id);
    }
  }

  lemma {:induction false} RunKeepsExplained(start: Users, s: State, events: seq<Event>)
    requires Explained(start, s) && CleanCommits(s, events)
    ensures Explained(start, Run(s, events))
    decreases events
  {
    if events != [] {
      StepKeepsExplained(start, s, events[0]);
      RunKeepsExplained(start, Step(s, events[0]), events[1..]);
    }
  }

  /**
   * However the calls interleave, as long as no approval commits while a rejection of the same
   * request is held: every role that differs from its start value was asked for by one admin and
   * approved by another, and every approval made so far lasts.
   */
  lemma InterleavedDualApproval(db: Db, events: seq<Event>, u: nat, id: nat)
    requires CleanCommits(State(db, map[]), events)
    ensures var end := Run(State(db, map[]), events);
            && (u in end.db.users ==> RoleExplained(db.users, end.db, u))
            && (IsApproved(end.db, id) ==> StaysApproved(end, id))
  {
    RunKeepsExplained(db.users, State(db, map[]), events);
    var end := Run(State(db, map[]), events);
    if IsApproved(end.db, id) {
      forall more ensures IsApproved(Run(end, more).db, id) {
        ApprovalLasts(end, id, more);
      }
    }
  }
}
