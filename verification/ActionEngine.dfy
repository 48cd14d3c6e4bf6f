/**
 * The action engine: requests are authorised, validated and then run, at once or after an approval,
 * with every outcome logged under the request's idempotency key. Log entries and approvals are in
 * insertion order and named by their position.
 */
module ActionEngine {
  import opened Wrappers
  import Broker = ContextBroker

  datatype Tier = Low | Medium | High | Critical

  datatype Definition = Definition(tier: Tier, requiredScopes: seq<string>)

  /** The code's own action table. */
  type Registry = map<string, Definition>

  datatype Origin = Agent(client: Option<string>) | OtherOrigin

  datatype Input = Input(actionKey: string, workspace: nat, user: nat, origin: Origin, params: nat, key: string)

  datatype Status = Rejected | PendingApproval | Executed | Denied

  datatype Reason =
    | UnknownAction | NotEnabled | NotMember | NoConsent(reason: Broker.Reason) | InvalidParams
    | DomainFailure(message: string) | DeniedByUser

  datatype LogEntry = LogEntry(input: Input, status: Status, tier: Tier, reason: Option<Reason>)

  datatype ApprovalStatus = Open | Approved | Refused | Lapsed

  datatype Approval = Approval(log: nat, tier: Tier, strongAuth: bool, status: ApprovalStatus, expiresAt: int, resolvedAt: Option<int>)

  /** `runs` records every call of a domain service, in order. */
  datatype Db = Db(logs: seq<LogEntry>, approvals: seq<Approval>, runs: seq<Input>)

  datatype Response =
    | Done(log: nat)
    | Waiting(log: nat, approval: Option<nat>)
    | Turned(log: nat, reason: Option<Reason>)

  datatype Error = NoApproval | AlreadyResolved | ApprovalExpired | ActionGone

  /** What a submission is checked against: tables of other services, at the time of the call. */
  datatype World = World(
    enabled: set<string>, members: set<(nat, nat)>, valid: set<(string, nat)>,
    clients: Broker.Clients, consents: Broker.Consents)

  const APPROVAL_TTL_MS := 48 * 60 * 60 * 1000

  // ---------------------------------------------------------------- whole calls

  function FindLog(logs: seq<LogEntry>, key: string): (i: Option<nat>)
    ensures i.Some? ==> i.value < |logs| && logs[i.value].input.key == key
    ensures i.None? ==> forall j | 0 <= j < |logs| :: logs[j].input.key != key
  {
    if logs == [] then None
    else if logs[|logs| - 1].input.key == key then Some(|logs| - 1)
    else FindLog(logs[..|logs| - 1], key)
  }

  function FindApproval(approvals: seq<Approval>, log: nat): (i: Option<nat>)
    ensures i.Some? ==> i.value < |approvals| && approvals[i.value].log == log
    ensures i.None? ==> forall j | 0 <= j < |approvals| :: approvals[j].log != log
  {
    if approvals == [] then None
    else if approvals[|approvals| - 1].log == log then Some(|approvals| - 1)
    else FindApproval(approvals[..|approvals| - 1], log)
  }

  /** `toResult`. */
  function Recorded(db: Db, i: nat): Response
    requires i < |db.logs|
  {
    match db.logs[i].status
    case Executed => Done(i)
    case PendingApproval => Waiting(i, FindApproval(db.approvals, i))
    case Rejected => Turned(i, db.logs[i].reason)
    case Denied => Turned(i, db.logs[i].reason)
  }

  /** The first check a submission fails, if any. */
  function Objection(registry: Registry, world: World, input: Input): Option<Reason> {
    if input.actionKey !in registry then Some(UnknownAction)
    else if input.actionKey !in world.enabled then Some(NotEnabled)
    else if (input.user, input.workspace) !in world.members then Some(NotMember)
    else
      var refusal := if input.origin.Agent?
                     then Broker.Refusal(world.clients, world.consents, input.user, input.origin.client,
                                         registry[input.actionKey].requiredScopes)
                     else None;
      if refusal.Some? then Some(NoConsent(refusal.value))
      else if (input.actionKey, input.params) !in world.valid then Some(InvalidParams)
      else None
  }

  function Write(db: Db, input: Input, status: Status, tier: Tier, reason: Option<Reason>): Db {
    db.(logs := db.logs + [LogEntry(input, status, tier, reason)])
  }

  function TierOf(registry: Registry, input: Input): Tier {
    if input.actionKey in registry then registry[input.actionKey].tier else Low
  }

  /** `execute`: the domain service is called and its outcome logged, in a new entry or in the approval's. */
  function Execute(db: Db, input: Input, tier: Tier, failure: Option<string>, existing: Option<nat>): (Db, Response)
    requires existing.Some? ==> existing.value < |db.logs|
  {
    var status := if failure.Some? then Rejected else Executed;
    var reason := if failure.Some? then Some(DomainFailure(failure.value)) else None;
    var ran := db.(runs := db.runs + [input]);
    var i := if existing.Some? then existing.value else |db.logs|;
    var after :=
      if existing.None? then Write(ran, input, status, tier, reason)
      else ran.(logs := ran.logs[i := ran.logs[i].(status := status, reason := if failure.Some? then reason else ran.logs[i].reason)]);
    (after, if failure.Some? then Turned(i, reason) else Done(i))
  }

  function Submit(registry: Registry, world: World, db: Db, input: Input, failure: Option<string>, now: int): (Db, Response) {
    var known := FindLog(db.logs, input.key);
    if known.Some? then (db, Recorded(db, known.value))
    else
      var objection, tier, i := Objection(registry, world, input), TierOf(registry, input), |db.logs|;
      if objection.Some? then (Write(db, input, Rejected, tier, objection), Turned(i, objection))
      else if tier.Low? then Execute(db, input, tier, failure, None)
      else
        var approval := Approval(i, tier, tier.Critical?, Open, now + APPROVAL_TTL_MS, None);
        (Write(db, input, PendingApproval, tier, None).(approvals := db.approvals + [approval]), Waiting(i, Some(|db.approvals|)))
  }

  predicate LogsExist(db: Db) {
    forall a | 0 <= a < |db.approvals| :: db.approvals[a].log < |db.logs|
  }

  function Settle(db: Db, a: nat, status: ApprovalStatus, now: int): Db
    requires a < |db.approvals|
  {
    db.(approvals := db.approvals[a := db.approvals[a].(status := status, resolvedAt := Some(now))])
  }

  function Resolve(registry: Registry, db: Db, a: nat, approve: bool, failure: Option<string>, now: int): (Db, Result<Response, Error>)
    requires LogsExist(db)
  {
    if a >= |db.approvals| then (db, Err(NoApproval))
    else
      var approval := db.approvals[a];
      if approval.status != Open then (db, Err(AlreadyResolved))
      else if approval.expiresAt < now then
        (db.(approvals := db.approvals[a := approval.(status := Lapsed)]), Err(ApprovalExpired))
      else
        var log := db.logs[approval.log];
        if log.input.actionKey !in registry then (db, Err(ActionGone))
        else if !approve then
          (Settle(db, a, Refused, now).(logs := db.logs[approval.log := log.(status := Denied)]), Ok(Turned(approval.log, Some(DeniedByUser))))
        else
          var (after, response) := Execute(Settle(db, a, Approved, now), log.input, TierOf(registry, log.input), failure, Some(approval.log));
          (after, Ok(response))
  }

  class ActionEngineService {
    const registry: Registry
    var logs: seq<LogEntry>
    var approvals: seq<Approval>
    var runs: seq<Input>

    ghost function Tables(): Db reads this {
      Db(logs, approvals, runs)
    }

    constructor (registry: Registry)
      ensures this.registry == registry && Tables() == Db([], [], [])
    {
      this.registry := registry;
      logs, approvals, runs := [], [], [];
    }

    method WriteLog(input: Input, status: Status, tier: Tier, reason: Option<Reason>) returns (i: nat)
      modifies this`logs
      ensures Tables() == Write(old(Tables()), input, status, tier, reason) && i == |old(logs)|
    {
      i := |logs|;
      logs := logs + [LogEntry(input, status, tier, reason)];
    }

    method ExecuteAction(input: Input, tier: Tier, failure: Option<string>, existing: Option<nat>) returns (response: Response)
      requires existing.Some? ==> existing.value < |logs|
      modifies this`logs, this`runs
      ensures (Tables(), response) == Execute(old(Tables()), input, tier, failure, existing)
    {
      runs := runs + [input];
      var i: nat;
      match failure
      case None =>
        if existing.Some? {
          i := existing.value;
          logs := logs[i := logs[i].(status := Executed)];
        } else {
          i := WriteLog(input, Executed, tier, None);
        }
        response := Done(i);
      case Some(message) =>
        if existing.Some? {
          i := existing.value;
          logs := logs[i := logs[i].(status := Rejected, reason := Some(DomainFailure(message)))];
        } else {
          i := WriteLog(input, Rejected, tier, Some(DomainFailure(message)));
        }
        response := Turned(i, Some(DomainFailure(message)));
    }

    method Reject(input: Input, tier: Tier, reason: Reason) returns (response: Response)
      modifies this`logs
      ensures Tables() == Write(old(Tables()), input, Rejected, tier, Some(reason))
      ensures response == Turned(|old(logs)|, Some(reason))
    {
      var i := WriteLog(input, Rejected, tier, Some(reason));
      response := Turned(i, Some(reason));
    }

    method SubmitAction(world: World, input: Input, failure: Option<string>, now: int) returns (response: Response)
      modifies this
      ensures (Tables(), response) == Submit(registry, world, old(Tables()), input, failure, now)
    {
      var existing := FindLog(logs, input.key);
      if existing.Some? {
        return Recorded(Db(logs, approvals, runs), existing.value);
      }
      if input.actionKey !in registry {
        response := Reject(input, Low, UnknownAction);
        return;
      }
      var definition := registry[input.actionKey];
      if input.actionKey !in world.enabled {
        response := Reject(input, definition.tier, NotEnabled);
        return;
      }
      if (input.user, input.workspace) !in world.members {
        response := Reject(input, definition.tier, NotMember);
        return;
      }
      if input.origin.Agent? {
        var refusal := Broker.Refusal(world.clients, world.consents, input.user, input.origin.client, definition.requiredScopes);
        if refusal.Some? {
          response := Reject(input, definition.tier, NoConsent(refusal.value));
          return;
        }
      }
      if (input.actionKey, input.params) !in world.valid {
        response := Reject(input, definition.tier, InvalidParams);
        return;
      }
      if definition.tier == Low {
        response := ExecuteAction(input, definition.tier, failure, None);
        return;
      }
      var log := WriteLog(input, PendingApproval, definition.tier, None);
      approvals := approvals + [Approval(log, definition.tier, definition.tier == Critical, Open, now + APPROVAL_TTL_MS, None)];
      response := Waiting(log, Some(|approvals| - 1));
    }

    method ResolveApproval(a: nat, approve: bool, failure: Option<string>, now: int) returns (r: Result<Response, Error>)
      requires LogsExist(Tables())
      modifies this
      ensures (Tables(), r) == Resolve(registry, old(Tables()), a, approve, failure, now)
    {
      if a >= |approvals| {
        return Err(NoApproval);
      }
      var approval := approvals[a];
      if approval.status != Open {
        return Err(AlreadyResolved);
      }
      if approval.expiresAt < now {
        approvals := approvals[a := approval.(status := Lapsed)];
        return Err(ApprovalExpired);
      }
      var log := logs[approval.log];
      if log.input.actionKey !in registry {
        return Err(ActionGone);
      }
      if !approve {
        approvals := approvals[a := approval.(status := Refused, resolvedAt := Some(now))];
        logs := logs[approval.log := log.(status := Denied)];
        return Ok(Turned(approval.log, Some(DeniedByUser)));
      }
      approvals := approvals[a := approval.(status := Approved, resolvedAt := Some(now))];
      var response := ExecuteAction(log.input, registry[log.input.actionKey].tier, failure, Some(approval.log));
      r := Ok(response);
    }
  }

  // ---------------------------------------------------------------- one submission

  /** All a request must satisfy to get past the checks, in no particular order. */
  predicate Admissible(registry: Registry, world: World, input: Input) {
    && input.actionKey in registry && input.actionKey in world.enabled
    && (input.user, input.workspace) in world.members
    && (input.actionKey, input.params) in world.valid
    && (input.origin.Agent? ==> Consented(world, input.user, input.origin.client, registry[input.actionKey].requiredScopes))
  }

  /** An active agent whose user's unrevoked consent covers every scope; an action without scopes needs no consent. */
  predicate Consented(world: World, user: nat, client: Option<string>, required: seq<string>) {
    && Broker.ActiveAgent(world.clients, client)
    && (required == []
        || (Broker.Grantee(user, client.value) in world.consents
            && !world.consents[Broker.Grantee(user, client.value)].revoked
            && Broker.Covered(required, world.consents[Broker.Grantee(user, client.value)].scopes)))
  }

  lemma NoObjectionIfAdmissible(registry: Registry, world: World, input: Input)
    ensures Objection(registry, world, input).None? <==> Admissible(registry, world, input)
  {
    if input.actionKey in registry && input.origin.Agent? {
      Broker.AllowedExactly(world.clients, world.consents, input.user, input.origin.client, registry[input.actionKey].requiredScopes);
    }
  }

  /** A new request runs at once if it is admissible and of low risk, waits for an approval if it is admissible and not, and is turned down otherwise. */
  lemma PassesExactly(registry: Registry, world: World, db: Db, input: Input, failure: Option<string>, now: int)
    requires FindLog(db.logs, input.key).None?
    ensures var after := Submit(registry, world, db, input, failure, now).0;
            && (after.runs != db.runs <==> Admissible(registry, world, input) && registry[input.actionKey].tier.Low?)
            && (after.approvals != db.approvals <==> Admissible(registry, world, input) && !registry[input.actionKey].tier.Low?)
            && |after.logs| == |db.logs| + 1
  {
    NoObjectionIfAdmissible(registry, world, input);
  }

  /** The answer to a new request is what the same key will be answered with from the log. */
  lemma AnswerIsRecorded(registry: Registry, world: World, db: Db, input: Input, failure: Option<string>, now: int)
    requires FindLog(db.logs, input.key).None?
    ensures var (after, response) := Submit(registry, world, db, input, failure, now);
            && |after.logs| == |db.logs| + 1 && after.logs[|db.logs|].input == input
            && response == Recorded(after, |db.logs|)
            && (response.Done? ==> after.runs == db.runs + [input])
  {
  }

  // ---------------------------------------------------------------- runs of calls

  datatype Call =
    | SubmitCall(world: World, input: Input, failure: Option<string>, now: int)
    | ResolveCall(approval: nat, approve: bool, failure: Option<string>, now: int)

  function Perform(registry: Registry, db: Db, call: Call): Db
    requires LogsExist(db)
  {
    match call
    case SubmitCall(world, input, failure, now) => Submit(registry, world, db, input, failure, now).0
    case ResolveCall(a, approve, failure, now) => Resolve(registry, db, a, approve, failure, now).0
  }

  predicate UniqueKeys(logs: seq<LogEntry>) {
    forall i, j | 0 <= i < j < |logs| :: logs[i].input.key != logs[j].input.key
  }

  predicate OneApprovalEach(approvals: seq<Approval>) {
    forall a, b | 0 <= a < b < |approvals| :: approvals[a].log != approvals[b].log
  }

  predicate RunOnce(runs: seq<Input>) {
    forall j, k | 0 <= j < k < |runs| :: runs[j].key != runs[k].key
  }

  /** An approval and the log entry it decides agree, and a positive decision came in time. */
  predicate ApprovalOk(db: Db, a: nat)
    requires a < |db.approvals| && db.approvals[a].log < |db.logs|
  {
    var approval, log := db.approvals[a], db.logs[db.approvals[a].log];
    && !approval.tier.Low? && approval.tier == log.tier
    && match approval.status
       case Open => log.status == PendingApproval && log.reason == None
       case Lapsed => log.status == PendingApproval && log.reason == None
       case Refused => log.status == Denied
       case Approved =>
         (log.status == Executed || log.status == Rejected) && approval.resolvedAt.Some? && approval.resolvedAt.value <= approval.expiresAt
  }

  /** Entry `i` is the finished record of an action that was allowed to run. */
  predicate Vouches(db: Db, i: nat, input: Input)
    requires i < |db.logs|
  {
    && db.logs[i].input == input && (db.logs[i].status == Executed || db.logs[i].status == Rejected)
    && (db.logs[i].tier.Low? || ApprovedInTime(db, i))
  }

  predicate ApprovedInTime(db: Db, i: nat) {
    exists a | 0 <= a < |db.approvals| ::
      && db.approvals[a].log == i && db.approvals[a].status == Approved
      && db.approvals[a].resolvedAt.Some? && db.approvals[a].resolvedAt.value <= db.approvals[a].expiresAt
  }

  predicate Vouched(db: Db, input: Input) {
    exists i | 0 <= i < |db.logs| :: Vouches(db, i, input)
  }

  predicate Tiered(registry: Registry, logs: seq<LogEntry>) {
    forall i | 0 <= i < |logs| :: logs[i].tier == TierOf(registry, logs[i].input)
  }

  ghost predicate Inv(registry: Registry, db: Db) {
    && UniqueKeys(db.logs) && Tiered(registry, db.logs)
    && LogsExist(db) && OneApprovalEach(db.approvals)
    && (forall a | 0 <= a < |db.approvals| :: ApprovalOk(db, a))
    && RunOnce(db.runs) && (forall k | 0 <= k < |db.runs| :: Vouched(db, db.runs[k]))
  }

  // ---------------------------------------------------------------- the invariant is kept

  lemma VouchedGrows(db: Db, after: Db, input: Input)
    requires Vouched(db, input) && db.logs <= after.logs && db.approvals <= after.approvals
    ensures Vouched(after, input)
  {
    var i :| 0 <= i < |db.logs| && Vouches(db, i, input);
    if !db.logs[i].tier.Low? {
      var a :| 0 <= a < |db.approvals| && db.approvals[a].log == i && db.approvals[a].status == Approved
               && db.approvals[a].resolvedAt.Some? && db.approvals[a].resolvedAt.value <= db.approvals[a].expiresAt;
      assert after.approvals[a] == db.approvals[a];
      assert ApprovedInTime(after, i);
    }
    assert Vouches(after, i, input);
  }

  /** A run leaves a log entry under its key, so a new key has none. */
  lemma NewKeyNeverRan(registry: Registry, db: Db, key: string)
    requires Inv(registry, db) && FindLog(db.logs, key).None?
    ensures forall k | 0 <= k < |db.runs| :: db.runs[k].key != key
  {
    forall k | 0 <= k < |db.runs| ensures db.runs[k].key != key {
      assert Vouched(db, db.runs[k]);
      var i :| 0 <= i < |db.logs| && Vouches(db, i, db.runs[k]);
    }
  }

  lemma AppendedLog(registry: Registry, db: Db, after: Db, entry: LogEntry)
    requires Inv(registry, db) && FindLog(db.logs, entry.input.key).None? && entry.tier == TierOf(registry, entry.input)
    requires after.logs == db.logs + [entry]
    ensures UniqueKeys(after.logs) && Tiered(registry, after.logs)
  {
  }

  lemma KeptApprovals(registry: Registry, db: Db, after: Db)
    requires Inv(registry, db) && db.logs <= after.logs && db.approvals <= after.approvals
    ensures forall a | 0 <= a < |db.approvals| :: after.approvals[a].log < |after.logs| && ApprovalOk(after, a)
  {
    forall a | 0 <= a < |db.approvals| ensures after.approvals[a].log < |after.logs| && ApprovalOk(after, a) {
      assert ApprovalOk(db, a);
    }
  }

  lemma RejectionKeepsInv(registry: Registry, db: Db, input: Input, reason: Option<Reason>)
    requires Inv(registry, db) && FindLog(db.logs, input.key).None?
    ensures Inv(registry, Write(db, input, Rejected, TierOf(registry, input), reason))
  {
    var after := Write(db, input, Rejected, TierOf(registry, input), reason);
    AppendedLog(registry, db, after, LogEntry(input, Rejected, TierOf(registry, input), reason));
    KeptApprovals(registry, db, after);
    forall k | 0 <= k < |after.runs| ensures Vouched(after, after.runs[k]) {
      VouchedGrows(db, after, db.runs[k]);
    }
  }

  lemma DirectRunKeepsInv(registry: Registry, db: Db, input: Input, failure: Option<string>)
    requires Inv(registry, db) && FindLog(db.logs, input.key).None? && TierOf(registry, input).Low?
    ensures Inv(registry, Execute(db, input, Low, failure, None).0)
  {
    var after := Execute(db, input, Low, failure, None).0;
    var n := |db.logs|;
    AppendedLog(registry, db, after, after.logs[n]);
    KeptApprovals(registry, db, after);
    NewKeyNeverRan(registry, db, input.key);
    assert Vouches(after, n, input);
    forall k | 0 <= k < |after.runs| ensures Vouched(after, after.runs[k]) {
      if k < |db.runs| {
        VouchedGrows(db, after, db.runs[k]);
      }
    }
  }

  lemma WaitingKeepsInv(registry: Registry, db: Db, input: Input, now: int)
    requires Inv(registry, db) && FindLog(db.logs, input.key).None? && !TierOf(registry, input).Low?
    ensures var tier := TierOf(registry, input);
            var approval := Approval(|db.logs|, tier, tier.Critical?, Open, now + APPROVAL_TTL_MS, None);
            Inv(registry, Write(db, input, PendingApproval, tier, None).(approvals := db.approvals + [approval]))
  {
    var tier := TierOf(registry, input);
    var approval := Approval(|db.logs|, tier, tier.Critical?, Open, now + APPROVAL_TTL_MS, None);
    var after := Write(db, input, PendingApproval, tier, None).(approvals := db.approvals + [approval]);
    AppendedLog(registry, db, after, LogEntry(input, PendingApproval, tier, None));
    KeptApprovals(registry, db, after);
    forall k | 0 <= k < |after.runs| ensures Vouched(after, after.runs[k]) {
      VouchedGrows(db, after, db.runs[k]);
    }
  }

  lemma SubmitKeepsInv(registry: Registry, world: World, db: Db, input: Input, failure: Option<string>, now: int)
    requires Inv(registry, db)
    ensures Inv(registry, Submit(registry, world, db, input, failure, now).0)
  {
    if FindLog(db.logs, input.key).None? {
      var objection := Objection(registry, world, input);
      if objection.Some? {
        RejectionKeepsInv(registry, db, input, objection);
      } else if TierOf(registry, input).Low? {
        DirectRunKeepsInv(registry, db, input, failure);
      } else {
        WaitingKeepsInv(registry, db, input, now);
      }
    }
  }

  /** Approval `a` and its entry are decided together; nothing else changes. */
  predicate Decides(db: Db, after: Db, a: nat) {
    && LogsExist(db) && a < |db.approvals| && (db.approvals[a].status == Open || db.approvals[a].status == Lapsed)
    && |after.approvals| == |db.approvals| && |after.logs| == |db.logs|
    && (forall b | 0 <= b < |db.approvals| && b != a :: after.approvals[b] == db.approvals[b])
    && after.approvals[a] == db.approvals[a].(status := after.approvals[a].status, resolvedAt := after.approvals[a].resolvedAt)
    && (forall i | 0 <= i < |db.logs| && i != db.approvals[a].log :: after.logs[i] == db.logs[i])
    && var i := db.approvals[a].log;
    && after.logs[i] == db.logs[i].(status := after.logs[i].status, reason := after.logs[i].reason)
    && ApprovalOk(after, a)
  }

  lemma OthersStayVouched(registry: Registry, db: Db, after: Db, a: nat, input: Input)
    requires Inv(registry, db) && Decides(db, after, a) && Vouched(db, input)
    ensures Vouched(after, input) && input.key != db.logs[db.approvals[a].log].input.key
  {
    var i :| 0 <= i < |db.logs| && Vouches(db, i, input);
    assert ApprovalOk(db, a);
    assert i != db.approvals[a].log;
    if !db.logs[i].tier.Low? {
      var b :| 0 <= b < |db.approvals| && db.approvals[b].log == i && db.approvals[b].status == Approved
               && db.approvals[b].resolvedAt.Some? && db.approvals[b].resolvedAt.value <= db.approvals[b].expiresAt;
      assert after.approvals[b] == db.approvals[b];
      assert ApprovedInTime(after, i);
    }
    assert Vouches(after, i, input);
  }

  lemma DecisionKeepsTables(registry: Registry, db: Db, after: Db, a: nat)
    requires Inv(registry, db) && Decides(db, after, a)
    ensures UniqueKeys(after.logs) && Tiered(registry, after.logs) && LogsExist(after) && OneApprovalEach(after.approvals)
    ensures forall b | 0 <= b < |after.approvals| :: ApprovalOk(after, b)
  {
    forall b | 0 <= b < |after.approvals| ensures after.approvals[b].log < |after.logs| && ApprovalOk(after, b) {
      assert ApprovalOk(db, b);
    }
  }

  /** A decision without a run: refused, or found to have lapsed. */
  lemma QuietDecisionKeepsInv(registry: Registry, db: Db, after: Db, a: nat)
    requires Inv(registry, db) && Decides(db, after, a) && after.runs == db.runs
    ensures Inv(registry, after)
  {
    DecisionKeepsTables(registry, db, after, a);
    forall k | 0 <= k < |after.runs| ensures Vouched(after, after.runs[k]) {
      OthersStayVouched(registry, db, after, a, db.runs[k]);
    }
  }

  lemma ApprovedRunKeepsInv(registry: Registry, db: Db, after: Db, a: nat)
    requires Inv(registry, db) && Decides(db, after, a) && after.approvals[a].status == Approved
    requires after.runs == db.runs + [db.logs[db.approvals[a].log].input]
    ensures Inv(registry, after)
  {
    DecisionKeepsTables(registry, db, after, a);
    var i := db.approvals[a].log;
    assert ApprovedInTime(after, i);
    assert Vouches(after, i, db.logs[i].input);
    forall k | 0 <= k < |db.runs| ensures Vouched(after, after.runs[k]) && after.runs[k].key != db.logs[i].input.key {
      OthersStayVouched(registry, db, after, a, db.runs[k]);
    }
  }

  lemma ResolveKeepsInv(registry: Registry, db: Db, a: nat, approve: bool, failure: Option<string>, now: int)
    requires Inv(registry, db)
    ensures Inv(registry, Resolve(registry, db, a, approve, failure, now).0)
  {
    var after := Resolve(registry, db, a, approve, failure, now).0;
    if after != db {
      assert ApprovalOk(db, a);
      assert Decides(db, after, a);
      if after.runs == db.runs {
        QuietDecisionKeepsInv(registry, db, after, a);
      } else {
        ApprovedRunKeepsInv(registry, db, after, a);
      }
    }
  }

  lemma PerformKeepsInv(registry: Registry, db: Db, call: Call)
    requires Inv(registry, db)
    ensures Inv(registry, Perform(registry, db, call))
  {
    match call
    case SubmitCall(world, input, failure, now) => SubmitKeepsInv(registry, world, db, input, failure, now);
    case ResolveCall(a, approve, failure, now) => ResolveKeepsInv(registry, db, a, approve, failure, now);
  }

  /** Every run of submissions and decisions keeps the invariant, whatever the tables it is checked against do meanwhile. */
  function Run(registry: Registry, calls: seq<Call>): (db: Db)
    ensures Inv(registry, db)
  {
    if calls == [] then Db([], [], [])
    else
      var before := Run(registry, calls[..|calls| - 1]);
      PerformKeepsInv(registry, before, calls[|calls| - 1]);
      Perform(registry, before, calls[|calls| - 1])
  }

  /** Over every run, a domain action runs at most once per key. */
  lemma AtMostOneRunPerKey(registry: Registry, calls: seq<Call>, j: nat, k: nat)
    requires j < k < |Run(registry, calls).runs|
    ensures Run(registry, calls).runs[j].key != Run(registry, calls).runs[k].key
  {
    var db := Run(registry, calls);
    assert RunOnce(db.runs);
  }

  /** Over every run, whatever ran has its own finished log entry, and if it is not of low risk an approval given before it expired. */
  lemma RanOnlyIfApproved(registry: Registry, calls: seq<Call>, k: nat) returns (i: nat)
    requires k < |Run(registry, calls).runs|
    ensures var db := Run(registry, calls);
            && i < |db.logs| && db.logs[i].input == db.runs[k]
            && (db.logs[i].status == Executed || db.logs[i].status == Rejected)
            && (TierOf(registry, db.runs[k]).Low? || ApprovedInTime(db, i))
  {
    var db := Run(registry, calls);
    assert Vouched(db, db.runs[k]);
    i :| 0 <= i < |db.logs| && Vouches(db, i, db.runs[k]);
  }

  /** A decision's answer, too, is what the log keeps, but for the reason of a denial, which is not logged. */
  lemma DecisionIsRecorded(registry: Registry, db: Db, a: nat, approve: bool, failure: Option<string>, now: int)
    requires Inv(registry, db) && Resolve(registry, db, a, approve, failure, now).1.Ok?
    ensures var (after, r) := Resolve(registry, db, a, approve, failure, now);
            && a < |db.approvals| && db.approvals[a].status == Open && now <= db.approvals[a].expiresAt
            && var i := db.approvals[a].log;
            && i < |after.logs| && Recorded(after, i) == (if approve then r.value else Turned(i, None))
            && (approve ==> after.runs == db.runs + [db.logs[i].input] && (r.value.Done? <==> failure.None?))
            && (!approve ==> after.runs == db.runs && r.value == Turned(i, Some(DeniedByUser)))
  {
    assert ApprovalOk(db, a);
  }

  // ---------------------------------------------------------------- nothing runs that was not admitted

  predicate AdmittedBy(registry: Registry, calls: seq<Call>, input: Input) {
    exists n | 0 <= n < |calls| :: calls[n].SubmitCall? && calls[n].input == input && Admissible(registry, calls[n].world, input)
  }

  predicate AllAdmitted(registry: Registry, calls: seq<Call>, db: Db)
    requires LogsExist(db)
  {
    && (forall k | 0 <= k < |db.runs| :: AdmittedBy(registry, calls, db.runs[k]))
    && (forall a | 0 <= a < |db.approvals| :: AdmittedBy(registry, calls, db.logs[db.approvals[a].log].input))
  }

  lemma AdmittedStays(registry: Registry, calls: seq<Call>, more: Call, input: Input)
    requires AdmittedBy(registry, calls, input)
    ensures AdmittedBy(registry, calls + [more], input)
  {
    var n :| 0 <= n < |calls| && calls[n].SubmitCall? && calls[n].input == input && Admissible(registry, calls[n].world, input);
    assert (calls + [more])[n] == calls[n];
  }

  /** A call adds to the runs and approvals only its own input, admitted now, or that of an approval that was there. */
  lemma PerformAdmits(registry: Registry, db: Db, call: Call)
    requires Inv(registry, db)
    ensures var after := Perform(registry, db, call);
            && |after.logs| >= |db.logs| && (forall i | 0 <= i < |db.logs| :: after.logs[i].input == db.logs[i].input)
            && (after.runs == db.runs
                || (call.SubmitCall? && Admissible(registry, call.world, call.input) && after.runs == db.runs + [call.input])
                || (exists a | 0 <= a < |db.approvals| :: after.runs == db.runs + [db.logs[db.approvals[a].log].input]))
            && |db.approvals| <= |after.approvals|
            && (forall a | 0 <= a < |db.approvals| :: after.approvals[a].log == db.approvals[a].log)
            && (|after.approvals| == |db.approvals|
                || (call.SubmitCall? && Admissible(registry, call.world, call.input)
                    && |after.approvals| == |db.approvals| + 1 && after.approvals[|db.approvals|].log == |db.logs|
                    && |after.logs| == |db.logs| + 1 && after.logs[|db.logs|].input == call.input))
  {
    if call.SubmitCall? {
      NoObjectionIfAdmissible(registry, call.world, call.input);
    }
  }

  lemma {:induction false} EverythingWasAdmitted(registry: Registry, calls: seq<Call>)
    ensures AllAdmitted(registry, calls, Run(registry, calls))
  {
    if calls != [] {
      var before, call := calls[..|calls| - 1], calls[|calls| - 1];
      EverythingWasAdmitted(registry, before);
      assert before + [call] == calls;
      AdmissionStep(registry, before, call, Run(registry, before), Run(registry, calls));
    }
  }

  lemma AdmissionStep(registry: Registry, before: seq<Call>, call: Call, db: Db, after: Db)
    requires Inv(registry, db) && Inv(registry, after) && after == Perform(registry, db, call) && AllAdmitted(registry, before, db)
    ensures AllAdmitted(registry, before + [call], after)
  {
    PerformAdmits(registry, db, call);
    assert (before + [call])[|before|] == call;
    forall a | 0 <= a < |after.approvals| ensures AdmittedBy(registry, before + [call], after.logs[after.approvals[a].log].input) {
      if a < |db.approvals| {
        AdmittedStays(registry, before, call, db.logs[db.approvals[a].log].input);
      }
    }
    forall k | 0 <= k < |after.runs| ensures AdmittedBy(registry, before + [call], after.runs[k]) {
      if k < |db.runs| {
        AdmittedStays(registry, before, call, db.runs[k]);
      } else if !(call.SubmitCall? && after.runs == db.runs + [call.input]) {
        var a :| 0 <= a < |db.approvals| && after.runs == db.runs + [db.logs[db.approvals[a].log].input];
        AdmittedStays(registry, before, call, db.logs[db.approvals[a].log].input);
      }
    }
  }

  /**
   * Over every run: whatever a domain service was called with had been submitted and was admissible
   * then; an agent's, in particular, was covered by an unrevoked consent.
   */
  lemma RunsWereAdmitted(registry: Registry, calls: seq<Call>, k: nat)
    requires k < |Run(registry, calls).runs|
    ensures AdmittedBy(registry, calls, Run(registry, calls).runs[k])
  {
    EverythingWasAdmitted(registry, calls);
  }

  // ---------------------------------------------------------------- what is recorded stays

  /** A finished entry is never touched again; a waiting one changes only its status and reason. */
  predicate EntryStays(was: LogEntry, now: LogEntry) {
    && now == was.(status := now.status, reason := now.reason)
    && (was.status != PendingApproval ==> now == was)
  }

  lemma {:induction false} EntriesStay(registry: Registry, calls: seq<Call>, n: nat, i: nat)
    requires n <= |calls| && i < |Run(registry, calls[..n]).logs|
    ensures i < |Run(registry, calls).logs| && EntryStays(Run(registry, calls[..n]).logs[i], Run(registry, calls).logs[i])
  {
    if n == |calls| {
      assert calls[..n] == calls;
    } else {
      var before := calls[..|calls| - 1];
      assert before[..n] == calls[..n];
      EntriesStay(registry, before, n, i);
      PerformKeepsEntry(registry, Run(registry, before), calls[|calls| - 1], i);
    }
  }

  lemma PerformKeepsEntry(registry: Registry, db: Db, call: Call, i: nat)
    requires Inv(registry, db) && i < |db.logs|
    ensures i < |Perform(registry, db, call).logs| && EntryStays(db.logs[i], Perform(registry, db, call).logs[i])
  {
    if call.ResolveCall? && call.approval < |db.approvals| {
      assert ApprovalOk(db, call.approval);
    }
  }

  /** Approvals keep their entry, and one that is no longer open is never touched again. */
  predicate ApprovalStays(was: Approval, now: Approval) {
    now.log == was.log && (was.status != Open ==> now == was)
  }

  lemma PerformKeepsApproval(registry: Registry, db: Db, call: Call, a: nat)
    requires Inv(registry, db) && a < |db.approvals|
    ensures a < |Perform(registry, db, call).approvals| && ApprovalStays(db.approvals[a], Perform(registry, db, call).approvals[a])
  {
  }

  lemma {:induction false} ApprovalsStay(registry: Registry, calls: seq<Call>, n: nat, a: nat)
    requires n <= |calls| && a < |Run(registry, calls[..n]).approvals|
    ensures a < |Run(registry, calls).approvals|
    ensures ApprovalStays(Run(registry, calls[..n]).approvals[a], Run(registry, calls).approvals[a])
  {
    if n == |calls| {
      assert calls[..n] == calls;
    } else {
      var before := calls[..|calls| - 1];
      assert before[..n] == calls[..n];
      ApprovalsStay(registry, before, n, a);
      PerformKeepsApproval(registry, Run(registry, before), calls[|calls| - 1], a);
    }
  }

  /** What the first submission of a call's key is answered, and where it is on record afterwards. */
  lemma SubmissionIsOnRecord(registry: Registry, world: World, db: Db, input: Input, failure: Option<string>, now: int)
    requires Inv(registry, db)
    ensures var (after, first) := Submit(registry, world, db, input, failure, now);
            && first.log < |after.logs| && after.logs[first.log].input.key == input.key && first == Recorded(after, first.log)
  {
    if FindLog(db.logs, input.key).None? {
      AnswerIsRecorded(registry, world, db, input, failure, now);
    }
  }

  lemma UniqueKey(logs: seq<LogEntry>, i: nat, key: string)
    requires UniqueKeys(logs) && i < |logs| && logs[i].input.key == key
    ensures FindLog(logs, key) == Some(i)
  {
  }

  lemma StepWaitingHasApproval(registry: Registry, db: Db, call: Call, i: nat)
    requires Inv(registry, db) && i < |Perform(registry, db, call).logs| && Perform(registry, db, call).logs[i].status == PendingApproval
    requires i < |db.logs| && db.logs[i].status == PendingApproval ==> FindApproval(db.approvals, i).Some?
    ensures FindApproval(Perform(registry, db, call).approvals, i).Some?
  {
    var after := Perform(registry, db, call);
    if i < |db.logs| {
      PerformKeepsEntry(registry, db, call, i);
      var a := FindApproval(db.approvals, i).value;
      PerformKeepsApproval(registry, db, call, a);
      assert after.approvals[a].log == i;
    } else {
      assert after.approvals[|db.approvals|].log == i;
    }
  }

  lemma {:induction false} WaitingHasApproval(registry: Registry, calls: seq<Call>, i: nat)
    requires i < |Run(registry, calls).logs| && Run(registry, calls).logs[i].status == PendingApproval
    ensures FindApproval(Run(registry, calls).approvals, i).Some?
  {
    var before := calls[..|calls| - 1];
    var db := Run(registry, before);
    if i < |db.logs| && db.logs[i].status == PendingApproval {
      WaitingHasApproval(registry, before, i);
    }
    StepWaitingHasApproval(registry, db, calls[|calls| - 1], i);
  }

  /** While an entry waits, it waits for the same approval. */
  lemma WaitingStays(registry: Registry, calls: seq<Call>, n: nat, i: nat)
    requires n <= |calls| && i < |Run(registry, calls[..n]).logs| && i < |Run(registry, calls).logs|
    requires Run(registry, calls[..n]).logs[i].status == PendingApproval && Run(registry, calls).logs[i].status == PendingApproval
    ensures Recorded(Run(registry, calls), i) == Recorded(Run(registry, calls[..n]), i)
  {
    WaitingHasApproval(registry, calls[..n], i);
    var a := FindApproval(Run(registry, calls[..n]).approvals, i).value;
    ApprovalsStay(registry, calls, n, a);
    OnlyApproval(Run(registry, calls).approvals, a);
  }

  lemma OnlyApproval(approvals: seq<Approval>, a: nat)
    requires OneApprovalEach(approvals) && a < |approvals|
    ensures FindApproval(approvals, approvals[a].log) == Some(a)
  {
  }

  /** What is on record is answered the same ever after, unless it was to wait and has been decided since. */
  lemma RecordLasts(registry: Registry, calls: seq<Call>, n: nat, i: nat)
    requires n <= |calls| && i < |Run(registry, calls[..n]).logs|
    ensures i < |Run(registry, calls).logs| && Run(registry, calls).logs[i].input.key == Run(registry, calls[..n]).logs[i].input.key
    ensures Recorded(Run(registry, calls), i) == Recorded(Run(registry, calls[..n]), i)
         || (Recorded(Run(registry, calls[..n]), i).Waiting? && Run(registry, calls).logs[i].status != PendingApproval)
  {
    EntriesStay(registry, calls, n, i);
    if Run(registry, calls[..n]).logs[i].status == PendingApproval && Run(registry, calls).logs[i].status == PendingApproval {
      WaitingStays(registry, calls, n, i);
    }
  }

  lemma FirstIsOnRecord(registry: Registry, calls: seq<Call>, n: nat)
    requires n < |calls| && calls[n].SubmitCall?
    ensures var call, recorded := calls[n], Run(registry, calls[..n + 1]);
            var first := Submit(registry, call.world, Run(registry, calls[..n]), call.input, call.failure, call.now).1;
            && first.log < |recorded.logs| && recorded.logs[first.log].input.key == call.input.key
            && first == Recorded(recorded, first.log)
  {
    var call := calls[n];
    assert calls[..n + 1][..n] == calls[..n];
    SubmissionIsOnRecord(registry, call.world, Run(registry, calls[..n]), call.input, call.failure, call.now);
  }

  /**
   * A key submitted again, any number of calls later: nothing runs and nothing is written, and the
   * answer names the entry of the first submission. It is the first answer again, unless that was
   * to wait and the approval has been decided since.
   */
  lemma SameKeySameAnswer(registry: Registry, calls: seq<Call>, n: nat, world: World, again: Input, failure: Option<string>, now: int)
    requires n < |calls| && calls[n].SubmitCall? && again.key == calls[n].input.key
    ensures var db := Run(registry, calls);
            var first := Submit(registry, calls[n].world, Run(registry, calls[..n]), calls[n].input, calls[n].failure, calls[n].now).1;
            var (after, answer) := Submit(registry, world, db, again, failure, now);
            && after == db && answer.log == first.log && first.log < |db.logs|
            && (answer == first || (first.Waiting? && db.logs[first.log].status != PendingApproval))
  {
    FirstIsOnRecord(registry, calls, n);
    var first := Submit(registry, calls[n].world, Run(registry, calls[..n]), calls[n].input, calls[n].failure, calls[n].now).1;
    RecordLasts(registry, calls, n + 1, first.log);
    UniqueKey(Run(registry, calls).logs, first.log, again.key);
  }

  lemma LapsedIsFinal(registry: Registry, db: Db, a: nat, approve: bool, failure: Option<string>, now: int)
    requires Inv(registry, db) && a < |db.approvals| && db.approvals[a].status == Lapsed
    ensures Resolve(registry, db, a, approve, failure, now) == (db, Err(AlreadyResolved))
    ensures db.logs[db.approvals[a].log].status == PendingApproval && Recorded(db, db.approvals[a].log).Waiting?
  {
    assert ApprovalOk(db, a);
  }

  /** An approval that lapsed stays as it is through every later call: it cannot be decided, and its request waits for good. */
  lemma LapsedStaysWaiting(registry: Registry, calls: seq<Call>, n: nat, a: nat, approve: bool, failure: Option<string>, now: int)
    requires n <= |calls| && a < |Run(registry, calls[..n]).approvals| && Run(registry, calls[..n]).approvals[a].status == Lapsed
    ensures var was, db := Run(registry, calls[..n]).approvals[a], Run(registry, calls);
            && a < |db.approvals| && db.approvals[a] == was
            && Resolve(registry, db, a, approve, failure, now) == (db, Err(AlreadyResolved))
            && was.log < |db.logs| && db.logs[was.log].status == PendingApproval && Recorded(db, was.log).Waiting?
  {
    ApprovalsStay(registry, calls, n, a);
    LapsedIsFinal(registry, Run(registry, calls), a, approve, failure, now);
  }

  // ---------------------------------------------------------------- outcomes, field by field

  /** Which check turned a request down: each of them only if all before it passed. */
  lemma ReasonExactly(registry: Registry, world: World, input: Input)
    ensures var reason := Objection(registry, world, input);
            && (reason == Some(UnknownAction) <==> input.actionKey !in registry)
            && (reason == Some(NotEnabled) <==> input.actionKey in registry && input.actionKey !in world.enabled)
            && (reason == Some(NotMember) <==>
                  input.actionKey in registry && input.actionKey in world.enabled && (input.user, input.workspace) !in world.members)
            && (reason.Some? && reason.value.NoConsent? <==>
                  && input.actionKey in registry && input.actionKey in world.enabled && (input.user, input.workspace) in world.members
                  && input.origin.Agent? && !Consented(world, input.user, input.origin.client, registry[input.actionKey].requiredScopes))
            && (reason == Some(InvalidParams) <==>
                  && input.actionKey in registry && input.actionKey in world.enabled && (input.user, input.workspace) in world.members
                  && (input.origin.Agent? ==> Consented(world, input.user, input.origin.client, registry[input.actionKey].requiredScopes))
                  && (input.actionKey, input.params) !in world.valid)
  {
    if input.actionKey in registry && input.origin.Agent? {
      Broker.AllowedExactly(world.clients, world.consents, input.user, input.origin.client, registry[input.actionKey].requiredScopes);
    }
  }

  /**
   * A request under a new key: turned down and logged unless it is admissible; else run at once if
   * its action is of low risk, and answered as done exactly when the domain service did not fail;
   * else left to wait two days for an approval.
   */
  lemma NewRequestExactly(registry: Registry, world: World, db: Db, input: Input, failure: Option<string>, now: int)
    requires forall i | 0 <= i < |db.logs| :: db.logs[i].input.key != input.key
    ensures var (after, response) := Submit(registry, world, db, input, failure, now);
            var i := |db.logs|;
            if !Admissible(registry, world, input) then
              && Objection(registry, world, input).Some? && response == Turned(i, Objection(registry, world, input))
              && after.logs == db.logs + [LogEntry(input, Rejected, if input.actionKey in registry then registry[input.actionKey].tier else Low,
                                                   response.reason)]
              && after.approvals == db.approvals && after.runs == db.runs
            else if registry[input.actionKey].tier == Low then
              && response == (if failure.None? then Done(i) else Turned(i, Some(DomainFailure(failure.value))))
              && after.logs == db.logs + [if failure.None? then LogEntry(input, Executed, Low, None)
                                          else LogEntry(input, Rejected, Low, Some(DomainFailure(failure.value)))]
              && after.approvals == db.approvals && after.runs == db.runs + [input]
            else
              var tier := registry[input.actionKey].tier;
              && response == Waiting(i, Some(|db.approvals|))
              && after.logs == db.logs + [LogEntry(input, PendingApproval, tier, None)]
              && after.approvals == db.approvals + [Approval(i, tier, tier == Critical, Open, now + 172_800_000, None)]
              && after.runs == db.runs
  {
    NoObjectionIfAdmissible(registry, world, input);
  }

  /**
   * A decision: refused if there is no such approval, it is not open or its time is over, which is
   * then recorded. A denial denies the entry; an approval runs the action, and the entry is executed
   * exactly when the domain service did not fail. Nothing else changes.
   */
  lemma DecisionExactly(registry: Registry, db: Db, a: nat, approve: bool, failure: Option<string>, now: int)
    requires Inv(registry, db)
    ensures var (after, r) := Resolve(registry, db, a, approve, failure, now);
            if a >= |db.approvals| then r == Err(NoApproval) && after == db
            else if db.approvals[a].status != Open then r == Err(AlreadyResolved) && after == db
            else if now > db.approvals[a].expiresAt then
              && r == Err(ApprovalExpired) && after.logs == db.logs && after.runs == db.runs
              && after.approvals == db.approvals[a := db.approvals[a].(status := Lapsed)]
            else
              var i := db.approvals[a].log;
              if db.logs[i].input.actionKey !in registry then r == Err(ActionGone) && after == db
              else
                && after.approvals
                   == db.approvals[a := db.approvals[a].(status := if approve then Approved else Refused, resolvedAt := Some(now))]
                && after.runs == (if approve then db.runs + [db.logs[i].input] else db.runs)
                && (!approve ==> r == Ok(Turned(i, Some(DeniedByUser))) && after.logs == db.logs[i := db.logs[i].(status := Denied)])
                && (approve && failure.None? ==> r == Ok(Done(i)) && after.logs == db.logs[i := db.logs[i].(status := Executed)])
                && (approve && failure.Some? ==>
                      && r == Ok(Turned(i, Some(DomainFailure(failure.value))))
                      && after.logs == db.logs[i := db.logs[i].(status := Rejected, reason := Some(DomainFailure(failure.value)))])
  {
  }

  /** How each domain call went, in the order they ran: the failure the call that made it was given. */
  function Failures(registry: Registry, calls: seq<Call>): seq<Option<string>> {
    if calls == [] then []
    else
      var before := calls[..|calls| - 1];
      Failures(registry, before)
      + if |Run(registry, calls).runs| > |Run(registry, before).runs| then [calls[|calls| - 1].failure] else []
  }

  /** The entry of a domain call says how it went. */
  predicate Tells(entry: LogEntry, input: Input, failure: Option<string>) {
    && entry.input == input
    && (if failure.None? then entry.status == Executed
        else entry.status == Rejected && entry.reason == Some(DomainFailure(failure.value)))
  }

  predicate Told(db: Db, input: Input, failure: Option<string>) {
    exists i | 0 <= i < |db.logs| :: Tells(db.logs[i], input, failure)
  }

  predicate Ran(db: Db, input: Input) {
    exists k | 0 <= k < |db.runs| :: db.runs[k] == input
  }

  predicate SaysItRan(entry: LogEntry) {
    entry.status == Executed || (entry.status == Rejected && entry.reason.Some? && entry.reason.value.DomainFailure?)
  }

  ghost predicate OutcomesLogged(db: Db, failures: seq<Option<string>>) {
    && |failures| == |db.runs|
    && (forall k | 0 <= k < |db.runs| :: Told(db, db.runs[k], failures[k]))
    && (forall i | 0 <= i < |db.logs| && SaysItRan(db.logs[i]) :: Ran(db, db.logs[i].input))
  }

  lemma ToldStays(registry: Registry, db: Db, call: Call, input: Input, failure: Option<string>)
    requires Inv(registry, db) && Told(db, input, failure)
    ensures Told(Perform(registry, db, call), input, failure)
  {
    var i :| 0 <= i < |db.logs| && Tells(db.logs[i], input, failure);
    PerformKeepsEntry(registry, db, call, i);
  }

  /** A call runs at most one action, whose entry it finishes, and finishes no other entry as run. */
  lemma PerformTells(registry: Registry, db: Db, call: Call)
    requires Inv(registry, db)
    ensures var after := Perform(registry, db, call);
            && (after.runs == db.runs
                || (|after.runs| == |db.runs| + 1 && after.runs[..|db.runs|] == db.runs && Told(after, after.runs[|db.runs|], call.failure)))
            && forall i | 0 <= i < |after.logs| && SaysItRan(after.logs[i]) ::
                 (i < |db.logs| && SaysItRan(db.logs[i])) || (|after.runs| > |db.runs| && after.logs[i].input == after.runs[|db.runs|])
  {
    match call
    case SubmitCall(world, input, failure, now) =>
      SubmitTells(registry, world, db, input, failure, now);
    case ResolveCall(a, approve, failure, now) =>
      DecisionExactly(registry, db, a, approve, failure, now);
      var after := Perform(registry, db, call);
      if after.runs != db.runs {
        var i := db.approvals[a].log;
        assert Tells(after.logs[i], db.logs[i].input, failure);
      } else if after.logs != db.logs {
        assert ApprovalOk(db, a);
      }
  }

  lemma SubmitTells(registry: Registry, world: World, db: Db, input: Input, failure: Option<string>, now: int)
    requires Inv(registry, db)
    ensures var after := Submit(registry, world, db, input, failure, now).0;
            && (after.runs == db.runs
                || (|after.runs| == |db.runs| + 1 && after.runs[..|db.runs|] == db.runs && Told(after, after.runs[|db.runs|], failure)))
            && forall i | 0 <= i < |after.logs| && SaysItRan(after.logs[i]) ::
                 (i < |db.logs| && SaysItRan(db.logs[i])) || (|after.runs| > |db.runs| && after.logs[i].input == after.runs[|db.runs|])
  {
    if FindLog(db.logs, input.key).None? {
      NewRequestExactly(registry, world, db, input, failure, now);
      ReasonExactly(registry, world, input);
      var after := Submit(registry, world, db, input, failure, now).0;
      assert after.logs[|db.logs|].input == input;
      if after.runs != db.runs {
        assert Tells(after.logs[|db.logs|], input, failure);
      }
    }
  }

  lemma OutcomeStep(registry: Registry, db: Db, call: Call, failures: seq<Option<string>>)
    requires Inv(registry, db) && OutcomesLogged(db, failures)
    ensures var after := Perform(registry, db, call);
            OutcomesLogged(after, failures + if |after.runs| > |db.runs| then [call.failure] else [])
  {
    var after := Perform(registry, db, call);
    PerformTells(registry, db, call);
    forall k | 0 <= k < |db.runs| ensures Told(after, after.runs[k], failures[k]) {
      assert after.runs[k] == db.runs[k];
      ToldStays(registry, db, call, db.runs[k], failures[k]);
    }
    forall i | 0 <= i < |after.logs| && SaysItRan(after.logs[i]) ensures Ran(after, after.logs[i].input) {
      if i < |db.logs| && SaysItRan(db.logs[i]) {
        PerformKeepsEntry(registry, db, call, i);
        var k :| 0 <= k < |db.runs| && db.runs[k] == db.logs[i].input;
        assert after.runs[k] == db.runs[k];
      } else {
        assert after.runs[|db.runs|] == after.logs[i].input;
      }
    }
  }

  lemma {:induction false} OutcomesAreLogged(registry: Registry, calls: seq<Call>)
    ensures OutcomesLogged(Run(registry, calls), Failures(registry, calls))
  {
    if calls != [] {
      var before := calls[..|calls| - 1];
      OutcomesAreLogged(registry, before);
      OutcomeStep(registry, Run(registry, before), calls[|calls| - 1], Failures(registry, before));
    }
  }

  /**
   * Over every run: an entry says executed exactly when its action ran and did not fail, and it
   * gives a domain failure as its reason exactly when its action ran and failed with that message.
   */
  lemma LoggedAsItWent(registry: Registry, calls: seq<Call>, i: nat)
    requires i < |Run(registry, calls).logs|
    ensures var db, failures := Run(registry, calls), Failures(registry, calls);
            && |failures| == |db.runs|
            && (db.logs[i].status == Executed
                <==> exists k | 0 <= k < |db.runs| :: db.runs[k] == db.logs[i].input && failures[k] == None)
            && forall message ::
                 (db.logs[i].status == Rejected && db.logs[i].reason == Some(DomainFailure(message))
                  <==> exists k | 0 <= k < |db.runs| :: db.runs[k] == db.logs[i].input && failures[k] == Some(message))
  {
    OutcomesAreLogged(registry, calls);
    var db, failures := Run(registry, calls), Failures(registry, calls);
    if k :| 0 <= k < |db.runs| && db.runs[k] == db.logs[i].input {
      assert Told(db, db.runs[k], failures[k]);
      var j :| 0 <= j < |db.logs| && Tells(db.logs[j], db.runs[k], failures[k]);
      assert i == j;
      forall l | 0 <= l < |db.runs| && db.runs[l] == db.logs[i].input ensures l == k {
        assert RunOnce(db.runs);
      }
    } else {
      assert !Ran(db, db.logs[i].input);
      assert !SaysItRan(db.logs[i]);
    }
  }
}
