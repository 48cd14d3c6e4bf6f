/** What AI agents may do for a user: the consents a user grants an agent, and the check made before an agent's action. */
module ContextBroker {
  import opened Wrappers

  datatype ConsentScope = EmailSummarize | EmailDraftReply | EmailModifyText | EmailContentEgress

  datatype Client = Client(isAgent: bool, active: bool)

  datatype Grantee = Grantee(user: nat, client: string)

  datatype Consent = Consent(scopes: seq<ConsentScope>, revoked: bool)

  datatype Reason =
    | NoClientNamed | UnknownClient | NotAnAgent | AgentInactive
    | NoConsentScopeFor(required: string) | NotGranted | MissingScopes(missing: seq<ConsentScope>)

  datatype Error = Refused(reason: Reason) | NoActiveGrant

  type Clients = map<string, Client>

  type Consents = map<Grantee, Consent>

  // ---------------------------------------------------------------- the check

  /** The consent an action scope needs; a scope without one is closed to agents. */
  function ConsentScopeFor(required: string): Option<ConsentScope> {
    if required == "email:summarize" then Some(EmailSummarize)
    else if required == "email:draft-reply" then Some(EmailDraftReply)
    else if required == "email:modify-text" then Some(EmailModifyText)
    else if required == "email:egress" then Some(EmailContentEgress)
    else None
  }

  function ClientProblem(clients: Clients, client: Option<string>): Option<Reason> {
    if client.None? || client.value == "" then Some(NoClientNamed)
    else if client.value !in clients then Some(UnknownClient)
    else if !clients[client.value].isAgent then Some(NotAnAgent)
    else if !clients[client.value].active then Some(AgentInactive)
    else None
  }

  /** Adds the scopes an action needs to `needed`, each once, or finds one that is closed to agents. */
  function Needed(required: seq<string>, needed: seq<ConsentScope>): Result<seq<ConsentScope>, Reason>
    decreases required
  {
    if required == [] then Ok(needed)
    else
      var mapped := ConsentScopeFor(required[0]);
      if mapped.None? then Err(NoConsentScopeFor(required[0]))
      else Needed(required[1..], if mapped.value in needed then needed else needed + [mapped.value])
  }

  function Missing(needed: seq<ConsentScope>, granted: seq<ConsentScope>): (missing: seq<ConsentScope>)
    ensures missing == [] <==> forall s | s in needed :: s in granted
    ensures forall s :: s in missing <==> s in needed && s !in granted
  {
    if needed == [] then []
    else
      var rest := Missing(needed[1..], granted);
      assert needed == [needed[0]] + needed[1..];
      if needed[0] in granted then rest else [needed[0]] + rest
  }

  function Refusal(clients: Clients, consents: Consents, user: nat, client: Option<string>, required: seq<string>): Option<Reason> {
    var problem := ClientProblem(clients, client);
    if problem.Some? then problem
    else if required == [] then None
    else
      var needed := Needed(required, []);
      if needed.Err? then Some(needed.error)
      else
        var key := Grantee(user, client.value);
        if key !in consents || consents[key].revoked then Some(NotGranted)
        else
          var missing := Missing(needed.value, consents[key].scopes);
          if missing == [] then None else Some(MissingScopes(missing))
  }

  class ContextBrokerService {
    const clients: Clients
    var consents: Consents

    constructor (clients: Clients)
      ensures this.clients == clients && consents == map[]
    {
      this.clients := clients;
      consents := map[];
    }

    method AssertConsent(user: nat, client: Option<string>, required: seq<string>) returns (refusal: Option<Reason>)
      ensures refusal == Refusal(clients, consents, user, client, required)
    {
      if client.None? || client.value == "" {
        return Some(NoClientNamed);
      }
      if client.value !in clients {
        return Some(UnknownClient);
      }
      if !clients[client.value].isAgent {
        return Some(NotAnAgent);
      }
      if !clients[client.value].active {
        return Some(AgentInactive);
      }
      if |required| == 0 {
        return None;
      }
      var needed: seq<ConsentScope> := [];
      var i := 0;
      assert required[0..] == required;
      while i < |required|
        invariant i <= |required|
        invariant Needed(required, []) == Needed(required[i..], needed)
      {
        var mapped := ConsentScopeFor(required[i]);
        if mapped.None? {
          return Some(NoConsentScopeFor(required[i]));
        }
        assert required[i..][1..] == required[i + 1..];
        if mapped.value !in needed {
          needed := needed + [mapped.value];
        }
        i := i + 1;
      }
      var key := Grantee(user, client.value);
      if key !in consents || consents[key].revoked {
        return Some(NotGranted);
      }
      var missing := Missing(needed, consents[key].scopes);
      refusal := if |missing| > 0 then Some(MissingScopes(missing)) else None;
    }

    method Grant(user: nat, client: string, scopes: seq<ConsentScope>) returns (r: Result<Consent, Error>)
      modifies this`consents
      ensures (consents, r) == GrantAccess(clients, old(consents), Grantee(user, client), scopes)
    {
      if client !in clients {
        return Err(Refused(UnknownClient));
      }
      if !clients[client].isAgent {
        return Err(Refused(NotAnAgent));
      }
      if !clients[client].active {
        return Err(Refused(AgentInactive));
      }
      var consent := Consent(Unique(scopes), false);
      consents := consents[Grantee(user, client) := consent];
      r := Ok(consent);
    }

    method Revoke(user: nat, client: string) returns (r: Result<Consent, Error>)
      modifies this`consents
      ensures (consents, r) == RevokeAccess(old(consents), Grantee(user, client))
    {
      var key := Grantee(user, client);
      if key !in consents || consents[key].revoked {
        return Err(NoActiveGrant);
      }
      consents := consents[key := consents[key].(revoked := true)];
      r := Ok(consents[key]);
    }
  }

  /** `[...new Set(scopes)]`. */
  function Unique(scopes: seq<ConsentScope>): (r: seq<ConsentScope>)
    ensures forall s :: s in r <==> s in scopes
    ensures forall i, j | 0 <= i < j < |r| :: r[i] != r[j]
  {
    if scopes == [] then []
    else
      var before, last := Unique(scopes[..|scopes| - 1]), scopes[|scopes| - 1];
      assert scopes == scopes[..|scopes| - 1] + [last];
      if last in before then before else before + [last]
  }

  function GrantAccess(clients: Clients, consents: Consents, key: Grantee, scopes: seq<ConsentScope>): (Consents, Result<Consent, Error>) {
    if key.client !in clients then (consents, Err(Refused(UnknownClient)))
    else if !clients[key.client].isAgent then (consents, Err(Refused(NotAnAgent)))
    else if !clients[key.client].active then (consents, Err(Refused(AgentInactive)))
    else (consents[key := Consent(Unique(scopes), false)], Ok(Consent(Unique(scopes), false)))
  }

  function RevokeAccess(consents: Consents, key: Grantee): (Consents, Result<Consent, Error>) {
    if key !in consents || consents[key].revoked then (consents, Err(NoActiveGrant))
    else (consents[key := consents[key].(revoked := true)], Ok(consents[key].(revoked := true)))
  }

  // ---------------------------------------------------------------- what the check means

  predicate ActiveAgent(clients: Clients, client: Option<string>) {
    client.Some? && client.value != "" && client.value in clients && clients[client.value].isAgent && clients[client.value].active
  }

  /** `granted` holds the consent scope of every required one. */
  predicate Covered(required: seq<string>, granted: seq<ConsentScope>) {
    forall s | s in required :: ConsentScopeFor(s).Some? && ConsentScopeFor(s).value in granted
  }

  lemma {:induction false} NeededIsExact(required: seq<string>, needed: seq<ConsentScope>, granted: seq<ConsentScope>)
    ensures Needed(required, needed).Err? ==> !Covered(required, granted)
    ensures Needed(required, needed).Ok? ==>
              ((forall s | s in Needed(required, needed).value :: s in granted)
               <==> Covered(required, granted) && forall s | s in needed :: s in granted)
    decreases required
  {
    if required != [] {
      assert required == [required[0]] + required[1..];
      var mapped := ConsentScopeFor(required[0]);
      if mapped.Some? {
        var more := if mapped.value in needed then needed else needed + [mapped.value];
        NeededIsExact(required[1..], more, granted);
      }
    }
  }

  /**
   * An agent is let through exactly when it is an active agent and the action needs nothing, or
   * every scope it needs has a consent scope that the user's unrevoked consent holds.
   */
  lemma AllowedExactly(clients: Clients, consents: Consents, user: nat, client: Option<string>, required: seq<string>)
    ensures Refusal(clients, consents, user, client, required).None?
       <==> ActiveAgent(clients, client)
            && (required == []
                || (Grantee(user, client.value) in consents
                    && !consents[Grantee(user, client.value)].revoked
                    && Covered(required, consents[Grantee(user, client.value)].scopes)))
  {
    if ActiveAgent(clients, client) && required != [] {
      var key := Grantee(user, client.value);
      NeededIsExact(required, [], if key in consents then consents[key].scopes else []);
      assert Needed(required, []).Err? ==> !Covered(required, []);
    }
  }

  // ---------------------------------------------------------------- histories

  datatype Step = Grants(key: Grantee, scopes: seq<ConsentScope>) | Revokes(key: Grantee)

  function Take(clients: Clients, consents: Consents, step: Step): Consents {
    match step
    case Grants(key, scopes) => GrantAccess(clients, consents, key, scopes).0
    case Revokes(key) => RevokeAccess(consents, key).0
  }

  function Run(clients: Clients, steps: seq<Step>): Consents {
    if steps == [] then map[] else Take(clients, Run(clients, steps[..|steps| - 1]), steps[|steps| - 1])
  }

  /** The last step about this pair is the grant of `scopes`. */
  ghost predicate LastGranted(steps: seq<Step>, key: Grantee, scopes: seq<ConsentScope>) {
    exists i | 0 <= i < |steps| :: steps[i] == Grants(key, scopes) && forall j | i < j < |steps| :: steps[j].key != key
  }

  /** A consent in force is the latest word the user has had on this agent, however often it was granted and revoked before. */
  lemma {:induction false} ConsentIsLatestGrant(clients: Clients, steps: seq<Step>, key: Grantee)
    requires ActiveAgent(clients, Some(key.client))
    ensures var consents := Run(clients, steps);
            && (key in consents && !consents[key].revoked ==>
                  exists scopes :: LastGranted(steps, key, scopes) && consents[key].scopes == Unique(scopes))
            && (forall scopes | LastGranted(steps, key, scopes) :: key in consents && !consents[key].revoked
                  && consents[key].scopes == Unique(scopes))
  {
    if steps != [] {
      var before, last := steps[..|steps| - 1], steps[|steps| - 1];
      var consents := Run(clients, steps);
      ConsentIsLatestGrant(clients, before, key);
      forall scopes ensures LastGranted(steps, key, scopes)
                       <==> last == Grants(key, scopes) || (last.key != key && LastGranted(before, key, scopes)) {
        LastGrantedStep(steps, key, scopes);
      }
      assert last.Grants? && last.key == key ==> LastGranted(steps, key, last.scopes);
    }
  }

  lemma LastGrantedStep(steps: seq<Step>, key: Grantee, scopes: seq<ConsentScope>)
    requires steps != []
    ensures var before, last := steps[..|steps| - 1], steps[|steps| - 1];
            LastGranted(steps, key, scopes) <==> last == Grants(key, scopes) || (last.key != key && LastGranted(before, key, scopes))
  {
    var before, last := steps[..|steps| - 1], steps[|steps| - 1];
    if LastGranted(steps, key, scopes) {
      var i :| 0 <= i < |steps| && steps[i] == Grants(key, scopes) && forall j | i < j < |steps| :: steps[j].key != key;
      assert i < |before| ==> before[i] == steps[i];
    }
    if last.key != key && LastGranted(before, key, scopes) {
      var i :| 0 <= i < |before| && before[i] == Grants(key, scopes) && forall j | i < j < |before| :: before[j].key != key;
      assert steps[i] == Grants(key, scopes);
    }
    if last == Grants(key, scopes) {
      assert steps[|steps| - 1] == Grants(key, scopes);
    }
  }

  // ---------------------------------------------------------------- which scopes an agent can be let have

  /** The four scopes agents can be let have; nothing else is ever covered by a consent. */
  lemma AgentScopes(required: string, granted: seq<ConsentScope>)
    ensures Covered([required], granted)
       <==> (required == "email:summarize" && EmailSummarize in granted)
            || (required == "email:draft-reply" && EmailDraftReply in granted)
            || (required == "email:modify-text" && EmailModifyText in granted)
            || (required == "email:egress" && EmailContentEgress in granted)
  {
    ConsentScopes(required);
    assert required in [required];
    if ConsentScopeFor(required).Some? && ConsentScopeFor(required).value in granted {
      forall s | s in [required] ensures ConsentScopeFor(s).Some? && ConsentScopeFor(s).value in granted {
        assert s == required;
      }
    }
  }

  lemma ConsentScopes(required: string)
    ensures ConsentScopeFor(required) == Some(EmailSummarize) <==> required == "email:summarize"
    ensures ConsentScopeFor(required) == Some(EmailDraftReply) <==> required == "email:draft-reply"
    ensures ConsentScopeFor(required) == Some(EmailModifyText) <==> required == "email:modify-text"
    ensures ConsentScopeFor(required) == Some(EmailContentEgress) <==> required == "email:egress"
  {
    assert "email:draft-reply"[6] != "email:modify-text"[6];
  }

  /** An action that needs any other scope is refused to every agent, whatever was consented to. */
  lemma ClosedToAgents(clients: Clients, consents: Consents, user: nat, client: Option<string>, required: seq<string>, scope: string)
    requires scope in required && scope !in {"email:summarize", "email:draft-reply", "email:modify-text", "email:egress"}
    ensures Refusal(clients, consents, user, client, required).Some?
  {
    AllowedExactly(clients, consents, user, client, required);
  }

  /** An agent that may do everything asked may do each part of it, and the other way round. */
  lemma CoveredOneByOne(required: seq<string>, granted: seq<ConsentScope>)
    ensures Covered(required, granted) <==> forall s | s in required :: Covered([s], granted)
  {
    forall s | s in required ensures Covered([s], granted) <==> ConsentScopeFor(s).Some? && ConsentScopeFor(s).value in granted {
      assert [s][0] == s;
    }
  }

  /** Why an agent is refused: the checks of the client in order, then the scopes, then the consent. */
  lemma RefusedBecause(clients: Clients, consents: Consents, user: nat, client: Option<string>, required: seq<string>)
    ensures var refusal := Refusal(clients, consents, user, client, required);
            && (refusal == Some(NoClientNamed) <==> client == None || client == Some(""))
            && (refusal == Some(UnknownClient) <==> client.Some? && client.value != "" && client.value !in clients)
            && (refusal == Some(NotAnAgent) <==> client.Some? && client.value != "" && client.value in clients && !clients[client.value].isAgent)
            && (refusal == Some(AgentInactive) <==>
                  client.Some? && client.value != "" && client.value in clients && clients[client.value].isAgent && !clients[client.value].active)
            && (refusal.Some? && refusal.value.NoConsentScopeFor? <==>
                  ActiveAgent(clients, client)
                  && exists s | s in required :: s !in {"email:summarize", "email:draft-reply", "email:modify-text", "email:egress"})
            && (refusal == Some(NotGranted) <==>
                  && ActiveAgent(clients, client) && required != []
                  && (forall s | s in required :: s in {"email:summarize", "email:draft-reply", "email:modify-text", "email:egress"})
                  && (Grantee(user, client.value) !in consents || consents[Grantee(user, client.value)].revoked))
  {
    NeededFails(required, []);
  }

  lemma {:induction false} NeededFails(required: seq<string>, needed: seq<ConsentScope>)
    ensures Needed(required, needed).Err?
       <==> exists s | s in required :: s !in {"email:summarize", "email:draft-reply", "email:modify-text", "email:egress"}
    ensures Needed(required, needed).Err? ==> Needed(required, needed).error.NoConsentScopeFor?
    decreases required
  {
    if required != [] {
      var first, rest := required[0], required[1..];
      assert required == [first] + rest;
      assert forall s :: s in required <==> s == first || s in rest;
      var mapped := ConsentScopeFor(first);
      if mapped.Some? {
        NeededFails(rest, if mapped.value in needed then needed else needed + [mapped.value]);
      } else {
        assert first in required;
      }
    }
  }

  lemma {:induction false} NeededHolds(required: seq<string>, needed: seq<ConsentScope>, s: ConsentScope)
    requires Needed(required, needed).Ok?
    ensures s in Needed(required, needed).value <==> s in needed || exists r | r in required :: ConsentScopeFor(r) == Some(s)
    decreases required
  {
    if required != [] {
      var first, rest := required[0], required[1..];
      assert required == [first] + rest;
      assert forall r :: r in required <==> r == first || r in rest;
      if ConsentScopeFor(first).Some? {
        var mapped := ConsentScopeFor(first).value;
        NeededHolds(rest, if mapped in needed then needed else needed + [mapped], s);
        assert first in required;
      }
    }
  }

  /** The scopes an agent is told it lacks are those the action needs and the consent does not hold. */
  lemma MissingExactly(clients: Clients, consents: Consents, user: nat, client: Option<string>, required: seq<string>, s: ConsentScope)
    requires Refusal(clients, consents, user, client, required).Some?
    requires Refusal(clients, consents, user, client, required).value.MissingScopes?
    ensures var key := Grantee(user, client.value);
            && key in consents && !consents[key].revoked
            && (s in Refusal(clients, consents, user, client, required).value.missing
                <==> s !in consents[key].scopes && exists r | r in required :: ConsentScopeFor(r) == Some(s))
  {
    NeededFails(required, []);
    NeededHolds(required, [], s);
  }

  /** A consent is stored for an active agent only, replaces what there was, and holds each scope once. */
  lemma GrantExactly(clients: Clients, consents: Consents, key: Grantee, scopes: seq<ConsentScope>)
    ensures var (after, r) := GrantAccess(clients, consents, key, scopes);
            if key.client !in clients then r == Err(Refused(UnknownClient)) && after == consents
            else if !clients[key.client].isAgent then r == Err(Refused(NotAnAgent)) && after == consents
            else if !clients[key.client].active then r == Err(Refused(AgentInactive)) && after == consents
            else
              && r.Ok? && after == consents[key := r.value] && !r.value.revoked
              && (forall s :: s in r.value.scopes <==> s in scopes)
              && forall i, j | 0 <= i < j < |r.value.scopes| :: r.value.scopes[i] != r.value.scopes[j]
  {
  }

  /** Only a consent in force can be revoked; it keeps its scopes, and no other consent changes. */
  lemma RevocationExactly(consents: Consents, key: Grantee)
    ensures var (after, r) := RevokeAccess(consents, key);
            if key in consents && !consents[key].revoked then
              after == consents[key := Consent(consents[key].scopes, true)] && r == Ok(after[key])
            else r == Err(NoActiveGrant) && after == consents
  {
  }
}
