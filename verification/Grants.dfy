/** What a user has connected: one grant per user and client, widened by every consent. */
module Grants {
  import opened Wrappers
  import opened Scopes
  import Credentials

  datatype Key = Key(user: nat, client: nat)

  datatype Grant = Grant(scope: string, revoked: bool)

  type Table = map<Key, Grant>

  /** The scope stored by a consent: everything stored before plus everything asked for now. */
  function Merged(grants: Table, key: Key, scope: string): string {
    NormalizeScope((if key in grants then ParseScope(grants[key].scope) else []) + ParseScope(scope))
  }

  function Upsert(grants: Table, key: Key, scope: string): Table {
    grants[key := Grant(Merged(grants, key, scope), false)]
  }

  function Revoke(grants: Table, user: nat, key: Key): Table {
    if key in grants && key.user == user then grants[key := grants[key].(revoked := true)] else grants
  }

  predicate Covers(grants: Table, key: Key, requested: string) {
    && key in grants && !grants[key].revoked
    && IsSubsetScope(ParseScope(requested), ParseScope(grants[key].scope))
  }

  /** The grants, and the refresh tokens that a revocation reaches. */
  class GrantService {
    var grants: Table
    var tokens: map<nat, Credentials.Token>

    method FindExistingCoveringGrant(user: nat, client: nat, requested: string) returns (r: Option<Grant>)
      ensures r.Some? <==> Covers(grants, Key(user, client), requested)
      ensures r.Some? ==> r.value == grants[Key(user, client)]
    {
      var key := Key(user, client);
      if key !in grants || grants[key].revoked {
        return None;
      }
      var granted := ParseScope(grants[key].scope);
      var asked := ParseScope(requested);
      r := if forall s | s in asked :: s in granted then Some(grants[key]) else None;
    }

    method UpsertGrant(user: nat, client: nat, scope: string)
      modifies this`grants
      ensures grants == Upsert(old(grants), Key(user, client), scope)
    {
      var key := Key(user, client);
      var merged: string;
      if key in grants {
        merged := NormalizeScope(ParseScope(grants[key].scope) + ParseScope(scope));
      } else {
        assert [] + ParseScope(scope) == ParseScope(scope);
        merged := NormalizeScope(ParseScope(scope));
      }
      grants := grants[key := Grant(merged, false)];
    }

    /** One transaction: the grant is revoked, and with it every refresh token of this user and client. */
    method RevokeGrant(user: nat, key: Key)
      modifies this
      ensures grants == Revoke(old(grants), user, key)
      ensures tokens == if key in old(grants) && key.user == user
                        then Credentials.KillTokens(old(tokens), Credentials.OfGrant(user, key.client)) else old(tokens)
    {
      if key !in grants || key.user != user {
        return;
      }
      grants := grants[key := grants[key].(revoked := true)];
      tokens := map t | t in tokens ::
        if tokens[t].user == user && tokens[t].client == key.client && !tokens[t].revoked
        then tokens[t].(revoked := true) else tokens[t];
      assert tokens == Credentials.KillTokens(old(tokens), Credentials.OfGrant(user, key.client));
    }
  }

  // ---------------------------------------------------------------- histories

  datatype Step = Consent(key: Key, scope: string) | Disconnect(user: nat, key: Key)

  function Take(grants: Table, step: Step): Table {
    match step
    case Consent(key, scope) => Upsert(grants, key, scope)
    case Disconnect(user, key) => Revoke(grants, user, key)
  }

  function Run(steps: seq<Step>): Table {
    if steps == [] then map[] else Take(Run(steps[..|steps| - 1]), steps[|steps| - 1])
  }

  /** Every token of every consent given to this client so far, revoked in between or not. */
  function EverConsented(steps: seq<Step>, key: Key): seq<string> {
    if steps == [] then []
    else
      var last := steps[|steps| - 1];
      EverConsented(steps[..|steps| - 1], key) + if last.Consent? && last.key == key then ParseScope(last.scope) else []
  }

  /** The last step that concerns this connection is a consent. */
  predicate Connected(steps: seq<Step>, key: Key) {
    steps != [] &&
    match steps[|steps| - 1]
    case Consent(k, _) => k == key || Connected(steps[..|steps| - 1], key)
    case Disconnect(user, k) => !(k == key && key.user == user) && Connected(steps[..|steps| - 1], key)
  }

  predicate EverConnected(steps: seq<Step>, key: Key) {
    steps != [] &&
    var last := steps[|steps| - 1];
    (last.Consent? && last.key == key) || EverConnected(steps[..|steps| - 1], key)
  }

  lemma {:induction false} ConsentedTokens(steps: seq<Step>, key: Key)
    ensures forall t | t in EverConsented(steps, key) :: IsToken(t)
  {
    if steps != [] {
      ConsentedTokens(steps[..|steps| - 1], key);
    }
  }

  lemma MergedIsUnion(grants: Table, key: Key, scope: string, before: seq<string>)
    requires key in grants && grants[key].scope == NormalizeScope(before)
    requires forall t | t in before :: IsToken(t)
    ensures Merged(grants, key, scope) == NormalizeScope(before + ParseScope(scope))
  {
    ParseUndoesNormalize(before);
    NormalFormOfSet(SortedSet(before) + ParseScope(scope), before + ParseScope(scope));
  }

  /**
   * Over every run of consents and revocations: a row exists once there was a consent, its scope
   * is the normal form of everything ever consented, and it is unrevoked while connected.
   */
  lemma {:induction false} StoredGrant(steps: seq<Step>, key: Key)
    ensures key in Run(steps) <==> EverConnected(steps, key)
    ensures key in Run(steps) ==> Run(steps)[key].scope == NormalizeScope(EverConsented(steps, key))
    ensures key in Run(steps) && !Run(steps)[key].revoked <==> Connected(steps, key)
    ensures key !in Run(steps) ==> EverConsented(steps, key) == []
  {
    if steps != [] {
      var before, last := steps[..|steps| - 1], steps[|steps| - 1];
      StoredGrant(before, key);
      assert EverConsented(before, key) + [] == EverConsented(before, key);
      if last.Consent? && last.key == key && key in Run(before) {
        ConsentedTokens(before, key);
        MergedIsUnion(Run(before), key, last.scope, EverConsented(before, key));
      }
    }
  }

  /** The consent screen is skipped exactly when the app is connected and was ever given all it asks for. */
  lemma CoveredExactly(steps: seq<Step>, key: Key, requested: string)
    ensures Covers(Run(steps), key, requested)
       <==> Connected(steps, key) && forall t | t in ParseScope(requested) :: t in EverConsented(steps, key)
  {
    StoredGrant(steps, key);
    ConsentedTokens(steps, key);
    ParseUndoesNormalize(EverConsented(steps, key));
  }

  /** A revoked app that is granted anything again gets everything it ever had. */
  lemma ReconsentRestores(steps: seq<Step>, key: Key, scope: string, requested: string)
    requires forall t | t in ParseScope(requested) :: t in EverConsented(steps, key)
    ensures Covers(Run(steps + [Disconnect(key.user, key)] + [Consent(key, scope)]), key, requested)
  {
    var revoked := steps + [Disconnect(key.user, key)];
    var again := revoked + [Consent(key, scope)];
    assert revoked[..|revoked| - 1] == steps && again[..|again| - 1] == revoked;
    CoveredExactly(again, key, requested);
  }
}
