/**
 * Devices, dashboard sessions and OAuth refresh tokens. Three services write these tables:
 * device.service.ts, session.service.ts and oauth-token.service.ts; every call runs whole.
 *
 * Hashes are taken to be injective, so a session or token row is keyed by the secret it hashes.
 * A device row is keyed by its unique pair of owner and client-generated identifier.
 */
module Credentials {
  import opened Wrappers

  datatype Device = Device(owner: nat, identifier: string)

  datatype Session = Session(user: nat, device: Option<Device>, expiresAt: int, revoked: bool)

  datatype Token = Token(user: nat, client: nat, scope: string, family: nat, device: Option<Device>,
                         expiresAt: int, revoked: bool)

  /** `devices` says of each known device whether it is revoked; `next` is the next random id. */
  datatype Store = Store(devices: map<Device, bool>, sessions: map<nat, Session>, tokens: map<nat, Token>, next: nat)

  /** What a successful rotation hands to the token endpoint. */
  datatype Rotated = Rotated(user: nat, scope: string, family: nat)

  datatype Error = InvalidToken | NotFound

  const REFRESH_TOKEN_TTL_MS := 30 * 24 * 60 * 60 * 1000

  const EMPTY := Store(map[], map[], map[], 0)

  // ---------------------------------------------------------------- effects of the calls

  /** No identifier sent: no device. Otherwise the device is known and trusted from now on. */
  function ResolveDevice(st: Store, user: nat, identifier: string): (Store, Option<Device>) {
    if identifier == "" then (st, None)
    else
      var device := Device(user, identifier);
      (st.(devices := st.devices[device := false]), Some(device))
  }

  function IssueSession(st: Store, user: nat, identifier: string, now: int): Store {
    var (st1, device) := ResolveDevice(st, user, identifier);
    var session := Session(user, device, now + REFRESH_TOKEN_TTL_MS, false);
    st1.(sessions := st1.sessions[st1.next := session], next := st1.next + 1)
  }

  predicate SessionUsable(st: Store, secret: nat, now: int) {
    secret in st.sessions && !st.sessions[secret].revoked && now <= st.sessions[secret].expiresAt
  }

  function RotateSession(st: Store, secret: nat, identifier: string, now: int): (Store, Result<nat, Error>) {
    if !SessionUsable(st, secret, now) then (st, Err(InvalidToken))
    else
      var user := st.sessions[secret].user;
      var spent := st.(sessions := st.sessions[secret := st.sessions[secret].(revoked := true)]);
      (IssueSession(spent, user, identifier, now), Ok(st.next))
  }

  predicate On(device: Option<Device>, devices: set<Device>) {
    device.Some? && device.value in devices
  }

  /** The `where` clauses of the bulk updates that set `revokedAt`. */
  datatype Where = Secret(secret: nat) | Family(family: nat) | OfUser(user: nat) | OfGrant(user: nat, client: nat)
                 | OnDevices(devices: set<Device>)

  predicate HitsSession(w: Where, secret: nat, s: Session) {
    match w
    case Secret(x) => secret == x
    case OfUser(user) => s.user == user
    case OnDevices(devices) => On(s.device, devices)
    case _ => false
  }

  predicate HitsToken(w: Where, t: Token) {
    match w
    case Family(family) => t.family == family
    case OfGrant(user, client) => t.user == user && t.client == client
    case OnDevices(devices) => On(t.device, devices)
    case _ => false
  }

  function KillSessions(sessions: map<nat, Session>, w: Where): map<nat, Session> {
    map s | s in sessions :: if HitsSession(w, s, sessions[s]) then sessions[s].(revoked := true) else sessions[s]
  }

  function KillTokens(tokens: map<nat, Token>, w: Where): map<nat, Token> {
    map t | t in tokens :: if HitsToken(w, tokens[t]) then tokens[t].(revoked := true) else tokens[t]
  }

  function RevokeSession(st: Store, secret: nat): Store {
    st.(sessions := KillSessions(st.sessions, Secret(secret)))
  }

  /** A new refresh token, in the given family or in a family of its own. */
  function IssueToken(st: Store, user: nat, client: nat, scope: string, family: Option<nat>, identifier: string,
                      now: int): Store
  {
    var (st1, device) := ResolveDevice(st, user, identifier);
    var ownFamily := if family.Some? then family.value else st1.next + 1;
    var token := Token(user, client, scope, ownFamily, device, now + REFRESH_TOKEN_TTL_MS, false);
    st1.(tokens := st1.tokens[st1.next := token], next := st1.next + 2)
  }

  function Rotate(st: Store, secret: nat, client: nat, now: int): (Store, Result<Rotated, Error>) {
    if secret !in st.tokens || st.tokens[secret].client != client then (st, Err(InvalidToken))
    else
      var token := st.tokens[secret];
      if token.revoked then
        (st.(tokens := KillTokens(st.tokens, Family(token.family))), Err(InvalidToken))
      else if token.expiresAt < now then (st, Err(InvalidToken))
      else
        (st.(tokens := st.tokens[secret := token.(revoked := true)]), Ok(Rotated(token.user, token.scope, token.family)))
  }

  /** The refresh_token grant: rotate, then issue in the same family; the result is the new secret. */
  function RefreshGrant(st: Store, secret: nat, client: nat, identifier: string, now: int): (Store, Result<nat, Error>) {
    var (st1, rotated) := Rotate(st, secret, client, now);
    match rotated
    case Err(e) => (st1, Err(e))
    case Ok(r) => (IssueToken(st1, r.user, client, r.scope, Some(r.family), identifier, now), Ok(st.next))
  }

  function RevokeDevice(st: Store, user: nat, device: Device): (Store, Result<(), Error>) {
    if device !in st.devices || device.owner != user || st.devices[device] then (st, Err(NotFound))
    else
      (st.(devices := st.devices[device := true],
           sessions := KillSessions(st.sessions, OnDevices({device})),
           tokens := KillTokens(st.tokens, OnDevices({device}))),
       Ok(()))
  }

  /** The devices `revokeAllDevices` acts on: those of the user that are still trusted. */
  function TrustedDevices(st: Store, user: nat): set<Device> {
    set d | d in st.devices && d.owner == user && !st.devices[d]
  }

  function RevokeAllDevices(st: Store, user: nat): Store {
    var mine := TrustedDevices(st, user);
    st.(devices := map d | d in st.devices :: d in mine || st.devices[d],
        sessions := KillSessions(st.sessions, OnDevices(mine)),
        tokens := KillTokens(st.tokens, OnDevices(mine)))
  }

  /** "Sign out all devices". */
  function RevokeAllSessions(st: Store, user: nat): Store {
    RevokeAllDevices(st.(sessions := KillSessions(st.sessions, OfUser(user))), user)
  }

  /** What revoking a connected app does to the tokens. */
  function RevokeGrant(st: Store, user: nat, client: nat): Store {
    st.(tokens := KillTokens(st.tokens, OfGrant(user, client)))
  }

  // ---------------------------------------------------------------- the services

  class CredentialStore {
    var devices: map<Device, bool>
    var sessions: map<nat, Session>
    var tokens: map<nat, Token>
    var next: nat

    ghost function Tables(): Store reads this {
      Store(devices, sessions, tokens, next)
    }

    method Resolve(user: nat, identifier: string) returns (device: Option<Device>)
      modifies this`devices
      ensures (Tables(), device) == ResolveDevice(old(Tables()), user, identifier)
    {
      if identifier == "" {
        return None;
      }
      var d := Device(user, identifier);
      if d !in devices {
        devices := devices[d := false];
      } else if devices[d] {
        devices := devices[d := false];
      }
      assert devices == old(devices)[d := false];
      device := Some(d);
    }

    method IssueSessionFor(user: nat, identifier: string, now: int) returns (secret: nat)
      modifies this
      ensures Tables() == IssueSession(old(Tables()), user, identifier, now) && secret == old(next)
    {
      var device := Resolve(user, identifier);
      secret := next;
      sessions := sessions[secret := Session(user, device, now + REFRESH_TOKEN_TTL_MS, false)];
      next := next + 1;
    }

    method RotateSessionSecret(secret: nat, identifier: string, now: int) returns (r: Result<nat, Error>)
      modifies this
      ensures (Tables(), r) == RotateSession(old(Tables()), secret, identifier, now)
    {
      if secret !in sessions || sessions[secret].revoked || sessions[secret].expiresAt < now {
        return Err(InvalidToken);
      }
      var user := sessions[secret].user;
      sessions := sessions[secret := sessions[secret].(revoked := true)];
      var newSecret := IssueSessionFor(user, identifier, now);
      r := Ok(newSecret);
    }

    method IssueTokenSet(user: nat, client: nat, scope: string, family: Option<nat>, identifier: string, now: int)
      returns (secret: nat)
      modifies this
      ensures Tables() == IssueToken(old(Tables()), user, client, scope, family, identifier, now) && secret == old(next)
    {
      var device := Resolve(user, identifier);
      secret := next;
      var ownFamily := next + 1;
      if family.Some? {
        ownFamily := family.value;
      }
      tokens := tokens[secret := Token(user, client, scope, ownFamily, device, now + REFRESH_TOKEN_TTL_MS, false)];
      next := next + 2;
    }

    method RotateRefreshToken(secret: nat, client: nat, now: int) returns (r: Result<Rotated, Error>)
      modifies this`tokens
      ensures (Tables(), r) == Rotate(old(Tables()), secret, client, now)
    {
      if secret !in tokens || tokens[secret].client != client {
        return Err(InvalidToken);
      }
      var record := tokens[secret];
      if record.revoked {
        tokens := map t | t in tokens ::
          if tokens[t].family == record.family && !tokens[t].revoked then tokens[t].(revoked := true) else tokens[t];
        assert tokens == KillTokens(old(tokens), Family(record.family));
        return Err(InvalidToken);
      }
      if record.expiresAt < now {
        return Err(InvalidToken);
      }
      tokens := tokens[secret := record.(revoked := true)];
      r := Ok(Rotated(record.user, record.scope, record.family));
    }

    method HandleRefreshTokenGrant(secret: nat, client: nat, identifier: string, now: int) returns (r: Result<nat, Error>)
      modifies this
      ensures (Tables(), r) == RefreshGrant(old(Tables()), secret, client, identifier, now)
    {
      var rotated := RotateRefreshToken(secret, client, now);
      if rotated.Err? {
        return Err(rotated.error);
      }
      var grant := rotated.value;
      var issued := IssueTokenSet(grant.user, client, grant.scope, Some(grant.family), identifier, now);
      r := Ok(issued);
    }

    method RevokeDeviceOf(user: nat, device: Device) returns (r: Result<(), Error>)
      modifies this`devices, this`sessions, this`tokens
      ensures (Tables(), r) == RevokeDevice(old(Tables()), user, device)
    {
      if device !in devices || device.owner != user || devices[device] {
        return Err(NotFound);
      }
      devices := devices[device := true];
      sessions := map s | s in sessions ::
        if sessions[s].device == Some(device) && !sessions[s].revoked then sessions[s].(revoked := true) else sessions[s];
      tokens := map t | t in tokens ::
        if tokens[t].device == Some(device) && !tokens[t].revoked then tokens[t].(revoked := true) else tokens[t];
      assert sessions == KillSessions(old(sessions), OnDevices({device}));
      assert tokens == KillTokens(old(tokens), OnDevices({device}));
      r := Ok(());
    }

    method RevokeAllDevicesOf(user: nat)
      modifies this`devices, this`sessions, this`tokens
      ensures Tables() == RevokeAllDevices(old(Tables()), user)
    {
      var mine := set d | d in devices && d.owner == user && !devices[d];
      if mine == {} {
        assert devices == map d | d in devices :: d in mine || devices[d];
      } else {
        devices := map d | d in devices :: d in mine || devices[d];
      }
      sessions := map s | s in sessions ::
        if On(sessions[s].device, mine) && !sessions[s].revoked then sessions[s].(revoked := true) else sessions[s];
      tokens := map t | t in tokens ::
        if On(tokens[t].device, mine) && !tokens[t].revoked then tokens[t].(revoked := true) else tokens[t];
      assert mine == TrustedDevices(old(Tables()), user);
      assert sessions == KillSessions(old(sessions), OnDevices(mine));
      assert tokens == KillTokens(old(tokens), OnDevices(mine));
    }

    method RevokeAllSessionsOf(user: nat)
      modifies this`devices, this`sessions, this`tokens
      ensures Tables() == RevokeAllSessions(old(Tables()), user)
    {
      sessions := map s | s in sessions ::
        if sessions[s].user == user && !sessions[s].revoked then sessions[s].(revoked := true) else sessions[s];
      assert sessions == KillSessions(old(sessions), OfUser(user));
      RevokeAllDevicesOf(user);
    }
  }

  // ---------------------------------------------------------------- runs

  datatype Call =
    | Login(user: nat, identifier: string, now: int)
    | SessionRefresh(secret: nat, identifier: string, now: int)
    | Logout(secret: nat)
    | CodeGrant(user: nat, client: nat, scope: string, identifier: string, now: int)
    | TokenRefresh(secret: nat, client: nat, identifier: string, now: int)
    | DeviceRevocation(user: nat, device: Device)
    | SignOutAll(user: nat)
    | GrantRevocation(user: nat, client: nat)

  function Perform(st: Store, call: Call): Store {
    match call
    case Login(user, identifier, now) => IssueSession(st, user, identifier, now)
    case SessionRefresh(secret, identifier, now) => RotateSession(st, secret, identifier, now).0
    case Logout(secret) => RevokeSession(st, secret)
    case CodeGrant(user, client, scope, identifier, now) => IssueToken(st, user, client, scope, None, identifier, now)
    case TokenRefresh(secret, client, identifier, now) => RefreshGrant(st, secret, client, identifier, now).0
    case DeviceRevocation(user, device) => RevokeDevice(st, user, device).0
    case SignOutAll(user) => RevokeAllSessions(st, user)
    case GrantRevocation(user, client) => RevokeGrant(st, user, client)
  }

  function Run(st: Store, calls: seq<Call>): Store
    decreases calls
  {
    if calls == [] then st else Run(Perform(st, calls[0]), calls[1..])
  }

  // ---------------------------------------------------------------- token families

  ghost predicate SameFamily(st: Store, a: nat, b: nat) {
    a in st.tokens && b in st.tokens && st.tokens[a].family == st.tokens[b].family
  }

  /** A family belongs to one user, client and scope and has at most one unrevoked token. */
  ghost predicate Families(st: Store) {
    && (forall t | t in st.tokens :: t < st.next && st.tokens[t].family < st.next)
    && forall a, b | SameFamily(st, a, b) ::
         && st.tokens[a].user == st.tokens[b].user
         && st.tokens[a].client == st.tokens[b].client
         && st.tokens[a].scope == st.tokens[b].scope
         && (!st.tokens[a].revoked && !st.tokens[b].revoked ==> a == b)
  }

  /** Later tables keep every token row; only its revocation can change, and only one way. */
  ghost predicate Older(before: Store, after: Store) {
    && before.next <= after.next
    && forall t | t in before.tokens ::
         && t in after.tokens
         && after.tokens[t].(revoked := false) == before.tokens[t].(revoked := false)
         && (before.tokens[t].revoked ==> after.tokens[t].revoked)
  }

  ghost predicate Dead(st: Store, family: nat) {
    family < st.next && forall t | t in st.tokens && st.tokens[t].family == family :: st.tokens[t].revoked
  }

  lemma KillKeepsFamilies(st: Store, after: Store, w: Where)
    requires Families(st) && after.tokens == KillTokens(st.tokens, w) && after.next == st.next
    ensures Families(after) && Older(st, after)
  {
    forall a, b | SameFamily(after, a, b)
      ensures after.tokens[a].user == after.tokens[b].user && after.tokens[a].client == after.tokens[b].client
              && after.tokens[a].scope == after.tokens[b].scope
              && (!after.tokens[a].revoked && !after.tokens[b].revoked ==> a == b)
    {
      assert SameFamily(st, a, b);
    }
  }

  /** After a good refresh the family is still one user's, one client's and of one scope, and its one live token is the new one. */
  lemma RefreshedPair(st: Store, secret: nat, client: nat, identifier: string, now: int, a: nat, b: nat)
    requires Families(st) && RefreshGrant(st, secret, client, identifier, now).1.Ok?
    requires SameFamily(RefreshGrant(st, secret, client, identifier, now).0, a, b)
    ensures var tokens := RefreshGrant(st, secret, client, identifier, now).0.tokens;
            && tokens[a].user == tokens[b].user && tokens[a].client == tokens[b].client && tokens[a].scope == tokens[b].scope
            && (!tokens[a].revoked && !tokens[b].revoked ==> a == b)
  {
    assert SameFamily(st, if a == st.next then secret else a, if b == st.next then secret else b);
    assert a != st.next ==> SameFamily(st, a, a);
  }

  lemma RefreshKeepsFamilies(st: Store, secret: nat, client: nat, identifier: string, now: int)
    requires Families(st)
    ensures Families(RefreshGrant(st, secret, client, identifier, now).0)
    ensures Older(st, RefreshGrant(st, secret, client, identifier, now).0)
  {
    var (after, r) := RefreshGrant(st, secret, client, identifier, now);
    if r.Ok? {
      forall a, b | SameFamily(after, a, b)
        ensures after.tokens[a].user == after.tokens[b].user && after.tokens[a].client == after.tokens[b].client
                && after.tokens[a].scope == after.tokens[b].scope
                && (!after.tokens[a].revoked && !after.tokens[b].revoked ==> a == b)
      {
        RefreshedPair(st, secret, client, identifier, now, a, b);
      }
    } else if secret in st.tokens && st.tokens[secret].client == client && st.tokens[secret].revoked {
      KillKeepsFamilies(st, after, Family(st.tokens[secret].family));
    }
  }

  lemma IssueKeepsFamilies(st: Store, user: nat, client: nat, scope: string, identifier: string, now: int)
    requires Families(st)
    ensures Families(IssueToken(st, user, client, scope, None, identifier, now))
    ensures Older(st, IssueToken(st, user, client, scope, None, identifier, now))
  {
    var after := IssueToken(st, user, client, scope, None, identifier, now);
    forall a, b | SameFamily(after, a, b)
      ensures after.tokens[a].user == after.tokens[b].user && after.tokens[a].client == after.tokens[b].client
              && after.tokens[a].scope == after.tokens[b].scope
              && (!after.tokens[a].revoked && !after.tokens[b].revoked ==> a == b)
    {
      assert (a == st.next) == (b == st.next);
      assert a != st.next ==> SameFamily(st, a, b);
    }
  }

  lemma PerformKeepsFamilies(st: Store, call: Call)
    requires Families(st)
    ensures Families(Perform(st, call)) && Older(st, Perform(st, call))
  {
    var after := Perform(st, call);
    match call
    case CodeGrant(user, client, scope, identifier, now) => IssueKeepsFamilies(st, user, client, scope, identifier, now);
    case TokenRefresh(secret, client, identifier, now) => RefreshKeepsFamilies(st, secret, client, identifier, now);
    case DeviceRevocation(user, device) =>
      if after != st {
        KillKeepsFamilies(st, after, OnDevices({device}));
      }
    case SignOutAll(user) =>
      var mine := TrustedDevices(st, user);
      KillKeepsFamilies(st, after, OnDevices(mine));
    case GrantRevocation(user, client) => KillKeepsFamilies(st, after, OfGrant(user, client));
    case _ => assert after.tokens == st.tokens; SameTokensKeepFamilies(st, after);
  }

  lemma SameTokensKeepFamilies(st: Store, after: Store)
    requires Families(st) && after.tokens == st.tokens && st.next <= after.next
    ensures Families(after) && Older(st, after)
  {
    assert forall a, b | SameFamily(after, a, b) :: SameFamily(st, a, b);
  }

  lemma {:induction false} RunKeepsFamilies(st: Store, calls: seq<Call>)
    requires Families(st)
    ensures Families(Run(st, calls)) && Older(st, Run(st, calls))
    decreases calls
  {
    if calls != [] {
      PerformKeepsFamilies(st, calls[0]);
      RunKeepsFamilies(Perform(st, calls[0]), calls[1..]);
    }
  }

  /** Over every run of every call: one user, client and scope per family, and one live token at most. */
  lemma OneLiveTokenPerFamily(calls: seq<Call>, a: nat, b: nat)
    requires SameFamily(Run(EMPTY, calls), a, b)
    ensures var tokens := Run(EMPTY, calls).tokens;
            && tokens[a].user == tokens[b].user && tokens[a].client == tokens[b].client && tokens[a].scope == tokens[b].scope
            && (!tokens[a].revoked && !tokens[b].revoked ==> a == b)
  {
    RunKeepsFamilies(EMPTY, calls);
  }

  /** A family without a live token gets no token at all from any call. */
  lemma PerformKeepsDead(st: Store, call: Call, family: nat)
    requires Families(st) && Dead(st, family)
    ensures Dead(Perform(st, call), family)
    ensures forall t | t in Perform(st, call).tokens && Perform(st, call).tokens[t].family == family :: t in st.tokens
  {
    PerformKeepsFamilies(st, call);
    if call.TokenRefresh? {
      var (after, r) := RefreshGrant(st, call.secret, call.client, call.identifier, call.now);
      if r.Ok? {
        assert st.tokens[call.secret].family != family;
      }
    } else if !call.CodeGrant? {
      assert Perform(st, call).tokens.Keys == st.tokens.Keys;
    }
  }

  lemma {:induction false} RunKeepsDead(st: Store, calls: seq<Call>, family: nat)
    requires Families(st) && Dead(st, family)
    ensures Dead(Run(st, calls), family)
    ensures forall t | t in Run(st, calls).tokens && Run(st, calls).tokens[t].family == family :: t in st.tokens
    decreases calls
  {
    if calls != [] {
      var st1 := Perform(st, calls[0]);
      PerformKeepsFamilies(st, calls[0]);
      PerformKeepsDead(st, calls[0], family);
      RunKeepsFamilies(st1, calls[1..]);
      RunKeepsDead(st1, calls[1..], family);
    }
  }

  /**
   * Reuse detection: once any revoked token is presented by its own client, its family has no
   * live token, and whatever happens afterwards never adds one. Other families keep theirs.
   */
  lemma ReuseKillsTheFamily(before: seq<Call>, secret: nat, client: nat, identifier: string, now: int, after: seq<Call>)
    requires var st := Run(EMPTY, before);
             secret in st.tokens && st.tokens[secret].revoked && st.tokens[secret].client == client
    ensures var st := Run(EMPTY, before);
            var (killed, r) := RefreshGrant(st, secret, client, identifier, now);
            var family := st.tokens[secret].family;
            && r == Err(InvalidToken)
            && killed.devices == st.devices && killed.sessions == st.sessions && killed.tokens.Keys == st.tokens.Keys
            && (forall t | t in st.tokens && st.tokens[t].family != family :: killed.tokens[t] == st.tokens[t])
            && Dead(Run(killed, after), family)
            && forall t | t in Run(killed, after).tokens && Run(killed, after).tokens[t].family == family :: t in st.tokens
  {
    var st := Run(EMPTY, before);
    RunKeepsFamilies(EMPTY, before);
    RefreshKeepsFamilies(st, secret, client, identifier, now);
    RunKeepsDead(RefreshGrant(st, secret, client, identifier, now).0, after, st.tokens[secret].family);
  }

  /** Single use: a secret that was exchanged once is refused at every later moment, and kills its family. */
  lemma ExchangedOnce(before: seq<Call>, secret: nat, client: nat, i1: string, t1: int, between: seq<Call>, i2: string, t2: int)
    requires RefreshGrant(Run(EMPTY, before), secret, client, i1, t1).1.Ok?
    ensures var st := Run(RefreshGrant(Run(EMPTY, before), secret, client, i1, t1).0, between);
            && secret in st.tokens && st.tokens[secret].revoked
            && RefreshGrant(st, secret, client, i2, t2).1 == Err(InvalidToken)
            && Dead(RefreshGrant(st, secret, client, i2, t2).0, st.tokens[secret].family)
  {
    RunKeepsFamilies(EMPTY, before);
    var st0 := Run(EMPTY, before);
    RefreshKeepsFamilies(st0, secret, client, i1, t1);
    RunKeepsFamilies(RefreshGrant(st0, secret, client, i1, t1).0, between);
  }

  /**
   * What a good refresh does: the presented token dies, its family's one live token is the new one,
   * for the same user, client and scope. Other tokens and all sessions stay as they are.
   */
  lemma RefreshMovesTheFamilyOn(st: Store, secret: nat, client: nat, identifier: string, now: int)
    requires Families(st)
    ensures var (after, r) := RefreshGrant(st, secret, client, identifier, now);
            && (r.Ok? <==> secret in st.tokens && st.tokens[secret].client == client
                           && !st.tokens[secret].revoked && now <= st.tokens[secret].expiresAt)
            && (r.Ok? ==>
                  && r.value !in st.tokens && SameFamily(after, secret, r.value)
                  && after.tokens[r.value].user == st.tokens[secret].user && after.tokens[r.value].client == client
                  && after.tokens[r.value].scope == st.tokens[secret].scope
                  && after.tokens[r.value].expiresAt == now + 2_592_000_000
                  && after.tokens[r.value].device == (if identifier == "" then None else Some(Device(st.tokens[secret].user, identifier)))
                  && (forall t | t in st.tokens && t != secret :: after.tokens[t] == st.tokens[t])
                  && after.sessions == st.sessions
                  && forall t | SameFamily(after, secret, t) :: after.tokens[t].revoked <==> t != r.value)
  {
    var (after, r) := RefreshGrant(st, secret, client, identifier, now);
    if r.Ok? {
      forall t | SameFamily(after, secret, t) ensures after.tokens[t].revoked <==> t != r.value {
        assert t != r.value ==> SameFamily(st, secret, t);
      }
    }
  }

  // ---------------------------------------------------------------- device tags

  ghost predicate Tagged(st: Store, device: Option<Device>, user: nat) {
    device.Some? ==> device.value in st.devices && !st.devices[device.value] && device.value.owner == user
  }

  /** Whatever is live and tagged with a device is tagged with a trusted device of its own user. */
  ghost predicate Tags(st: Store) {
    && (forall s | s in st.sessions && !st.sessions[s].revoked :: Tagged(st, st.sessions[s].device, st.sessions[s].user))
    && (forall t | t in st.tokens && !st.tokens[t].revoked :: Tagged(st, st.tokens[t].device, st.tokens[t].user))
  }

  lemma RevocationKeepsTags(st: Store, call: Call)
    requires Tags(st) && (call.DeviceRevocation? || call.SignOutAll? || call.GrantRevocation? || call.Logout?)
    ensures Tags(Perform(st, call))
  {
  }

  lemma TokenCallKeepsTags(st: Store, call: Call)
    requires Tags(st) && (call.CodeGrant? || call.TokenRefresh?)
    ensures Tags(Perform(st, call))
  {
  }

  lemma PerformKeepsTags(st: Store, call: Call)
    requires Tags(st)
    ensures Tags(Perform(st, call))
  {
    match call
    case CodeGrant(_, _, _, _, _) => TokenCallKeepsTags(st, call);
    case TokenRefresh(_, _, _, _) => TokenCallKeepsTags(st, call);
    case Login(_, _, _) =>
    case SessionRefresh(_, _, _) =>
    case _ => RevocationKeepsTags(st, call);
  }

  lemma {:induction false} RunKeepsTags(st: Store, calls: seq<Call>)
    requires Tags(st)
    ensures Tags(Run(st, calls))
    decreases calls
  {
    if calls != [] {
      PerformKeepsTags(st, calls[0]);
      RunKeepsTags(Perform(st, calls[0]), calls[1..]);
    }
  }

  /**
   * After "sign out all devices", on top of any run: no session of the user is live, and no
   * session or token of anyone on any device of the user is, devices revoked earlier included.
   */
  lemma SignOutAllReachesEveryDevice(calls: seq<Call>, user: nat)
    ensures var st := RevokeAllSessions(Run(EMPTY, calls), user);
            && (forall s | s in st.sessions && st.sessions[s].user == user :: st.sessions[s].revoked)
            && (forall d | d in st.devices && d.owner == user :: st.devices[d])
            && (forall t | t in st.tokens && st.tokens[t].device.Some? && st.tokens[t].device.value.owner == user ::
                  st.tokens[t].revoked)
            && (forall s | s in st.sessions && st.sessions[s].device.Some? && st.sessions[s].device.value.owner == user ::
                  st.sessions[s].revoked)
  {
    RunKeepsTags(EMPTY, calls);
  }

  /**
   * Exactly which of the user's refresh tokens outlive it: the live ones that carry no device.
   * So the call signs the user out everywhere precisely when every live token is tagged.
   */
  lemma UntaggedTokensSurvive(calls: seq<Call>, user: nat, t: nat)
    requires t in Run(EMPTY, calls).tokens && Run(EMPTY, calls).tokens[t].user == user
    ensures var before := Run(EMPTY, calls).tokens[t];
            var after := RevokeAllSessions(Run(EMPTY, calls), user).tokens;
            t in after && (!after[t].revoked <==> !before.revoked && before.device == None)
  {
    RunKeepsTags(EMPTY, calls);
  }

  /** Other users keep what they have. */
  lemma SignOutAllSparesOthers(calls: seq<Call>, user: nat)
    ensures var before := Run(EMPTY, calls);
            var after := RevokeAllSessions(before, user);
            && (forall s | s in before.sessions && before.sessions[s].user != user && !before.sessions[s].revoked ::
                  s in after.sessions && after.sessions[s] == before.sessions[s])
            && (forall t | t in before.tokens && before.tokens[t].user != user && !before.tokens[t].revoked ::
                  t in after.tokens && after.tokens[t] == before.tokens[t])
            && (forall d | d in before.devices && d.owner != user :: d in after.devices && after.devices[d] == before.devices[d])
  {
    RunKeepsTags(EMPTY, calls);
  }

  /** A device that is trusted again does not bring its old refresh tokens back. */
  lemma RevokedStaysRevoked(before: seq<Call>, after: seq<Call>, t: nat)
    requires t in Run(EMPTY, before).tokens && Run(EMPTY, before).tokens[t].revoked
    ensures t in Run(Run(EMPTY, before), after).tokens && Run(Run(EMPTY, before), after).tokens[t].revoked
  {
    RunKeepsFamilies(EMPTY, before);
    RunKeepsFamilies(Run(EMPTY, before), after);
  }

  // ---------------------------------------------------------------- sessions

  /** Sessions are numbered in the order they are issued. */
  ghost predicate Numbered(st: Store) {
    forall s | s in st.sessions :: s < st.next
  }

  /** Later tables keep every session row; only its revocation can change, and only one way. */
  ghost predicate SessionsKept(before: Store, after: Store) {
    forall s | s in before.sessions ::
      && s in after.sessions
      && after.sessions[s].(revoked := false) == before.sessions[s].(revoked := false)
      && (before.sessions[s].revoked ==> after.sessions[s].revoked)
  }

  lemma PerformKeepsSessions(st: Store, call: Call)
    requires Numbered(st)
    ensures Numbered(Perform(st, call)) && SessionsKept(st, Perform(st, call))
  {
  }

  lemma {:induction false} RunKeepsSessions(st: Store, calls: seq<Call>)
    requires Numbered(st)
    ensures Numbered(Run(st, calls)) && SessionsKept(st, Run(st, calls))
    decreases calls
  {
    if calls != [] {
      PerformKeepsSessions(st, calls[0]);
      RunKeepsSessions(Perform(st, calls[0]), calls[1..]);
    }
  }

  /**
   * After any run, a rotation succeeds exactly for the secret of an unrevoked session that has not
   * run out. It revokes that session and adds one for the same user, on the device it was made
   * from, for thirty days; every other session and every token stays as it is.
   */
  lemma RotationExactly(calls: seq<Call>, secret: nat, identifier: string, now: int)
    ensures var st := Run(EMPTY, calls);
            var (after, r) := RotateSession(st, secret, identifier, now);
            && (r.Ok? <==> secret in st.sessions && !st.sessions[secret].revoked && now <= st.sessions[secret].expiresAt)
            && (r.Err? ==> after == st)
            && (r.Ok? ==>
                  && r.value !in st.sessions && after.sessions.Keys == st.sessions.Keys + {r.value}
                  && after.sessions[secret] == st.sessions[secret].(revoked := true)
                  && after.sessions[r.value].user == st.sessions[secret].user && !after.sessions[r.value].revoked
                  && after.sessions[r.value].expiresAt == now + 2_592_000_000
                  && after.sessions[r.value].device
                     == (if identifier == "" then None else Some(Device(st.sessions[secret].user, identifier)))
                  && (forall s | s in st.sessions && s != secret :: after.sessions[s] == st.sessions[s])
                  && after.tokens == st.tokens)
  {
    RunKeepsSessions(EMPTY, calls);
  }

  /** A revoked session's secret is refused at every later moment, and presenting it changes nothing. */
  lemma RevokedSessionIsSpent(st: Store, between: seq<Call>, secret: nat, identifier: string, now: int)
    requires Numbered(st) && secret in st.sessions && st.sessions[secret].revoked
    ensures var later := Run(st, between);
            && secret in later.sessions && later.sessions[secret].revoked
            && RotateSession(later, secret, identifier, now) == (later, Err(InvalidToken))
  {
    RunKeepsSessions(st, between);
  }

  /** Single use: a session secret that was rotated once is revoked and refused ever after. */
  lemma SessionRotatedOnce(before: seq<Call>, secret: nat, i1: string, t1: int, between: seq<Call>, i2: string, t2: int)
    requires RotateSession(Run(EMPTY, before), secret, i1, t1).1.Ok?
    ensures var later := Run(RotateSession(Run(EMPTY, before), secret, i1, t1).0, between);
            && secret in later.sessions && later.sessions[secret].revoked
            && RotateSession(later, secret, i2, t2) == (later, Err(InvalidToken))
  {
    RunKeepsSessions(EMPTY, before);
    RotationExactly(before, secret, i1, t1);
    PerformKeepsSessions(Run(EMPTY, before), SessionRefresh(secret, i1, t1));
    RevokedSessionIsSpent(RotateSession(Run(EMPTY, before), secret, i1, t1).0, between, secret, i2, t2);
  }

  /** Signing out ends the session of the secret presented, for good, and nothing else. */
  lemma LogoutEndsOneSession(before: seq<Call>, secret: nat, between: seq<Call>, identifier: string, now: int)
    ensures var st := Run(EMPTY, before);
            var after := Perform(st, Logout(secret));
            && after.sessions.Keys == st.sessions.Keys
            && (forall s | s in st.sessions && s != secret :: after.sessions[s] == st.sessions[s])
            && after.devices == st.devices && after.tokens == st.tokens
            && (secret in st.sessions ==>
                  && after.sessions[secret] == st.sessions[secret].(revoked := true)
                  && RotateSession(Run(after, between), secret, identifier, now).1 == Err(InvalidToken))
  {
    RunKeepsSessions(EMPTY, before);
    var st := Run(EMPTY, before);
    PerformKeepsSessions(st, Logout(secret));
    if secret in st.sessions {
      RevokedSessionIsSpent(Perform(st, Logout(secret)), between, secret, identifier, now);
    }
  }

  /** The user's sessions that are not revoked. */
  ghost function LiveSessions(st: Store, user: nat): set<nat> {
    set s | s in st.sessions && st.sessions[s].user == user && !st.sessions[s].revoked
  }

  ghost function Logins(calls: seq<Call>, user: nat): nat
    decreases calls
  {
    if calls == [] then 0 else (if calls[0].Login? && calls[0].user == user then 1 else 0) + Logins(calls[1..], user)
  }

  lemma LoginCountsSessions(st: Store, u: nat, identifier: string, now: int, user: nat)
    requires Numbered(st)
    ensures LiveSessions(IssueSession(st, u, identifier, now), user) == LiveSessions(st, user) + if u == user then {st.next} else {}
  {
  }

  lemma RotationCountsSessions(st: Store, secret: nat, identifier: string, now: int, user: nat)
    requires Numbered(st) && RotateSession(st, secret, identifier, now).1.Ok?
    ensures |LiveSessions(RotateSession(st, secret, identifier, now).0, user)| == |LiveSessions(st, user)|
  {
    var spent := st.(sessions := st.sessions[secret := st.sessions[secret].(revoked := true)]);
    var was := LiveSessions(st, user);
    LoginCountsSessions(spent, st.sessions[secret].user, identifier, now, user);
    if st.sessions[secret].user == user {
      assert LiveSessions(spent, user) == was - {secret} && secret in was && st.next !in was;
    } else {
      assert LiveSessions(spent, user) == was;
    }
  }

  /** No other call issues a session. */
  lemma OtherCallsIssueNone(st: Store, call: Call, user: nat)
    requires Numbered(st) && !call.Login? && !call.SessionRefresh?
    ensures LiveSessions(Perform(st, call), user) <= LiveSessions(st, user)
  {
    PerformKeepsSessions(st, call);
    assert Perform(st, call).sessions.Keys == st.sessions.Keys;
  }

  lemma PerformCountsSessions(st: Store, call: Call, user: nat)
    requires Numbered(st)
    ensures |LiveSessions(Perform(st, call), user)|
         <= |LiveSessions(st, user)| + if call.Login? && call.user == user then 1 else 0
  {
    match call {
      case Login(u, identifier, now) => LoginCountsSessions(st, u, identifier, now, user);
      case SessionRefresh(secret, identifier, now) =>
        if RotateSession(st, secret, identifier, now).1.Ok? {
          RotationCountsSessions(st, secret, identifier, now, user);
        }
      case _ =>
        OtherCallsIssueNone(st, call, user);
        Smaller(LiveSessions(Perform(st, call), user), LiveSessions(st, user));
    }
  }

  lemma Smaller(a: set<nat>, b: set<nat>)
    requires a <= b
    ensures |a| <= |b|
  {
    assert b == a + (b - a);
  }

  lemma {:induction false} RunCountsSessions(st: Store, calls: seq<Call>, user: nat)
    requires Numbered(st)
    ensures |LiveSessions(Run(st, calls), user)| <= |LiveSessions(st, user)| + Logins(calls, user)
    decreases calls
  {
    if calls != [] {
      PerformKeepsSessions(st, calls[0]);
      PerformCountsSessions(st, calls[0], user);
      RunCountsSessions(Perform(st, calls[0]), calls[1..], user);
    }
  }

  /** However often secrets are rotated, a user never has more unrevoked sessions than sign-ins. */
  lemma OneSessionPerLogin(calls: seq<Call>, user: nat)
    ensures |LiveSessions(Run(EMPTY, calls), user)| <= Logins(calls, user)
  {
    RunCountsSessions(EMPTY, calls, user);
    assert LiveSessions(EMPTY, user) == {};
  }

  // ---------------------------------------------------------------- what the other calls touch

  /** A refused refresh changes something only when a revoked token is presented by its own client. */
  lemma RefusedRefresh(st: Store, secret: nat, client: nat, identifier: string, now: int)
    requires RefreshGrant(st, secret, client, identifier, now).1.Err?
    ensures RefreshGrant(st, secret, client, identifier, now).1 == Err(InvalidToken)
    ensures !(secret in st.tokens && st.tokens[secret].client == client && st.tokens[secret].revoked) ==>
              RefreshGrant(st, secret, client, identifier, now).0 == st
  {
  }

  /** A token set bought with a code starts a family of its own. */
  lemma CodeGrantStartsFamily(calls: seq<Call>, user: nat, client: nat, scope: string, identifier: string, now: int)
    ensures var st := Run(EMPTY, calls);
            var after := IssueToken(st, user, client, scope, None, identifier, now);
            var device := if identifier == "" then None else Some(Device(user, identifier));
            && st.next !in st.tokens && after.tokens.Keys == st.tokens.Keys + {st.next}
            && (forall t | t in st.tokens :: after.tokens[t] == st.tokens[t] && st.tokens[t].family != after.tokens[st.next].family)
            && after.tokens[st.next] == Token(user, client, scope, after.tokens[st.next].family, device, now + 2_592_000_000, false)
            && after.sessions == st.sessions
            && (device == None ==> after.devices == st.devices)
            && (device.Some? ==> after.devices == st.devices[device.value := false])
  {
    RunKeepsFamilies(EMPTY, calls);
  }

  /** Revoking a device takes an owner and a trusted device, and ends exactly the sessions and tokens on it. */
  lemma DeviceRevocationExactly(st: Store, user: nat, device: Device)
    ensures var (after, r) := RevokeDevice(st, user, device);
            && (r.Ok? <==> device in st.devices && device.owner == user && !st.devices[device])
            && (r.Err? ==> r == Err(NotFound) && after == st)
            && (r.Ok? ==>
                  && after.devices == st.devices[device := true]
                  && after.sessions.Keys == st.sessions.Keys && after.tokens.Keys == st.tokens.Keys
                  && (forall s | s in st.sessions ::
                        after.sessions[s] == if st.sessions[s].device == Some(device) then st.sessions[s].(revoked := true) else st.sessions[s])
                  && (forall t | t in st.tokens ::
                        after.tokens[t] == if st.tokens[t].device == Some(device) then st.tokens[t].(revoked := true) else st.tokens[t]))
  {
  }

  /** A device the user has and trusts. */
  predicate TrustedBy(st: Store, user: nat, device: Option<Device>) {
    device.Some? && device.value.owner == user && device.value in st.devices && !st.devices[device.value]
  }

  /** Revoking all devices leaves the user no trusted one, and ends exactly the sessions and tokens on those there were. */
  lemma AllDevicesRevocationExactly(st: Store, user: nat)
    ensures var after := RevokeAllDevices(st, user);
            && after.devices.Keys == st.devices.Keys && after.sessions.Keys == st.sessions.Keys && after.tokens.Keys == st.tokens.Keys
            && (forall d | d in st.devices :: after.devices[d] == (st.devices[d] || d.owner == user))
            && (forall s | s in st.sessions ::
                  after.sessions[s] == if TrustedBy(st, user, st.sessions[s].device) then st.sessions[s].(revoked := true) else st.sessions[s])
            && (forall t | t in st.tokens ::
                  after.tokens[t] == if TrustedBy(st, user, st.tokens[t].device) then st.tokens[t].(revoked := true) else st.tokens[t])
  {
  }

  /** Disconnecting an app ends exactly this user's refresh tokens of this client. */
  lemma GrantRevocationExactly(st: Store, user: nat, client: nat)
    ensures var after := RevokeGrant(st, user, client);
            && after.sessions == st.sessions && after.devices == st.devices && after.tokens.Keys == st.tokens.Keys
            && forall t | t in st.tokens ::
                 after.tokens[t] == if st.tokens[t].user == user && st.tokens[t].client == client
                                    then st.tokens[t].(revoked := true) else st.tokens[t]
  {
  }
}
