/**
 * Authorization codes with PKCE, from the consent that creates a code to the token set it buys.
 * Hash functions are parameters: `hex` for client secrets, `b64` for S256 challenges (section 4.6
 * of RFC 7636). An absent optional string is "", which the code treats the same way.
 */
module AuthCode {
  import opened Wrappers
  import opened Scopes
  import Grants

  datatype Kind = Public | Confidential | AiAgent

  datatype Client = Client(kind: Kind, secretHash: string, redirectUris: seq<string>, allowedScopes: seq<string>,
                           active: bool)

  /** What the user agreed to; `challenge` is "" when the request did not use PKCE. */
  datatype Consent = Consent(user: nat, client: nat, redirectUri: string, scope: string, challenge: string)

  datatype Code = Code(consent: Consent, expiresAt: int, used: bool)

  datatype Hashes = Hashes(hex: string -> string, b64: string -> string)

  datatype ConsentForm = ConsentForm(user: nat, client: nat, redirectUri: string, scope: string, challenge: string,
                                     challengeMethod: string, approve: bool)

  datatype TokenForm = TokenForm(client: nat, secret: string, code: nat, redirectUri: string, verifier: string)

  datatype Error = BadClient | BadRequest | Denied | UnknownCode | Expired | WrongClient | WrongRedirect | Used | PkceFailed

  const AUTH_CODE_TTL_MS := 60_000

  type Clients = map<nat, Client>
  type Codes = map<nat, Code>

  // ---------------------------------------------------------------- checks

  predicate Active(clients: Clients, id: nat) {
    id in clients && clients[id].active
  }

  /** A PUBLIC client has no secret to check; any other needs the matching one. */
  predicate SecretOk(h: Hashes, client: Client, secret: string) {
    client.kind == Public || (client.secretHash != "" && secret != "" && client.secretHash == h.hex(secret))
  }

  predicate Authenticated(h: Hashes, clients: Clients, form: TokenForm) {
    Active(clients, form.client) && SecretOk(h, clients[form.client], form.secret)
  }

  predicate ScopeAllowed(scope: string, allowed: seq<string>) {
    IsSubsetScope(ParseScope(scope), allowed)
  }

  function CheckConsent(clients: Clients, form: ConsentForm): Result<Consent, Error> {
    if !Active(clients, form.client) then Err(BadClient)
    else if form.redirectUri !in clients[form.client].redirectUris then Err(BadRequest)
    else if !ScopeAllowed(form.scope, clients[form.client].allowedScopes) then Err(BadRequest)
    else if form.challenge != "" && form.challengeMethod == "" then Err(BadRequest)
    else if !form.approve then Err(Denied)
    else Ok(Consent(form.user, form.client, form.redirectUri, form.scope, form.challenge))
  }

  /** The checks of `redeem` before its update. */
  function CheckCode(codes: Codes, form: TokenForm, now: int): Result<Code, Error> {
    if form.code !in codes then Err(UnknownCode)
    else
      var record := codes[form.code];
      if record.expiresAt < now then Err(Expired)
      else if record.consent.client != form.client then Err(WrongClient)
      else if record.consent.redirectUri != form.redirectUri then Err(WrongRedirect)
      else Ok(record)
  }

  /** The PKCE checks, made after the code has been spent. */
  predicate PkceOk(h: Hashes, kind: Kind, challenge: string, verifier: string) {
    if challenge == "" then kind != Public else verifier != "" && h.b64(verifier) == challenge
  }

  // ---------------------------------------------------------------- whole calls

  function Grant(codes: Codes, code: nat, consent: Consent, now: int): Codes {
    codes[code := Code(consent, now + AUTH_CODE_TTL_MS, false)]
  }

  /** The consent a code buys tokens for, or why it buys nothing. A code that gets past `redeem` is spent either way. */
  function Exchange(h: Hashes, clients: Clients, codes: Codes, form: TokenForm, now: int): (Codes, Result<Consent, Error>) {
    if !Authenticated(h, clients, form) then (codes, Err(BadClient))
    else if form.redirectUri == "" then (codes, Err(BadRequest))
    else
      match CheckCode(codes, form, now)
      case Err(e) => (codes, Err(e))
      case Ok(record) =>
        if record.used then (codes, Err(Used))
        else
          (codes[form.code := record.(used := true)],
           if PkceOk(h, clients[form.client].kind, record.consent.challenge, form.verifier) then Ok(record.consent)
           else Err(PkceFailed))
  }

  class OAuthServer {
    var clients: Clients
    var codes: Codes
    var nextCode: nat
    var grants: Grants.Table

    /** `consent`: the stored grant is widened, and a code goes back with the redirect. */
    method GiveConsent(form: ConsentForm, now: int) returns (r: Result<nat, Error>)
      modifies this`codes, this`nextCode, this`grants
      ensures r.Ok? <==>
                && form.client in clients && clients[form.client].active && form.redirectUri in clients[form.client].redirectUris
                && (forall token | token in ParseScope(form.scope) :: token in clients[form.client].allowedScopes)
                && (form.challenge != "" ==> form.challengeMethod != "") && form.approve
      ensures r.Err? ==> r == Err(CheckConsent(clients, form).error) && unchanged(this)
      ensures r.Ok? ==>
                && r == Ok(old(nextCode)) && nextCode == old(nextCode) + 1
                && codes == old(codes)[old(nextCode) := Code(Consent(form.user, form.client, form.redirectUri, form.scope, form.challenge),
                                                             now + 60_000, false)]
                && grants == Grants.Upsert(old(grants), Grants.Key(form.user, form.client), form.scope)
    {
      if form.client !in clients || !clients[form.client].active {
        return Err(BadClient);
      }
      var client := clients[form.client];
      if form.redirectUri !in client.redirectUris {
        return Err(BadRequest);
      }
      if !IsSubsetScope(ParseScope(form.scope), client.allowedScopes) {
        return Err(BadRequest);
      }
      if form.challenge != "" && form.challengeMethod == "" {
        return Err(BadRequest);
      }
      if !form.approve {
        return Err(Denied);
      }
      grants := Grants.Upsert(grants, Grants.Key(form.user, form.client), form.scope);
      r := Ok(nextCode);
      var consent := Consent(form.user, form.client, form.redirectUri, form.scope, form.challenge);
      codes := codes[nextCode := Code(consent, now + AUTH_CODE_TTL_MS, false)];
      nextCode := nextCode + 1;
    }

    method Redeem(form: TokenForm, now: int) returns (r: Result<Code, Error>)
      modifies this`codes
      ensures r.Ok? <==> CheckCode(old(codes), form, now).Ok? && !old(codes)[form.code].used
      ensures r.Ok? ==> r.value == old(codes)[form.code] && codes == old(codes)[form.code := r.value.(used := true)]
      ensures r.Err? ==> codes == old(codes)
      ensures r.Err? ==> r == match CheckCode(old(codes), form, now) case Err(e) => Err(e) case Ok(_) => Err(Used)
    {
      if form.code !in codes {
        return Err(UnknownCode);
      }
      var record := codes[form.code];
      if record.expiresAt < now {
        return Err(Expired);
      }
      if record.consent.client != form.client {
        return Err(WrongClient);
      }
      if record.consent.redirectUri != form.redirectUri {
        return Err(WrongRedirect);
      }
      if codes[form.code].used {
        return Err(Used);
      }
      codes := codes[form.code := record.(used := true)];
      r := Ok(record);
    }

    method HandleAuthorizationCodeGrant(h: Hashes, form: TokenForm, now: int) returns (r: Result<Consent, Error>)
      modifies this`codes
      ensures (codes, r) == Exchange(h, clients, old(codes), form, now)
    {
      if form.client !in clients || !clients[form.client].active || !SecretOk(h, clients[form.client], form.secret) {
        return Err(BadClient);
      }
      if form.redirectUri == "" {
        return Err(BadRequest);
      }
      var record :- Redeem(form, now);
      var challenge := record.consent.challenge;
      if clients[form.client].kind == Public && challenge == "" {
        return Err(PkceFailed);
      }
      if challenge != "" {
        if form.verifier == "" || h.b64(form.verifier) != challenge {
          return Err(PkceFailed);
        }
      }
      r := Ok(record.consent);
    }
  }

  // ---------------------------------------------------------------- interleaved calls

  /** A call in flight, named after what it does next; `client` is the row the token call authenticated. */
  datatype Flight =
    | Inserting(consent: Consent)
    | Reading(form: TokenForm, client: Client)
    | Spending(form: TokenForm, client: Client, record: Code, readAt: int)
    | Issuing(form: TokenForm, client: Client, record: Code, readAt: int)

  /** A token set that was issued, to which client, for what, and when its code ran out and was read. */
  datatype Issue = Issue(form: TokenForm, client: Client, consent: Consent, expiresAt: int, readAt: int)

  /** A consent, with the client it was given to as it was at that moment. */
  datatype Permit = Permit(consent: Consent, client: Client)

  datatype State = State(clients: Clients, codes: Codes, flights: map<nat, Flight>, issued: seq<Issue>, given: set<Permit>)

  /** `Edit` is an admin changing what a client may do; its kind and secret are never edited. */
  datatype Event =
    | BeginConsent(c: nat, cform: ConsentForm)
    | BeginToken(c: nat, form: TokenForm)
    | Next(c: nat, newCode: nat, now: int)
    | Edit(client: nat, redirectUris: seq<string>, allowedScopes: seq<string>, active: bool)

  function Advance(h: Hashes, s: State, c: nat, newCode: nat, now: int): State
    requires c in s.flights
  {
    var done := s.(flights := s.flights - {c});
    match s.flights[c]
    case Inserting(consent) => if newCode in s.codes then s else done.(codes := Grant(s.codes, newCode, consent, now))
    case Reading(form, client) =>
      (match CheckCode(s.codes, form, now)
       case Err(_) => done
       case Ok(record) => s.(flights := s.flights[c := Spending(form, client, record, now)]))
    case Spending(form, client, record, readAt) =>
      if form.code !in s.codes || s.codes[form.code].used then done
      else
        var spent := done.(codes := s.codes[form.code := s.codes[form.code].(used := true)]);
        if PkceOk(h, client.kind, record.consent.challenge, form.verifier)
        then spent.(flights := s.flights[c := Issuing(form, client, record, readAt)])
        else spent
    case Issuing(form, client, record, readAt) =>
      done.(issued := s.issued + [Issue(form, client, record.consent, record.expiresAt, readAt)])
  }

  function Step(h: Hashes, s: State, e: Event): State {
    match e
    case BeginConsent(c, form) =>
      (match CheckConsent(s.clients, form)
       case Err(_) => s
       case Ok(consent) =>
         if c in s.flights then s
         else s.(flights := s.flights[c := Inserting(consent)],
                 given := s.given + {Permit(consent, s.clients[form.client])}))
    case BeginToken(c, form) =>
      if c !in s.flights && Authenticated(h, s.clients, form) && form.redirectUri != ""
      then s.(flights := s.flights[c := Reading(form, s.clients[form.client])]) else s
    case Next(c, newCode, now) => if c in s.flights then Advance(h, s, c, newCode, now) else s
    case Edit(client, redirectUris, allowedScopes, active) =>
      if client !in s.clients then s
      else
        var edited := s.clients[client].(redirectUris := redirectUris, allowedScopes := allowedScopes, active := active);
        s.(clients := s.clients[client := edited])
  }

  function Run(h: Hashes, s: State, events: seq<Event>): State
    decreases events
  {
    if events == [] then s else Run(h, Step(h, s, events[0]), events[1..])
  }

  function Fresh(clients: Clients): State {
    State(clients, map[], map[], [], {})
  }

  /** The consent was given to an active client, for scopes it was allowed and a redirect URI it had registered then. */
  ghost predicate Given(given: set<Permit>, consent: Consent) {
    exists client :: Permit(consent, client) in given && Proper(consent, client)
  }

  predicate Proper(consent: Consent, client: Client) {
    client.active && ScopeAllowed(consent.scope, client.allowedScopes) && consent.redirectUri in client.redirectUris
  }

  /** The call read the code in time, and it is still the one it read. */
  predicate ReadInTime(codes: Codes, code: nat, expiresAt: int, readAt: int) {
    code in codes && codes[code].expiresAt == expiresAt && readAt <= expiresAt
  }

  /** The token request fits the consent the code stands for. */
  predicate Fits(form: TokenForm, consent: Consent) {
    consent.client == form.client && consent.redirectUri == form.redirectUri
  }

  /** The client a token call went on with: active, of the kind and with the secret registered, which the call knew unless it is PUBLIC. */
  ghost predicate Proven(h: Hashes, s: State, form: TokenForm, client: Client) {
    && form.client in s.clients && client.active
    && s.clients[form.client].kind == client.kind && s.clients[form.client].secretHash == client.secretHash
    && (client.kind != Public ==> client.secretHash != "" && form.secret != "" && h.hex(form.secret) == client.secretHash)
  }

  ghost predicate FlightOk(h: Hashes, s: State, f: Flight) {
    match f
    case Inserting(consent) => Given(s.given, consent)
    case Reading(form, client) => Proven(h, s, form, client)
    case Spending(form, client, record, readAt) =>
      && Proven(h, s, form, client)
      && ReadInTime(s.codes, form.code, record.expiresAt, readAt)
      && form.code in s.codes && s.codes[form.code].consent == record.consent && Fits(form, record.consent)
    case Issuing(form, client, record, readAt) =>
      && Proven(h, s, form, client)
      && ReadInTime(s.codes, form.code, record.expiresAt, readAt)
      && form.code in s.codes && s.codes[form.code].used
      && s.codes[form.code].consent == record.consent && Fits(form, record.consent)
      && PkceOk(h, client.kind, record.consent.challenge, form.verifier)
  }

  ghost predicate IssueOk(h: Hashes, s: State, i: Issue) {
    && Proven(h, s, i.form, i.client)
    && i.form.code in s.codes && s.codes[i.form.code].used
    && ReadInTime(s.codes, i.form.code, i.expiresAt, i.readAt)
    && s.codes[i.form.code].consent == i.consent && Fits(i.form, i.consent)
    && PkceOk(h, i.client.kind, i.consent.challenge, i.form.verifier)
  }

  /** Nobody else holds or has used the code that flight `c` is about to be paid for. */
  ghost predicate SoleHolder(s: State, c: nat)
    requires c in s.flights
  {
    s.flights[c].Issuing? ==>
      && (forall d | d in s.flights && s.flights[d].Issuing? && s.flights[d].form.code == s.flights[c].form.code :: d == c)
      && (forall i | 0 <= i < |s.issued| :: s.issued[i].form.code != s.flights[c].form.code)
  }

  ghost predicate IssuedOnce(s: State) {
    forall i, j | 0 <= i < j < |s.issued| :: s.issued[i].form.code != s.issued[j].form.code
  }

  /** What holds of one row, call or token set at a time. */
  ghost predicate Checked(h: Hashes, s: State) {
    && (forall code | code in s.codes :: Given(s.given, s.codes[code].consent))
    && (forall c | c in s.flights :: FlightOk(h, s, s.flights[c]))
    && (forall i | 0 <= i < |s.issued| :: IssueOk(h, s, s.issued[i]))
  }

  ghost predicate Inv(h: Hashes, s: State) {
    Checked(h, s) && (forall c | c in s.flights :: SoleHolder(s, c)) && IssuedOnce(s)
  }

  /** Nothing is taken back: clients keep their kind and secret, codes their consent and their mark, consents stay given. */
  ghost predicate Grows(s: State, t: State) {
    && (forall c | c in s.clients :: c in t.clients && t.clients[c].kind == s.clients[c].kind && t.clients[c].secretHash == s.clients[c].secretHash)
    && (forall k | k in s.codes ::
          && k in t.codes && t.codes[k].consent == s.codes[k].consent && t.codes[k].expiresAt == s.codes[k].expiresAt
          && (s.codes[k].used ==> t.codes[k].used))
    && s.given <= t.given
  }

  lemma GrowthKeepsGiven(s: State, t: State, consent: Consent)
    requires Grows(s, t) && Given(s.given, consent)
    ensures Given(t.given, consent)
  {
    var client :| Permit(consent, client) in s.given && Proper(consent, client);
    assert Permit(consent, client) in t.given;
  }

  lemma GrowthKeepsChecks(h: Hashes, s: State, t: State)
    requires Grows(s, t) && Checked(h, s)
    ensures forall code | code in s.codes :: Given(t.given, s.codes[code].consent)
    ensures forall c | c in s.flights :: FlightOk(h, t, s.flights[c])
    ensures forall i | 0 <= i < |s.issued| :: IssueOk(h, t, s.issued[i])
  {
    forall code | code in s.codes ensures Given(t.given, s.codes[code].consent) {
      GrowthKeepsGiven(s, t, s.codes[code].consent);
    }
    forall c | c in s.flights ensures FlightOk(h, t, s.flights[c]) {
      assert FlightOk(h, s, s.flights[c]);
      if s.flights[c].Inserting? {
        GrowthKeepsGiven(s, t, s.flights[c].consent);
      }
    }
    forall i | 0 <= i < |s.issued| ensures IssueOk(h, t, s.issued[i]) {
      assert IssueOk(h, s, s.issued[i]);
    }
  }

  lemma BeginGrows(h: Hashes, s: State, e: Event)
    requires !e.Next?
    ensures Grows(s, Step(h, s, e))
  {
  }

  lemma NewFlightOk(h: Hashes, s: State, e: Event, c: nat)
    requires !e.Next? && c in Step(h, s, e).flights && c !in s.flights
    ensures FlightOk(h, Step(h, s, e), Step(h, s, e).flights[c])
  {
    if e.BeginConsent? {
      assert Permit(Step(h, s, e).flights[c].consent, s.clients[e.cform.client]) in Step(h, s, e).given;
    }
  }

  lemma BeginKeepsChecked(h: Hashes, s: State, e: Event)
    requires Checked(h, s) && !e.Next?
    ensures Checked(h, Step(h, s, e))
  {
    var t := Step(h, s, e);
    BeginGrows(h, s, e);
    GrowthKeepsChecks(h, s, t);
    forall c | c in t.flights ensures FlightOk(h, t, t.flights[c]) {
      if c !in s.flights {
        NewFlightOk(h, s, e, c);
      }
    }
  }

  lemma BeginKeepsInv(h: Hashes, s: State, e: Event)
    requires Inv(h, s) && !e.Next?
    ensures Inv(h, Step(h, s, e))
  {
    BeginKeepsChecked(h, s, e);
    var t := Step(h, s, e);
    assert t.issued == s.issued;
    forall c | c in t.flights ensures SoleHolder(t, c) {
      if t.flights[c].Issuing? {
        assert c in s.flights && SoleHolder(s, c);
      }
    }
  }

  lemma AdvanceGrows(h: Hashes, s: State, c: nat, newCode: nat, now: int)
    requires c in s.flights
    ensures Grows(s, Advance(h, s, c, newCode, now))
  {
  }

  lemma AdvanceKeepsChecked(h: Hashes, s: State, c: nat, newCode: nat, now: int)
    requires Checked(h, s) && c in s.flights
    ensures Checked(h, Advance(h, s, c, newCode, now))
  {
    var t := Advance(h, s, c, newCode, now);
    assert FlightOk(h, s, s.flights[c]);
    AdvanceGrows(h, s, c, newCode, now);
    GrowthKeepsChecks(h, s, t);
    if s.flights[c].Issuing? {
      assert IssueOk(h, t, t.issued[|s.issued|]);
    }
  }

  /** A code that pays for a call or has paid for a token set is marked as used. */
  lemma PaidCodesAreUsed(h: Hashes, s: State)
    requires Checked(h, s)
    ensures forall c | c in s.flights && s.flights[c].Issuing? :: s.flights[c].form.code in s.codes && s.codes[s.flights[c].form.code].used
    ensures forall i | 0 <= i < |s.issued| :: s.issued[i].form.code in s.codes && s.codes[s.issued[i].form.code].used
  {
    assert forall c | c in s.flights :: FlightOk(h, s, s.flights[c]);
    assert forall i | 0 <= i < |s.issued| :: IssueOk(h, s, s.issued[i]);
  }

  lemma AdvanceKeepsHolder(h: Hashes, s: State, c: nat, newCode: nat, now: int, d: nat)
    requires c in s.flights && d in Advance(h, s, c, newCode, now).flights
    requires forall k | k in s.flights && s.flights[k].Issuing? :: s.flights[k].form.code in s.codes && s.codes[s.flights[k].form.code].used
    requires forall i | 0 <= i < |s.issued| :: s.issued[i].form.code in s.codes && s.codes[s.issued[i].form.code].used
    requires forall k | k in s.flights :: SoleHolder(s, k)
    ensures SoleHolder(Advance(h, s, c, newCode, now), d)
  {
    assert SoleHolder(s, c);
    if d in s.flights {
      assert SoleHolder(s, d);
    }
  }

  lemma AdvanceKeepsSoleHolders(h: Hashes, s: State, c: nat, newCode: nat, now: int)
    requires Inv(h, s) && c in s.flights
    ensures var t := Advance(h, s, c, newCode, now);
            IssuedOnce(t) && forall d | d in t.flights :: SoleHolder(t, d)
  {
    PaidCodesAreUsed(h, s);
    assert SoleHolder(s, c);
    forall d | d in Advance(h, s, c, newCode, now).flights ensures SoleHolder(Advance(h, s, c, newCode, now), d) {
      AdvanceKeepsHolder(h, s, c, newCode, now, d);
    }
  }

  lemma {:induction false} RunKeepsInv(h: Hashes, s: State, events: seq<Event>)
    requires Inv(h, s)
    ensures Inv(h, Run(h, s, events))
    decreases events
  {
    if events != [] {
      var e := events[0];
      if !e.Next? {
        BeginKeepsInv(h, s, e);
      } else if e.c in s.flights {
        AdvanceKeepsChecked(h, s, e.c, e.newCode, e.now);
        AdvanceKeepsSoleHolders(h, s, e.c, e.newCode, e.now);
      }
      RunKeepsInv(h, Step(h, s, e), events[1..]);
    }
  }

  /** However the calls interleave, two issued token sets never come from the same code. */
  lemma OneTokenSetPerCode(h: Hashes, clients: Clients, events: seq<Event>, i: nat, j: nat)
    requires i < j < |Run(h, Fresh(clients), events).issued|
    ensures var issued := Run(h, Fresh(clients), events).issued;
            issued[i].form.code != issued[j].form.code
  {
    RunKeepsInv(h, Fresh(clients), events);
  }

  lemma StepKeepsSecrets(h: Hashes, s: State, e: Event)
    ensures Step(h, s, e).clients.Keys == s.clients.Keys
    ensures forall c | c in s.clients ::
              Step(h, s, e).clients[c].kind == s.clients[c].kind && Step(h, s, e).clients[c].secretHash == s.clients[c].secretHash
  {
  }

  /** No run changes what kind a client is or which secret it has. */
  lemma {:induction false} SecretsNeverChange(h: Hashes, s: State, events: seq<Event>)
    ensures Run(h, s, events).clients.Keys == s.clients.Keys
    ensures forall c | c in s.clients ::
              Run(h, s, events).clients[c].kind == s.clients[c].kind && Run(h, s, events).clients[c].secretHash == s.clients[c].secretHash
    decreases events
  {
    if events != [] {
      StepKeepsSecrets(h, s, events[0]);
      SecretsNeverChange(h, Step(h, s, events[0]), events[1..]);
    }
  }

  /**
   * Every issued token set is for a consent that was given, within the scopes allowed to the client
   * and to a redirect URI registered for it at that moment; it went to the same client and redirect
   * URI, for a code that had not run out when it was read (section 4.1.3 of RFC 6749); a challenge
   * was answered with a matching verifier, and a PUBLIC client always had one.
   */
  lemma TokensMatchConsent(h: Hashes, clients: Clients, events: seq<Event>, i: nat)
    requires i < |Run(h, Fresh(clients), events).issued|
    ensures var s := Run(h, Fresh(clients), events);
            var Issue(form, _, consent, expiresAt, readAt) := s.issued[i];
            && (exists client ::
                  && Permit(consent, client) in s.given && client.active && consent.redirectUri in client.redirectUris
                  && forall token | token in ParseScope(consent.scope) :: token in client.allowedScopes)
            && form.code in s.codes && s.codes[form.code].expiresAt == expiresAt && readAt <= expiresAt
            && consent.client == form.client && consent.redirectUri == form.redirectUri
            && (consent.challenge != "" ==> form.verifier != "" && h.b64(form.verifier) == consent.challenge)
            && form.client in clients && (clients[form.client].kind == Public ==> consent.challenge != "")
  {
    RunKeepsInv(h, Fresh(clients), events);
    SecretsNeverChange(h, Fresh(clients), events);
    var s := Run(h, Fresh(clients), events);
    assert IssueOk(h, s, s.issued[i]);
    var client :| Permit(s.issued[i].consent, client) in s.given && Proper(s.issued[i].consent, client);
    assert client.active && ScopeAllowed(s.issued[i].consent.scope, client.allowedScopes);
  }

  /**
   * Every issued token set went to a client that was active when it authenticated, as one of the
   * registered kind, and unless it is PUBLIC with the secret whose hash is registered for it
   * (section 2.3.1 of RFC 6749).
   */
  lemma TokensNeedTheSecret(h: Hashes, clients: Clients, events: seq<Event>, i: nat)
    requires i < |Run(h, Fresh(clients), events).issued|
    ensures var Issue(form, client, _, _, _) := Run(h, Fresh(clients), events).issued[i];
            && form.client in clients && client.active && client.kind == clients[form.client].kind
            && (clients[form.client].kind != Public ==>
                  clients[form.client].secretHash != "" && form.secret != "" && h.hex(form.secret) == clients[form.client].secretHash)
  {
    RunKeepsInv(h, Fresh(clients), events);
    SecretsNeverChange(h, Fresh(clients), events);
    var s := Run(h, Fresh(clients), events);
    assert IssueOk(h, s, s.issued[i]);
  }

  /** With an injective hash, only the registered secret buys tokens for a client that is not PUBLIC. */
  lemma OnlyTheSecret(h: Hashes, clients: Clients, events: seq<Event>, i: nat, secret: string)
    requires forall x, y | h.hex(x) == h.hex(y) :: x == y
    requires i < |Run(h, Fresh(clients), events).issued|
    requires var id := Run(h, Fresh(clients), events).issued[i].form.client;
             id in clients && clients[id].kind != Public && clients[id].secretHash == h.hex(secret)
    ensures Run(h, Fresh(clients), events).issued[i].form.secret == secret
  {
    TokensNeedTheSecret(h, clients, events, i);
  }

  /** With an injective hash, only the verifier the challenge was made from buys tokens. */
  lemma OnlyTheVerifier(h: Hashes, clients: Clients, events: seq<Event>, i: nat, verifier: string)
    requires forall x, y | h.b64(x) == h.b64(y) :: x == y
    requires i < |Run(h, Fresh(clients), events).issued|
    requires Run(h, Fresh(clients), events).issued[i].consent.challenge == h.b64(verifier) != ""
    ensures Run(h, Fresh(clients), events).issued[i].form.verifier == verifier
  {
    TokensMatchConsent(h, clients, events, i);
  }

  // ---------------------------------------------------------------- uninterrupted calls

  lemma RunCons(h: Hashes, s: State, e: Event, after: seq<Event>)
    ensures Run(h, s, [e] + after) == Run(h, Step(h, s, e), after)
  {
    assert ([e] + after)[1..] == after;
  }

  /** A token call nobody interrupts is the service's `Exchange`: same codes, a token set exactly when it succeeds. */
  lemma ExchangeRun(h: Hashes, s: State, c: nat, form: TokenForm, n: nat, now: int)
    requires c !in s.flights
    ensures Run(h, s, [BeginToken(c, form)] + ([Next(c, n, now)] + ([Next(c, n, now)] + ([Next(c, n, now)] + []))))
         == AfterExchange(h, s, form, now)
  {
    var b, e := BeginToken(c, form), Next(c, n, now);
    var s1 := Step(h, s, b);
    var s2 := Step(h, s1, e);
    var s3 := Step(h, s2, e);
    RunCons(h, s, b, [e] + ([e] + ([e] + [])));
    RunCons(h, s1, e, [e] + ([e] + []));
    RunCons(h, s2, e, [e] + []);
    RunCons(h, s3, e, []);
    ExchangeSteps(h, s, c, form, n, now);
  }

  function AfterExchange(h: Hashes, s: State, form: TokenForm, now: int): State {
    var (codes, r) := Exchange(h, s.clients, s.codes, form, now);
    s.(codes := codes,
       issued := if r.Ok? then s.issued + [Issue(form, s.clients[form.client], r.value, s.codes[form.code].expiresAt, now)]
                 else s.issued)
  }

  lemma ExchangeSteps(h: Hashes, s: State, c: nat, form: TokenForm, n: nat, now: int)
    requires c !in s.flights
    ensures Step(h, Step(h, Step(h, Step(h, s, BeginToken(c, form)), Next(c, n, now)), Next(c, n, now)), Next(c, n, now))
         == AfterExchange(h, s, form, now)
  {
    var e := Next(c, n, now);
    var s1 := Step(h, s, BeginToken(c, form));
    if Authenticated(h, s.clients, form) && form.redirectUri != "" {
      var client := s.clients[form.client];
      var s2 := Step(h, s1, e);
      match CheckCode(s.codes, form, now) {
        case Err(_) => assert s2.flights == s.flights;
        case Ok(record) =>
          assert s2 == s.(flights := s.flights[c := Spending(form, client, record, now)]);
          SpendSteps(h, s, c, form, client, record, n, now);
      }
    }
  }

  lemma SpendSteps(h: Hashes, s: State, c: nat, form: TokenForm, client: Client, record: Code, n: nat, now: int)
    requires c !in s.flights && form.code in s.codes && s.codes[form.code] == record
    ensures Step(h, Step(h, s.(flights := s.flights[c := Spending(form, client, record, now)]), Next(c, n, now)), Next(c, n, now))
         == AfterSpend(h, s, form, client, record, now)
  {
    var s2 := s.(flights := s.flights[c := Spending(form, client, record, now)]);
    var s3 := Step(h, s2, Next(c, n, now));
    if record.used || !PkceOk(h, client.kind, record.consent.challenge, form.verifier) {
      assert s3.flights == s.flights;
    } else {
      assert s3.flights == s.flights[c := Issuing(form, client, record, now)];
      assert Step(h, s3, Next(c, n, now)).flights == s.flights;
    }
  }

  function AfterSpend(h: Hashes, s: State, form: TokenForm, client: Client, record: Code, now: int): State {
    if record.used then s
    else
      var spent := s.(codes := s.codes[form.code := record.(used := true)]);
      if PkceOk(h, client.kind, record.consent.challenge, form.verifier)
      then spent.(issued := s.issued + [Issue(form, client, record.consent, record.expiresAt, now)]) else spent
  }

  // ---------------------------------------------------------------- what buys tokens, field by field

  /**
   * A token request is answered with tokens exactly when the client is active and, unless it is
   * PUBLIC, knows its secret; the code is unused, not past its minute, and was issued to this client
   * and redirect URI; and its challenge, without which a PUBLIC client gets nothing, is answered.
   * It is answered once: the code is used up then.
   */
  lemma ExchangeExactly(h: Hashes, clients: Clients, codes: Codes, form: TokenForm, now: int)
    ensures var (after, r) := Exchange(h, clients, codes, form, now);
            && (r.Ok? <==>
                  && form.client in clients && clients[form.client].active
                  && (clients[form.client].kind == Public
                      || (clients[form.client].secretHash != "" && form.secret != "" && h.hex(form.secret) == clients[form.client].secretHash))
                  && form.code in codes && !codes[form.code].used && now <= codes[form.code].expiresAt
                  && codes[form.code].consent.client == form.client
                  && form.redirectUri != "" && codes[form.code].consent.redirectUri == form.redirectUri
                  && (if codes[form.code].consent.challenge == "" then clients[form.client].kind != Public
                      else form.verifier != "" && h.b64(form.verifier) == codes[form.code].consent.challenge))
            && (r.Ok? ==> r.value == codes[form.code].consent && after == codes[form.code := codes[form.code].(used := true)])
  {
  }

  /**
   * Which refusal a token request meets: the checks in order, and only the last, a verifier that
   * does not match, uses the code up.
   */
  lemma ExchangeRefusals(h: Hashes, clients: Clients, codes: Codes, form: TokenForm, now: int)
    requires Exchange(h, clients, codes, form, now).1.Err?
    ensures var (after, r) := Exchange(h, clients, codes, form, now);
            var authenticated := form.client in clients && clients[form.client].active
              && (clients[form.client].kind == Public
                  || (clients[form.client].secretHash != "" && form.secret != "" && h.hex(form.secret) == clients[form.client].secretHash));
            if !authenticated then r == Err(BadClient) && after == codes
            else if form.redirectUri == "" then r == Err(BadRequest) && after == codes
            else if form.code !in codes then r == Err(UnknownCode) && after == codes
            else if now > codes[form.code].expiresAt then r == Err(Expired) && after == codes
            else if form.client != codes[form.code].consent.client then r == Err(WrongClient) && after == codes
            else if form.redirectUri != codes[form.code].consent.redirectUri then r == Err(WrongRedirect) && after == codes
            else if codes[form.code].used then r == Err(Used) && after == codes
            else r == Err(PkceFailed) && after == codes[form.code := codes[form.code].(used := true)]
  {
  }

  /** A consent form is refused for its client first, for its contents next, and for the user's answer last. */
  lemma ConsentRefusals(clients: Clients, form: ConsentForm)
    ensures CheckConsent(clients, form) == Err(BadClient) <==> !(form.client in clients && clients[form.client].active)
    ensures CheckConsent(clients, form) == Err(Denied) <==>
              && form.client in clients && clients[form.client].active && form.redirectUri in clients[form.client].redirectUris
              && (forall token | token in ParseScope(form.scope) :: token in clients[form.client].allowedScopes)
              && (form.challenge != "" ==> form.challengeMethod != "") && !form.approve
    ensures CheckConsent(clients, form).Err? ==> CheckConsent(clients, form).error in {BadClient, BadRequest, Denied}
  {
  }

  /** The consent was approved in one of these events, on a form with these values. */
  predicate ApprovedIn(events: seq<Event>, consent: Consent) {
    exists n | 0 <= n < |events| :: events[n].BeginConsent? && Approves(events[n].cform, consent)
  }

  predicate Approves(form: ConsentForm, consent: Consent) {
    && form.approve
    && consent.user == form.user && consent.client == form.client && consent.redirectUri == form.redirectUri
    && consent.scope == form.scope && consent.challenge == form.challenge
    && (form.challenge != "" ==> form.challengeMethod != "")
  }

  /** Some step of these events stored a code that runs out then, a minute later. */
  predicate StoredIn(events: seq<Event>, expiresAt: int) {
    exists m | 0 <= m < |events| :: events[m].Next? && expiresAt == events[m].now + 60_000
  }

  ghost predicate CodeApproved(code: Code, events: seq<Event>) {
    ApprovedIn(events, code.consent) && StoredIn(events, code.expiresAt)
  }

  ghost predicate AllApproved(s: State, events: seq<Event>) {
    && (forall code | code in s.codes :: CodeApproved(s.codes[code], events))
    && (forall c | c in s.flights && s.flights[c].Inserting? :: ApprovedIn(events, s.flights[c].consent))
  }

  lemma ApprovalGrows(events: seq<Event>, e: Event, consent: Consent)
    requires ApprovedIn(events, consent)
    ensures ApprovedIn(events + [e], consent)
  {
    var n :| 0 <= n < |events| && events[n].BeginConsent? && Approves(events[n].cform, consent);
    assert (events + [e])[n] == events[n];
  }

  lemma CodeApprovalGrows(events: seq<Event>, e: Event, code: Code)
    requires CodeApproved(code, events)
    ensures CodeApproved(code.(used := true), events + [e]) && CodeApproved(code, events + [e])
  {
    ApprovalGrows(events, e, code.consent);
    var m :| 0 <= m < |events| && events[m].Next? && code.expiresAt == events[m].now + 60_000;
    assert (events + [e])[m] == events[m];
  }

  /** A step stores at most the consent of a call in flight, and touches nothing but the mark of any other code. */
  lemma StepStores(h: Hashes, s: State, e: Event, code: nat)
    requires code in Step(h, s, e).codes
    ensures var now := Step(h, s, e).codes[code];
            if code in s.codes then now == s.codes[code] || now == s.codes[code].(used := true)
            else e.Next? && e.c in s.flights && s.flights[e.c].Inserting? && now == Code(s.flights[e.c].consent, e.now + 60_000, false)
  {
  }

  lemma StepBegins(h: Hashes, s: State, e: Event, c: nat)
    requires c in Step(h, s, e).flights && Step(h, s, e).flights[c].Inserting?
    ensures (c in s.flights && Step(h, s, e).flights[c] == s.flights[c])
         || (e.BeginConsent? && Approves(e.cform, Step(h, s, e).flights[c].consent))
  {
  }

  lemma StepKeepsApproved(h: Hashes, s: State, past: seq<Event>, e: Event)
    requires AllApproved(s, past)
    ensures AllApproved(Step(h, s, e), past + [e])
  {
    var t := Step(h, s, e);
    assert (past + [e])[|past|] == e;
    forall code | code in t.codes ensures CodeApproved(t.codes[code], past + [e]) {
      StepStores(h, s, e, code);
      if code in s.codes {
        CodeApprovalGrows(past, e, s.codes[code]);
      } else {
        ApprovalGrows(past, e, s.flights[e.c].consent);
      }
    }
    forall c | c in t.flights && t.flights[c].Inserting? ensures ApprovedIn(past + [e], t.flights[c].consent) {
      StepBegins(h, s, e, c);
      if c in s.flights {
        ApprovalGrows(past, e, s.flights[c].consent);
      }
    }
  }

  lemma {:induction false} RunKeepsApproved(h: Hashes, s: State, past: seq<Event>, events: seq<Event>)
    requires AllApproved(s, past)
    ensures AllApproved(Run(h, s, events), past + events)
    decreases events
  {
    if events == [] {
      assert past + events == past;
    } else {
      StepKeepsApproved(h, s, past, events[0]);
      RunKeepsApproved(h, Step(h, s, events[0]), past + [events[0]], events[1..]);
      assert past + [events[0]] + events[1..] == past + events;
    }
  }

  /**
   * Every code stands for a consent form that was approved, keeps its user, client, redirect URI,
   * scope and challenge, and runs out a minute after it was stored.
   */
  lemma CodesWereApproved(h: Hashes, clients: Clients, events: seq<Event>, code: nat)
    requires code in Run(h, Fresh(clients), events).codes
    ensures var record := Run(h, Fresh(clients), events).codes[code];
            && (exists n | 0 <= n < |events| ::
                  && events[n].BeginConsent? && events[n].cform.approve
                  && record.consent == Consent(events[n].cform.user, events[n].cform.client, events[n].cform.redirectUri,
                                               events[n].cform.scope, events[n].cform.challenge)
                  && (events[n].cform.challenge != "" ==> events[n].cform.challengeMethod != ""))
            && (exists m | 0 <= m < |events| :: events[m].Next? && record.expiresAt == events[m].now + 60_000)
  {
    RunKeepsApproved(h, Fresh(clients), [], events);
    assert [] + events == events;
    var record := Run(h, Fresh(clients), events).codes[code];
    assert CodeApproved(record, events);
    var n :| 0 <= n < |events| && events[n].BeginConsent? && Approves(events[n].cform, record.consent);
    assert record.consent == Consent(events[n].cform.user, events[n].cform.client, events[n].cform.redirectUri,
                                     events[n].cform.scope, events[n].cform.challenge);
  }

  /** A consent nobody interrupts stores its code, unused, for a minute, and is remembered with the client as it was. */
  lemma ConsentRun(h: Hashes, s: State, c: nat, form: ConsentForm, code: nat, now: int)
    requires c !in s.flights && code !in s.codes
    ensures var t := Run(h, s, [BeginConsent(c, form)] + ([Next(c, code, now)] + []));
            if CheckConsent(s.clients, form).Err? then t == s
            else
              var consent := Consent(form.user, form.client, form.redirectUri, form.scope, form.challenge);
              t == s.(codes := s.codes[code := Code(consent, now + 60_000, false)],
                      given := s.given + {Permit(consent, s.clients[form.client])})
  {
    var b, e := BeginConsent(c, form), Next(c, code, now);
    RunCons(h, s, b, [e] + []);
    RunCons(h, Step(h, s, b), e, []);
    if CheckConsent(s.clients, form).Ok? {
      assert Step(h, Step(h, s, b), e).flights == s.flights;
    }
  }

  /** An edit takes effect on exactly what may be edited. */
  lemma EditExactly(h: Hashes, s: State, client: nat, redirectUris: seq<string>, allowedScopes: seq<string>, active: bool)
    ensures Step(h, s, Edit(client, redirectUris, allowedScopes, active))
         == if client !in s.clients then s
            else s.(clients := s.clients[client := Client(s.clients[client].kind, s.clients[client].secretHash,
                                                          redirectUris, allowedScopes, active)])
  {
  }
}
