/**
 * Documents to sign: a request with one slot per signer, filled through single-use links. A link's
 * token stands for itself (its stored hash is injective) and is the slot's key.
 */
module SigningRequests {
  import opened Wrappers

  datatype Status = Pending | Signed | Declined | Expired | Revoked

  datatype Request = Request(contentHash: string, creator: nat, status: Status, expiresAt: Option<int>)

  datatype Slot = Slot(request: nat, user: Option<nat>, email: Option<string>,
                       signedAt: Option<int>, declinedAt: Option<int>, expiresAt: int)

  /** `slot` is the link the signature was made through; `proof` is the validated attestation, if any. */
  datatype Signature = Signature(request: nat, slot: nat, signer: nat, contentHash: string, proof: Option<string>, attempts: nat)

  datatype Invite = Invite(user: Option<nat>, email: Option<string>)

  datatype Error =
    | NoSigner | TwoSigners | PastExpiry
    | InvalidLink | AlreadySigned | AlreadyDeclined | LinkExpired
    | RequestIs(status: Status) | RequestExpired
    | WrongAccount | NoUser | WrongEmail
    | NoRequest | NotCreator | NoSignature

  datatype Db = Db(requests: map<nat, Request>, slots: map<nat, Slot>, signatures: seq<Signature>)

  /** Accounts and their email addresses. */
  type Emails = map<nat, string>

  const SIGNER_TOKEN_TTL_MS := 14 * 24 * 60 * 60 * 1000

  // ---------------------------------------------------------------- whole calls

  predicate Linked(db: Db) {
    forall t | t in db.slots :: db.slots[t].request in db.requests
  }

  predicate AllSigned(slots: map<nat, Slot>, request: nat) {
    forall t | t in slots && slots[t].request == request :: slots[t].signedAt.Some?
  }

  function InviteError(invite: Invite): Option<Error> {
    if invite.user.None? && invite.email.None? then Some(NoSigner)
    else if invite.user.Some? && invite.email.Some? then Some(TwoSigners)
    else None
  }

  function FirstInviteError(invites: seq<Invite>): Option<Error> {
    if invites == [] then None
    else if InviteError(invites[0]).Some? then InviteError(invites[0])
    else FirstInviteError(invites[1..])
  }

  function NewSlots(slots: map<nat, Slot>, request: nat, invites: seq<Invite>, tokens: seq<nat>, expiresAt: int): map<nat, Slot>
    requires |tokens| == |invites|
    decreases invites
  {
    if invites == [] then slots
    else NewSlots(slots[tokens[0] := Slot(request, invites[0].user, invites[0].email, None, None, expiresAt)],
                  request, invites[1..], tokens[1..], expiresAt)
  }

  /** The database and the random generator supply `id` and `tokens`. */
  function Create(db: Db, id: nat, tokens: seq<nat>, actor: nat, hash: string, invites: seq<Invite>, expiresAt: Option<int>, now: int)
    : (Db, Result<(), Error>)
    requires |tokens| == |invites|
  {
    var bad := FirstInviteError(invites);
    if bad.Some? then (db, Err(bad.value))
    else if expiresAt.Some? && expiresAt.value <= now then (db, Err(PastExpiry))
    else
      var expiry := if expiresAt.Some? then expiresAt.value else now + SIGNER_TOKEN_TTL_MS;
      (Db(db.requests[id := Request(hash, actor, Pending, expiresAt)], NewSlots(db.slots, id, invites, tokens, expiry), db.signatures),
       Ok(()))
  }

  function SetStatus(db: Db, request: nat, status: Status): Db
    requires request in db.requests
  {
    db.(requests := db.requests[request := db.requests[request].(status := status)])
  }

  /** `loadSignerForSigning`. */
  function Load(db: Db, token: nat, now: int): (Db, Result<Slot, Error>)
    requires Linked(db)
  {
    if token !in db.slots then (db, Err(InvalidLink))
    else
      var slot := db.slots[token];
      var request := db.requests[slot.request];
      if slot.signedAt.Some? then (db, Err(AlreadySigned))
      else if slot.declinedAt.Some? then (db, Err(AlreadyDeclined))
      else if slot.expiresAt <= now then (db, Err(LinkExpired))
      else if request.status in {Revoked, Signed, Declined} then (db, Err(RequestIs(request.status)))
      else if request.expiresAt.Some? && request.expiresAt.value <= now then
        (SetStatus(db, slot.request, Expired), Err(RequestExpired))
      else (db, Ok(slot))
  }

  /** `assertSignerIdentity`. */
  function Identify(slot: Slot, actor: nat, emails: Emails): Result<(), Error> {
    if slot.user.Some? then if slot.user.value == actor then Ok(()) else Err(WrongAccount)
    else if slot.email.None? then Ok(())
    else if actor !in emails then Err(NoUser)
    else if emails[actor] == slot.email.value then Ok(())
    else Err(WrongEmail)
  }

  function Loaded(db: Db, token: nat, actor: nat, emails: Emails, now: int): (Db, Result<Slot, Error>)
    requires Linked(db)
  {
    var (db1, loaded) := Load(db, token, now);
    if loaded.Err? then (db1, loaded)
    else
      var identity := Identify(loaded.value, actor, emails);
      if identity.Err? then (db1, Err(identity.error)) else (db1, loaded)
  }

  /** The first attestation: validated, or failed and left for a retry. */
  function AddSignature(db: Db, request: nat, token: nat, actor: nat, hash: string, proof: Option<string>): Db {
    db.(signatures := db.signatures + [Signature(request, token, actor, hash, proof, 1)])
  }

  function MarkSigned(db: Db, token: nat, actor: nat, now: int): Db
    requires token in db.slots
  {
    db.(slots := db.slots[token := db.slots[token].(signedAt := Some(now), user := Some(actor))])
  }

  /** `recomputeStatus`. */
  function Recompute(db: Db, request: nat): (Db, Status)
    requires request in db.requests
  {
    if AllSigned(db.slots, request) then (SetStatus(db, request, Signed), Signed) else (db, Pending)
  }

  function Sign(db: Db, token: nat, actor: nat, emails: Emails, proof: Option<string>, now: int): (Db, Result<Status, Error>)
    requires Linked(db)
  {
    var (db1, loaded) := Loaded(db, token, actor, emails, now);
    if loaded.Err? then (db1, Err(loaded.error))
    else
      var r := loaded.value.request;
      var db2 := AddSignature(db1, r, token, actor, db1.requests[r].contentHash, proof);
      var (db3, status) := Recompute(MarkSigned(db2, token, actor, now), r);
      (db3, Ok(status))
  }

  function MarkDeclined(db: Db, token: nat, actor: nat, now: int): Db
    requires token in db.slots
  {
    db.(slots := db.slots[token := db.slots[token].(declinedAt := Some(now), user := Some(actor))])
  }

  function Decline(db: Db, token: nat, actor: nat, emails: Emails, now: int): (Db, Result<(), Error>)
    requires Linked(db)
  {
    var (db1, loaded) := Loaded(db, token, actor, emails, now);
    if loaded.Err? then (db1, Err(loaded.error))
    else
      (SetStatus(MarkDeclined(db1, token, actor, now), loaded.value.request, Declined), Ok(()))
  }

  function RevokeError(db: Db, id: nat, actor: nat): Option<Error> {
    if id !in db.requests then Some(NoRequest)
    else if db.requests[id].creator != actor then Some(NotCreator)
    else if db.requests[id].status != Pending then Some(RequestIs(db.requests[id].status))
    else None
  }

  function Revoke(db: Db, id: nat, actor: nat): (Db, Result<(), Error>) {
    var error := RevokeError(db, id, actor);
    if error.Some? then (db, Err(error.value)) else (SetStatus(db, id, Revoked), Ok(()))
  }

  /** A retry of the attestation, whose outcome is `proof`; a validated one is never redone. */
  function Reattest(db: Db, k: nat, proof: Option<string>): (Db, Result<bool, Error>) {
    if k >= |db.signatures| then (db, Err(NoSignature))
    else
      var signature := db.signatures[k];
      if signature.proof.Some? then (db, Ok(true))
      else (db.(signatures := db.signatures[k := signature.(proof := proof, attempts := signature.attempts + 1)]), Ok(proof.Some?))
  }

  class SignatureService {
    var requests: map<nat, Request>
    var slots: map<nat, Slot>
    var signatures: seq<Signature>

    ghost function Tables(): Db reads this {
      Db(requests, slots, signatures)
    }

    method CreateRequest(id: nat, tokens: seq<nat>, actor: nat, hash: string, invites: seq<Invite>, expiresAt: Option<int>, now: int)
      returns (r: Result<(), Error>)
      requires |tokens| == |invites|
      modifies this
      ensures (Tables(), r) == Create(old(Tables()), id, tokens, actor, hash, invites, expiresAt, now)
    {
      var bad := FirstInviteError(invites);
      if bad.Some? {
        return Err(bad.value);
      }
      if expiresAt.Some? && expiresAt.value <= now {
        return Err(PastExpiry);
      }
      var signerExpiry := if expiresAt.Some? then expiresAt.value else now + SIGNER_TOKEN_TTL_MS;
      requests := requests[id := Request(hash, actor, Pending, expiresAt)];
      var i := 0;
      while i < |invites|
        invariant i <= |invites| && requests == old(requests)[id := Request(hash, actor, Pending, expiresAt)]
        invariant signatures == old(signatures)
        invariant NewSlots(slots, id, invites[i..], tokens[i..], signerExpiry)
               == NewSlots(old(slots), id, invites, tokens, signerExpiry)
      {
        slots := slots[tokens[i] := Slot(id, invites[i].user, invites[i].email, None, None, signerExpiry)];
        assert invites[i..][1..] == invites[i + 1..] && tokens[i..][1..] == tokens[i + 1..];
        i := i + 1;
      }
      r := Ok(());
    }

    method LoadSignerForSigning(token: nat, actor: nat, emails: Emails, now: int) returns (r: Result<Slot, Error>)
      requires Linked(Tables())
      modifies this`requests
      ensures (Tables(), r) == Loaded(old(Tables()), token, actor, emails, now)
    {
      if token !in slots {
        return Err(InvalidLink);
      }
      var slot := slots[token];
      if slot.signedAt.Some? {
        return Err(AlreadySigned);
      }
      if slot.declinedAt.Some? {
        return Err(AlreadyDeclined);
      }
      if slot.expiresAt <= now {
        return Err(LinkExpired);
      }
      var request := requests[slot.request];
      if request.status in {Revoked, Signed, Declined} {
        return Err(RequestIs(request.status));
      }
      if request.expiresAt.Some? && request.expiresAt.value <= now {
        requests := requests[slot.request := request.(status := Expired)];
        return Err(RequestExpired);
      }
      var _ :- Identify(slot, actor, emails);
      r := Ok(slot);
    }

    method SignSlot(token: nat, actor: nat, emails: Emails, proof: Option<string>, now: int) returns (r: Result<Status, Error>)
      requires Linked(Tables())
      modifies this
      ensures (Tables(), r) == Sign(old(Tables()), token, actor, emails, proof, now)
    {
      var slot :- LoadSignerForSigning(token, actor, emails, now);
      var hash := requests[slot.request].contentHash;
      signatures := signatures + [Signature(slot.request, token, actor, hash, proof, 1)];
      slots := slots[token := slots[token].(signedAt := Some(now), user := Some(actor))];
      if forall t | t in slots && slots[t].request == slot.request :: slots[t].signedAt.Some? {
        requests := requests[slot.request := requests[slot.request].(status := Signed)];
        return Ok(Signed);
      }
      r := Ok(Pending);
    }

    method DeclineSlot(token: nat, actor: nat, emails: Emails, now: int) returns (r: Result<(), Error>)
      requires Linked(Tables())
      modifies this
      ensures (Tables(), r) == Decline(old(Tables()), token, actor, emails, now)
    {
      var slot :- LoadSignerForSigning(token, actor, emails, now);
      slots := slots[token := slots[token].(declinedAt := Some(now), user := Some(actor))];
      requests := requests[slot.request := requests[slot.request].(status := Declined)];
      r := Ok(());
    }

    method RevokeRequest(id: nat, actor: nat) returns (r: Result<(), Error>)
      modifies this`requests
      ensures (Tables(), r) == Revoke(old(Tables()), id, actor)
    {
      if id !in requests {
        return Err(NoRequest);
      }
      if requests[id].creator != actor {
        return Err(NotCreator);
      }
      if requests[id].status != Pending {
        return Err(RequestIs(requests[id].status));
      }
      requests := requests[id := requests[id].(status := Revoked)];
      r := Ok(());
    }

    method ReattestSignature(k: nat, proof: Option<string>) returns (r: Result<bool, Error>)
      modifies this`signatures
      ensures (Tables(), r) == Reattest(old(Tables()), k, proof)
    {
      if k >= |signatures| {
        return Err(NoSignature);
      }
      var signature := signatures[k];
      if signature.proof.Some? {
        return Ok(true);
      }
      signatures := signatures[k := signature.(proof := proof, attempts := signature.attempts + 1)];
      r := Ok(proof.Some?);
    }
  }

  // ---------------------------------------------------------------- runs of whole calls

  datatype Call =
    | CreateCall(id: nat, tokens: seq<nat>, actor: nat, hash: string, invites: seq<Invite>, expiresAt: Option<int>, now: int)
    | SignCall(token: nat, actor: nat, emails: Emails, proof: Option<string>, now: int)
    | DeclineCall(token: nat, actor: nat, emails: Emails, now: int)
    | RevokeCall(id: nat, actor: nat)
    | ReattestCall(k: nat, proof: Option<string>)

  /** Ids and tokens are drawn fresh, and the request form demands a signer. */
  predicate FreshFor(db: Db, id: nat, tokens: seq<nat>, invites: seq<Invite>) {
    && id !in db.requests && invites != [] && |tokens| == |invites|
    && (forall i | 0 <= i < |tokens| :: tokens[i] !in db.slots)
    && (forall i, j | 0 <= i < j < |tokens| :: tokens[i] != tokens[j])
  }

  function Perform(db: Db, call: Call): Db
    requires Linked(db)
  {
    match call
    case CreateCall(id, tokens, actor, hash, invites, expiresAt, now) =>
      if FreshFor(db, id, tokens, invites) then Create(db, id, tokens, actor, hash, invites, expiresAt, now).0 else db
    case SignCall(token, actor, emails, proof, now) => Sign(db, token, actor, emails, proof, now).0
    case DeclineCall(token, actor, emails, now) => Decline(db, token, actor, emails, now).0
    case RevokeCall(id, actor) => Revoke(db, id, actor).0
    case ReattestCall(k, proof) => Reattest(db, k, proof).0
  }

  /** A link is used at most one way, and runs out when its request does. */
  predicate SlotOk(db: Db, t: nat)
    requires Linked(db) && t in db.slots
  {
    var slot, request := db.slots[t], db.requests[db.slots[t].request];
    && (slot.declinedAt.Some? ==> slot.signedAt.None? && request.status == Declined)
    && (request.expiresAt.Some? ==> slot.expiresAt == request.expiresAt.value)
  }

  predicate RequestOk(db: Db, r: nat)
    requires r in db.requests
  {
    db.requests[r].status != Expired && (db.requests[r].status == Signed <==> AllSigned(db.slots, r))
  }

  /** What a signature says about its slot and its request. */
  predicate SignatureOk(db: Db, k: nat)
    requires Linked(db) && k < |db.signatures|
  {
    var signature := db.signatures[k];
    && signature.slot in db.slots
    && db.slots[signature.slot].request == signature.request
    && db.slots[signature.slot].signedAt.Some? && db.slots[signature.slot].user == Some(signature.signer)
    && signature.contentHash == db.requests[signature.request].contentHash
  }

  predicate MadeThrough(signatures: seq<Signature>, t: nat) {
    exists k | 0 <= k < |signatures| :: signatures[k].slot == t
  }

  /** Signatures and signed slots are in bijection. */
  ghost predicate SignaturesOk(db: Db)
    requires Linked(db)
  {
    && (forall k | 0 <= k < |db.signatures| :: SignatureOk(db, k))
    && (forall j, k | 0 <= j < k < |db.signatures| :: db.signatures[j].slot != db.signatures[k].slot)
    && (forall t | t in db.slots && db.slots[t].signedAt.Some? :: MadeThrough(db.signatures, t))
  }

  ghost predicate Inv(db: Db) {
    && Linked(db)
    && (forall t | t in db.slots :: SlotOk(db, t))
    && (forall r | r in db.requests :: RequestOk(db, r))
    && SignaturesOk(db)
  }

  lemma {:induction false} NewSlotsAre(slots: map<nat, Slot>, request: nat, invites: seq<Invite>, tokens: seq<nat>, expiresAt: int)
    requires |tokens| == |invites|
    requires forall i, j | 0 <= i < j < |tokens| :: tokens[i] != tokens[j]
    ensures var after := NewSlots(slots, request, invites, tokens, expiresAt);
            && (forall t :: t in after <==> t in slots || t in tokens)
            && (forall t | t in slots && t !in tokens :: after[t] == slots[t])
            && (forall i | 0 <= i < |tokens| ::
                  after[tokens[i]] == Slot(request, invites[i].user, invites[i].email, None, None, expiresAt))
    decreases invites
  {
    if invites != [] {
      var slot := Slot(request, invites[0].user, invites[0].email, None, None, expiresAt);
      assert tokens == [tokens[0]] + tokens[1..];
      NewSlotsAre(slots[tokens[0] := slot], request, invites[1..], tokens[1..], expiresAt);
    }
  }

  /** A signed slot stays as it is, so what signatures say stays true. */
  ghost predicate KeepsSigned(db: Db, after: Db) {
    && (forall t | t in db.slots && db.slots[t].signedAt.Some? :: t in after.slots && after.slots[t] == db.slots[t])
    && (forall r | r in db.requests :: r in after.requests && after.requests[r].contentHash == db.requests[r].contentHash)
  }

  lemma SignaturesStayOk(db: Db, after: Db)
    requires Linked(db) && Linked(after) && SignaturesOk(db) && KeepsSigned(db, after) && after.signatures == db.signatures
    requires forall t | t in after.slots && after.slots[t].signedAt.Some? :: t in db.slots && db.slots[t].signedAt.Some?
    ensures SignaturesOk(after)
  {
    forall k | 0 <= k < |after.signatures| ensures SignatureOk(after, k) {
      assert SignatureOk(db, k);
    }
  }

  /** The new rows of a request, beside everything that was there. */
  predicate AddsRequest(db: Db, after: Db, id: nat, request: Request) {
    && after.requests == db.requests[id := request] && id !in db.requests && after.signatures == db.signatures
    && (forall t | t in db.slots :: t in after.slots && after.slots[t] == db.slots[t])
    && (forall t | t in after.slots && t !in db.slots :: after.slots[t].request == id
          && after.slots[t].signedAt.None? && after.slots[t].declinedAt.None?
          && (request.expiresAt.Some? ==> after.slots[t].expiresAt == request.expiresAt.value))
    && (exists t :: t in after.slots && t !in db.slots)
  }

  lemma CreateAdds(db: Db, id: nat, tokens: seq<nat>, actor: nat, hash: string, invites: seq<Invite>, expiresAt: Option<int>, now: int)
    requires FreshFor(db, id, tokens, invites)
    ensures var (after, r) := Create(db, id, tokens, actor, hash, invites, expiresAt, now);
            if r.Ok? then AddsRequest(db, after, id, Request(hash, actor, Pending, expiresAt)) else after == db
  {
    var (after, r) := Create(db, id, tokens, actor, hash, invites, expiresAt, now);
    if r.Ok? {
      NewSlotsAre(db.slots, id, invites, tokens, if expiresAt.Some? then expiresAt.value else now + SIGNER_TOKEN_TTL_MS);
      assert tokens[0] in after.slots && tokens[0] !in db.slots;
    }
  }

  lemma AddedRequestsOk(db: Db, after: Db, id: nat, request: Request, q: nat)
    requires Inv(db) && AddsRequest(db, after, id, request) && request.status == Pending && q in after.requests
    ensures RequestOk(after, q)
  {
    if q == id {
      var t :| t in after.slots && t !in db.slots;
      assert !AllSigned(after.slots, id);
    } else {
      assert RequestOk(db, q);
      assert AllSigned(after.slots, q) <==> AllSigned(db.slots, q);
    }
  }

  lemma AddedSlotsOk(db: Db, after: Db, id: nat, request: Request)
    requires Inv(db) && AddsRequest(db, after, id, request)
    ensures Linked(after) && forall t | t in after.slots :: SlotOk(after, t)
  {
    assert Linked(after);
    forall t | t in after.slots ensures SlotOk(after, t) {
      if t in db.slots {
        assert SlotOk(db, t);
      }
    }
  }

  lemma CreateKeepsInv(db: Db, id: nat, tokens: seq<nat>, actor: nat, hash: string, invites: seq<Invite>, expiresAt: Option<int>, now: int)
    requires Inv(db) && FreshFor(db, id, tokens, invites)
    ensures Inv(Create(db, id, tokens, actor, hash, invites, expiresAt, now).0)
  {
    var after := Create(db, id, tokens, actor, hash, invites, expiresAt, now).0;
    var request := Request(hash, actor, Pending, expiresAt);
    CreateAdds(db, id, tokens, actor, hash, invites, expiresAt, now);
    if after != db {
      AddedSlotsOk(db, after, id, request);
      forall q | q in after.requests ensures RequestOk(after, q) {
        AddedRequestsOk(db, after, id, request, q);
      }
      SignaturesStayOk(db, after);
    }
  }

  /** A link runs out with its request and is checked first, so no request is ever marked expired. */
  lemma ExpiryIsNeverRecorded(db: Db, token: nat, actor: nat, emails: Emails, now: int)
    requires Inv(db)
    ensures Load(db, token, now).0 == db && Load(db, token, now).1 != Err(RequestExpired)
    ensures Loaded(db, token, actor, emails, now).0 == db
  {
    if token in db.slots {
      assert SlotOk(db, token);
    }
  }

  /** What loading a slot for signing establishes. */
  lemma LoadedSlotIsOpen(db: Db, token: nat, actor: nat, emails: Emails, now: int)
    requires Inv(db) && Loaded(db, token, actor, emails, now).1.Ok?
    ensures token in db.slots && Loaded(db, token, actor, emails, now).1.value == db.slots[token]
    ensures db.slots[token].signedAt.None? && db.slots[token].declinedAt.None?
    ensures db.requests[db.slots[token].request].status == Pending
  {
    assert RequestOk(db, db.slots[token].request);
  }

  /** Who may fill a slot: its user, or whoever has the invited address. */
  predicate MayFill(slot: Slot, actor: nat, emails: Emails) {
    match slot.user
    case Some(user) => user == actor
    case None => slot.email.Some? ==> actor in emails && emails[actor] == slot.email.value
  }

  /** A slot can be signed exactly while it is open, its request is pending and its link has not run out, by whom it is for. */
  lemma SignableExactly(db: Db, token: nat, actor: nat, emails: Emails, proof: Option<string>, now: int)
    requires Inv(db)
    ensures Sign(db, token, actor, emails, proof, now).1.Ok?
       <==> token in db.slots && db.slots[token].signedAt.None? && db.slots[token].declinedAt.None?
            && db.requests[db.slots[token].request].status == Pending && now < db.slots[token].expiresAt
            && MayFill(db.slots[token], actor, emails)
    ensures Decline(db, token, actor, emails, now).1.Ok? <==> Sign(db, token, actor, emails, proof, now).1.Ok?
  {
    if token in db.slots {
      assert SlotOk(db, token);
      assert RequestOk(db, db.slots[token].request);
    }
  }

  lemma MarkedIsSigned(db: Db, token: nat, actor: nat, proof: Option<string>, now: int)
    requires Inv(db) && token in db.slots && db.slots[token].signedAt.None?
    ensures var hash := db.requests[db.slots[token].request].contentHash;
            var after := MarkSigned(AddSignature(db, db.slots[token].request, token, actor, hash, proof), token, actor, now);
            Linked(after) && SignaturesOk(after)
  {
    var r := db.slots[token].request;
    var after := MarkSigned(AddSignature(db, r, token, actor, db.requests[r].contentHash, proof), token, actor, now);
    var n := |db.signatures|;
    assert after.signatures[n].slot == token;
    forall k | 0 <= k < n ensures SignatureOk(after, k) && after.signatures[k].slot != token {
      assert SignatureOk(db, k);
    }
    forall t | t in after.slots && after.slots[t].signedAt.Some? ensures MadeThrough(after.signatures, t) {
      if t != token {
        MadeThroughGrows(db.signatures, after.signatures[n], t);
      }
    }
  }

  lemma MadeThroughGrows(signatures: seq<Signature>, more: Signature, t: nat)
    requires MadeThrough(signatures, t)
    ensures MadeThrough(signatures + [more], t)
  {
    var k :| 0 <= k < |signatures| && signatures[k].slot == t;
    assert (signatures + [more])[k].slot == t;
  }

  /** Marking an open slot leaves every other request as it was, and its own decided by the recount. */
  lemma SignKeepsInv(db: Db, token: nat, actor: nat, emails: Emails, proof: Option<string>, now: int)
    requires Inv(db)
    ensures Inv(Sign(db, token, actor, emails, proof, now).0)
  {
    ExpiryIsNeverRecorded(db, token, actor, emails, now);
    if Loaded(db, token, actor, emails, now).1.Ok? {
      LoadedSlotIsOpen(db, token, actor, emails, now);
      var r := db.slots[token].request;
      var marked := MarkSigned(AddSignature(db, r, token, actor, db.requests[r].contentHash, proof), token, actor, now);
      MarkedIsSigned(db, token, actor, proof, now);
      RecountKeepsInv(db, marked, token);
    }
  }

  /** Slot `token`, open before, is signed; everything else is as it was. */
  predicate SignsOne(db: Db, marked: Db, token: nat) {
    && Linked(db) && Linked(marked) && token in db.slots && marked.requests == db.requests
    && marked.slots.Keys == db.slots.Keys && (forall t | t in db.slots && t != token :: marked.slots[t] == db.slots[t])
    && db.slots[token].declinedAt.None? && marked.slots[token].signedAt.Some?
    && marked.slots[token] == db.slots[token].(signedAt := marked.slots[token].signedAt, user := marked.slots[token].user)
    && db.requests[db.slots[token].request].status == Pending
  }

  lemma RecountRequests(db: Db, marked: Db, token: nat, q: nat)
    requires Inv(db) && SignsOne(db, marked, token) && q in db.requests
    ensures RequestOk(Recompute(marked, db.slots[token].request).0, q)
  {
    assert RequestOk(db, q);
    if q != db.slots[token].request {
      OtherRequestsUnmoved(db.slots, marked.slots, token, q);
    }
  }

  lemma RecountSlots(db: Db, marked: Db, token: nat, t: nat)
    requires Inv(db) && SignsOne(db, marked, token) && t in db.slots
    ensures SlotOk(Recompute(marked, db.slots[token].request).0, t)
  {
    assert SlotOk(db, t);
  }

  lemma RecountKeepsInv(db: Db, marked: Db, token: nat)
    requires Inv(db) && SignsOne(db, marked, token) && SignaturesOk(marked)
    ensures Inv(Recompute(marked, db.slots[token].request).0)
  {
    var after := Recompute(marked, db.slots[token].request).0;
    forall q | q in after.requests ensures RequestOk(after, q) {
      RecountRequests(db, marked, token, q);
    }
    forall t | t in after.slots ensures SlotOk(after, t) {
      RecountSlots(db, marked, token, t);
    }
    SignaturesStayOk(marked, after);
  }

  lemma OtherRequestsUnmoved(slots: map<nat, Slot>, after: map<nat, Slot>, token: nat, q: nat)
    requires token in slots && slots[token].request != q && after.Keys == slots.Keys
    requires after[token].request == slots[token].request
    requires forall t | t in slots && t != token :: after[t] == slots[t]
    ensures AllSigned(after, q) <==> AllSigned(slots, q)
  {
  }

  /** Slot `token`, open before, is declined, and its request with it. */
  predicate DeclinesOne(db: Db, after: Db, token: nat) {
    && Linked(db) && token in db.slots && db.slots[token].signedAt.None? && after.slots.Keys == db.slots.Keys
    && (forall t | t in db.slots && t != token :: after.slots[t] == db.slots[t])
    && after.slots[token] == db.slots[token].(declinedAt := after.slots[token].declinedAt, user := after.slots[token].user)
    && var r := db.slots[token].request;
    && db.requests[r].status == Pending
    && after.requests == db.requests[r := db.requests[r].(status := Declined)] && after.signatures == db.signatures
  }

  lemma DeclinedRequests(db: Db, after: Db, token: nat, q: nat)
    requires Inv(db) && DeclinesOne(db, after, token) && q in after.requests
    ensures RequestOk(after, q)
  {
    assert RequestOk(db, q);
    assert after.slots[token].request == db.slots[token].request && after.slots[token].signedAt.None?;
    if q != db.slots[token].request {
      OtherRequestsUnmoved(db.slots, after.slots, token, q);
    }
  }

  lemma DeclinedSlots(db: Db, after: Db, token: nat, t: nat)
    requires Inv(db) && DeclinesOne(db, after, token) && t in after.slots
    ensures Linked(after) && SlotOk(after, t)
  {
    assert SlotOk(db, t);
  }

  lemma DeclineEffect(db: Db, token: nat, actor: nat, emails: Emails, now: int)
    requires Inv(db)
    ensures var after := Decline(db, token, actor, emails, now).0; after == db || DeclinesOne(db, after, token)
  {
    ExpiryIsNeverRecorded(db, token, actor, emails, now);
    if Loaded(db, token, actor, emails, now).1.Ok? {
      LoadedSlotIsOpen(db, token, actor, emails, now);
    }
  }

  lemma DeclineKeepsInv(db: Db, token: nat, actor: nat, emails: Emails, now: int)
    requires Inv(db)
    ensures Inv(Decline(db, token, actor, emails, now).0)
  {
    var after := Decline(db, token, actor, emails, now).0;
    DeclineEffect(db, token, actor, emails, now);
    if after != db {
      DeclinedSlots(db, after, token, token);
      forall t | t in after.slots ensures SlotOk(after, t) {
        DeclinedSlots(db, after, token, t);
      }
      forall q | q in after.requests ensures RequestOk(after, q) {
        DeclinedRequests(db, after, token, q);
      }
      SignaturesStayOk(db, after);
    }
  }

  lemma RevokeKeepsInv(db: Db, id: nat, actor: nat)
    requires Inv(db)
    ensures Inv(Revoke(db, id, actor).0)
  {
    var after := Revoke(db, id, actor).0;
    forall q | q in after.requests ensures RequestOk(after, q) {
      assert RequestOk(db, q);
    }
    forall t | t in after.slots ensures SlotOk(after, t) {
      assert SlotOk(db, t);
    }
    SignaturesStayOk(db, after);
  }

  lemma ReattestKeepsInv(db: Db, k: nat, proof: Option<string>)
    requires Inv(db)
    ensures Inv(Reattest(db, k, proof).0)
  {
    var after := Reattest(db, k, proof).0;
    forall j | 0 <= j < |after.signatures| ensures SignatureOk(after, j) {
      assert SignatureOk(db, j);
    }
    forall t | t in after.slots ensures SlotOk(after, t) && (after.slots[t].signedAt.Some? ==> MadeThrough(after.signatures, t)) {
      assert SlotOk(db, t);
      if after.slots[t].signedAt.Some? {
        var j :| 0 <= j < |db.signatures| && db.signatures[j].slot == t;
        assert after.signatures[j].slot == t;
      }
    }
    forall q | q in after.requests ensures RequestOk(after, q) {
      assert RequestOk(db, q);
    }
  }

  lemma PerformKeepsInv(db: Db, call: Call)
    requires Inv(db)
    ensures Inv(Perform(db, call))
  {
    match call
    case CreateCall(id, tokens, actor, hash, invites, expiresAt, now) =>
      if FreshFor(db, id, tokens, invites) {
        CreateKeepsInv(db, id, tokens, actor, hash, invites, expiresAt, now);
      }
    case SignCall(token, actor, emails, proof, now) => SignKeepsInv(db, token, actor, emails, proof, now);
    case DeclineCall(token, actor, emails, now) => DeclineKeepsInv(db, token, actor, emails, now);
    case RevokeCall(id, actor) => RevokeKeepsInv(db, id, actor);
    case ReattestCall(k, proof) => ReattestKeepsInv(db, k, proof);
  }

  /** Every run of whole calls from empty tables keeps the invariant. */
  function Run(calls: seq<Call>): (db: Db)
    ensures Inv(db)
  {
    if calls == [] then Db(map[], map[], [])
    else
      var before := Run(calls[..|calls| - 1]);
      PerformKeepsInv(before, calls[|calls| - 1]);
      Perform(before, calls[|calls| - 1])
  }

  predicate HashMatches(db: Db, signature: Signature) {
    signature.request in db.requests && signature.contentHash == db.requests[signature.request].contentHash
  }

  /** Over every run: a request is signed exactly when all its slots are, and every signature is of the request's content. */
  lemma SignedWhenAllSigned(calls: seq<Call>, r: nat, k: nat)
    ensures var db := Run(calls);
            && (r in db.requests ==> (db.requests[r].status == Signed <==> AllSigned(db.slots, r)))
            && (k < |db.signatures| ==> HashMatches(db, db.signatures[k]))
  {
    var db := Run(calls);
    if r in db.requests {
      assert RequestOk(db, r);
    }
    if k < |db.signatures| {
      assert SignatureOk(db, k);
    }
  }

  /** Over every run: a slot has one signature if it is signed and none if it is not. */
  lemma OneSignaturePerSlot(calls: seq<Call>, t: nat)
    requires t in Run(calls).slots
    ensures var db := Run(calls);
            && (db.slots[t].signedAt.Some? <==> MadeThrough(db.signatures, t))
            && (forall j, k | 0 <= j < k < |db.signatures| :: !(db.signatures[j].slot == db.signatures[k].slot == t))
  {
    var db := Run(calls);
    if MadeThrough(db.signatures, t) {
      var k :| 0 <= k < |db.signatures| && db.signatures[k].slot == t;
      assert SignatureOk(db, k);
    }
  }

  predicate Final(status: Status) {
    status == Signed || status == Declined || status == Revoked
  }

  /** What a call never touches: the content and creator of a request, a status that is final, a signed slot, and all but the proof of a signature. */
  ghost predicate Lasting(db: Db, after: Db) {
    && (forall r | r in db.requests :: r in after.requests
          && after.requests[r] == db.requests[r].(status := after.requests[r].status)
          && (Final(db.requests[r].status) ==> after.requests[r].status == db.requests[r].status))
    && (forall t | t in db.slots && (db.slots[t].signedAt.Some? || db.slots[t].declinedAt.Some?) :: t in after.slots && after.slots[t] == db.slots[t])
    && |db.signatures| <= |after.signatures|
    && (forall k | 0 <= k < |db.signatures| :: SameSignature(db.signatures[k], after.signatures[k]))
  }

  /** Attestation is retried until it succeeds, and a validated proof is kept. */
  predicate SameSignature(was: Signature, now: Signature) {
    && now == was.(proof := now.proof, attempts := now.attempts)
    && (was.proof.Some? ==> now == was)
    && now.attempts >= was.attempts
  }

  /** A change to one open slot and the status of its pending request. */
  predicate TouchesOne(db: Db, after: Db, token: nat) {
    && Linked(db) && token in db.slots && token in after.slots
    && db.slots[token].signedAt.None? && db.slots[token].declinedAt.None?
    && (forall t | t in db.slots && t != token :: t in after.slots && after.slots[t] == db.slots[t])
    && var r := db.slots[token].request;
    && db.requests[r].status == Pending && r in after.requests
    && after.requests == db.requests[r := db.requests[r].(status := after.requests[r].status)]
    && db.signatures <= after.signatures
  }

  lemma TouchesOneLasts(db: Db, after: Db, token: nat)
    requires TouchesOne(db, after, token)
    ensures Lasting(db, after)
  {
  }

  lemma SignTouchesOne(db: Db, token: nat, actor: nat, emails: Emails, proof: Option<string>, now: int)
    requires Inv(db)
    ensures var after := Sign(db, token, actor, emails, proof, now).0; after == db || TouchesOne(db, after, token)
  {
    ExpiryIsNeverRecorded(db, token, actor, emails, now);
    if Loaded(db, token, actor, emails, now).1.Ok? {
      LoadedSlotIsOpen(db, token, actor, emails, now);
    }
  }

  lemma DeclineTouchesOne(db: Db, token: nat, actor: nat, emails: Emails, now: int)
    requires Inv(db)
    ensures var after := Decline(db, token, actor, emails, now).0; after == db || TouchesOne(db, after, token)
  {
    ExpiryIsNeverRecorded(db, token, actor, emails, now);
    if Loaded(db, token, actor, emails, now).1.Ok? {
      LoadedSlotIsOpen(db, token, actor, emails, now);
    }
  }

  lemma AddsRequestLasts(db: Db, after: Db, id: nat, request: Request)
    requires AddsRequest(db, after, id, request)
    ensures Lasting(db, after)
  {
  }

  lemma PerformLasts(db: Db, call: Call)
    requires Inv(db)
    ensures Lasting(db, Perform(db, call))
  {
    match call
    case CreateCall(id, tokens, actor, hash, invites, expiresAt, now) =>
      if FreshFor(db, id, tokens, invites) {
        CreateLasts(db, id, tokens, actor, hash, invites, expiresAt, now);
      }
    case SignCall(token, actor, emails, proof, now) => SignLasts(db, token, actor, emails, proof, now);
    case DeclineCall(token, actor, emails, now) => DeclineLasts(db, token, actor, emails, now);
    case RevokeCall(id, actor) => RevokeLasts(db, id, actor);
    case ReattestCall(k, proof) => ReattestLasts(db, k, proof);
  }

  lemma CreateLasts(db: Db, id: nat, tokens: seq<nat>, actor: nat, hash: string, invites: seq<Invite>, expiresAt: Option<int>, now: int)
    requires FreshFor(db, id, tokens, invites)
    ensures Lasting(db, Create(db, id, tokens, actor, hash, invites, expiresAt, now).0)
  {
    var after := Create(db, id, tokens, actor, hash, invites, expiresAt, now).0;
    CreateAdds(db, id, tokens, actor, hash, invites, expiresAt, now);
    if after != db {
      AddsRequestLasts(db, after, id, Request(hash, actor, Pending, expiresAt));
    }
  }

  lemma SignLasts(db: Db, token: nat, actor: nat, emails: Emails, proof: Option<string>, now: int)
    requires Inv(db)
    ensures Lasting(db, Sign(db, token, actor, emails, proof, now).0)
  {
    SignTouchesOne(db, token, actor, emails, proof, now);
    if Sign(db, token, actor, emails, proof, now).0 != db {
      TouchesOneLasts(db, Sign(db, token, actor, emails, proof, now).0, token);
    }
  }

  lemma DeclineLasts(db: Db, token: nat, actor: nat, emails: Emails, now: int)
    requires Inv(db)
    ensures Lasting(db, Decline(db, token, actor, emails, now).0)
  {
    DeclineTouchesOne(db, token, actor, emails, now);
    if Decline(db, token, actor, emails, now).0 != db {
      TouchesOneLasts(db, Decline(db, token, actor, emails, now).0, token);
    }
  }

  lemma RevokeLasts(db: Db, id: nat, actor: nat)
    ensures Lasting(db, Revoke(db, id, actor).0)
  {
  }

  lemma ReattestLasts(db: Db, k: nat, proof: Option<string>)
    ensures Lasting(db, Reattest(db, k, proof).0)
  {
  }

  lemma LastingChain(a: Db, b: Db, c: Db)
    requires Lasting(a, b) && Lasting(b, c)
    ensures Lasting(a, c)
  {
    forall k | 0 <= k < |a.signatures| ensures SameSignature(a.signatures[k], c.signatures[k]) {
      assert SameSignature(a.signatures[k], b.signatures[k]) && SameSignature(b.signatures[k], c.signatures[k]);
    }
  }

  /** SIGNED, DECLINED and REVOKED are never left, and nothing signed, declined or proved is undone. */
  lemma {:induction false} NothingIsUndone(calls: seq<Call>, n: nat)
    requires n <= |calls|
    ensures Lasting(Run(calls[..n]), Run(calls))
  {
    if n == |calls| {
      assert calls[..n] == calls;
    } else {
      var before := calls[..|calls| - 1];
      NothingIsUndone(before, n);
      assert before[..n] == calls[..n];
      PerformLasts(Run(before), calls[|calls| - 1]);
      LastingChain(Run(calls[..n]), Run(before), Run(calls));
    }
  }

  // ---------------------------------------------------------------- interleaved calls

  /** A call in flight, named after the write or read it does next. */
  datatype Phase =
    | Creating(token: nat, actor: nat, request: nat, hash: string)
    | Marking(token: nat, actor: nat, request: nat)
    | Recounting(request: nat)
    | Closing(request: nat)
    | Revoking(request: nat)
    | Declining(token: nat, actor: nat, request: nat)
    | DeclineClosing(request: nat)

  datatype State = State(db: Db, calls: map<nat, Phase>)

  datatype Happening =
    | BeginSign(c: nat, token: nat, actor: nat, emails: Emails, now: int)
    | BeginRevoke(c: nat, request: nat, actor: nat)
    | BeginDecline(c: nat, token: nat, actor: nat, emails: Emails, now: int)
    | Next(c: nat, proof: Option<string>, now: int)

  function Advance(db: Db, phase: Phase, proof: Option<string>, now: int): (Db, Option<Phase>) {
    match phase
    case Creating(token, actor, request, hash) =>
      (AddSignature(db, request, token, actor, hash, proof), Some(Marking(token, actor, request)))
    case Marking(token, actor, request) =>
      (if token in db.slots then MarkSigned(db, token, actor, now) else db, Some(Recounting(request)))
    case Recounting(request) =>
      (db, if AllSigned(db.slots, request) then Some(Closing(request)) else None)
    case Closing(request) =>
      (if request in db.requests then SetStatus(db, request, Signed) else db, None)
    case Revoking(request) =>
      (if request in db.requests then SetStatus(db, request, Revoked) else db, None)
    case Declining(token, actor, request) =>
      (if token in db.slots then MarkDeclined(db, token, actor, now) else db, Some(DeclineClosing(request)))
    case DeclineClosing(request) =>
      (if request in db.requests then SetStatus(db, request, Declined) else db, None)
  }

  function Step(s: State, h: Happening): State
    requires Linked(s.db)
  {
    match h
    case BeginSign(c, token, actor, emails, now) =>
      if c in s.calls then s
      else
        var (db, loaded) := Loaded(s.db, token, actor, emails, now);
        if loaded.Err? then s.(db := db)
        else
          var r := loaded.value.request;
          State(db, s.calls[c := Creating(token, actor, r, db.requests[r].contentHash)])
    case BeginDecline(c, token, actor, emails, now) =>
      if c in s.calls then s
      else
        var (db, loaded) := Loaded(s.db, token, actor, emails, now);
        if loaded.Err? then s.(db := db) else State(db, s.calls[c := Declining(token, actor, loaded.value.request)])
    case BeginRevoke(c, request, actor) =>
      if c in s.calls || RevokeError(s.db, request, actor).Some? then s else s.(calls := s.calls[c := Revoking(request)])
    case Next(c, proof, now) =>
      if c !in s.calls then s
      else
        var (db, rest) := Advance(s.db, s.calls[c], proof, now);
        State(db, if rest.Some? then s.calls[c := rest.value] else s.calls - {c})
  }

  lemma StepKeepsLinked(s: State, h: Happening)
    requires Linked(s.db)
    ensures Linked(Step(s, h).db)
  {
  }

  function RunSteps(s: State, hs: seq<Happening>): State
    requires Linked(s.db)
    decreases hs
  {
    if hs == [] then s
    else
      StepKeepsLinked(s, hs[0]);
      RunSteps(Step(s, hs[0]), hs[1..])
  }

  predicate PhaseOk(db: Db, phase: Phase) {
    match phase
    case Creating(token, _, request, _) => token in db.slots && db.slots[token].request == request
    case Marking(token, _, request) => token in db.slots && db.slots[token].request == request
    case Recounting(_) => true
    case Closing(request) => AllSigned(db.slots, request)
    case Revoking(_) => false
    case Declining(_, _, _) => false
    case DeclineClosing(_) => false
  }

  /** A call that is about to count the slots of `r`, or has counted them all. */
  predicate Counts(phase: Phase, r: nat) {
    phase == Recounting(r) || phase == Closing(r)
  }

  ghost predicate Counted(s: State, r: nat) {
    exists c :: c in s.calls && Counts(s.calls[c], r)
  }

  /** A request whose last slot is signed is closed, or a call that will close it is under way. */
  ghost predicate RequestTracked(s: State, r: nat)
    requires r in s.db.requests
  {
    && (s.db.requests[r].status == Signed ==> AllSigned(s.db.slots, r))
    && (AllSigned(s.db.slots, r) ==> s.db.requests[r].status == Signed || Counted(s, r))
  }

  ghost predicate Tracked(s: State) {
    && Linked(s.db)
    && (forall c | c in s.calls :: PhaseOk(s.db, s.calls[c]))
    && (forall r | r in s.db.requests :: RequestTracked(s, r))
  }

  lemma StillCounted(s: State, t: State, c: nat, r: nat)
    requires Counted(s, r) && (c in s.calls ==> !Counts(s.calls[c], r))
    requires forall d | d in s.calls && d != c :: d in t.calls && t.calls[d] == s.calls[d]
    ensures Counted(t, r)
  {
    var d :| d in s.calls && Counts(s.calls[d], r);
    assert d in t.calls && Counts(t.calls[d], r);
  }

  lemma BeginKeepsTracked(s: State, c: nat, token: nat, actor: nat, emails: Emails, now: int)
    requires Tracked(s)
    ensures Tracked(Step(s, BeginSign(c, token, actor, emails, now)))
  {
    var t := Step(s, BeginSign(c, token, actor, emails, now));
    forall r | r in t.db.requests ensures RequestTracked(t, r) {
      assert RequestTracked(s, r);
      if Counted(s, r) && c !in s.calls {
        StillCounted(s, t, c, r);
      }
    }
  }

  lemma CreatingKeepsTracked(s: State, c: nat, proof: Option<string>, now: int)
    requires Tracked(s) && c in s.calls && s.calls[c].Creating?
    ensures Tracked(Step(s, Next(c, proof, now)))
  {
    var t := Step(s, Next(c, proof, now));
    assert PhaseOk(s.db, s.calls[c]);
    forall r | r in t.db.requests ensures RequestTracked(t, r) {
      assert RequestTracked(s, r);
      if Counted(s, r) {
        StillCounted(s, t, c, r);
      }
    }
  }

  lemma MarkingKeepsTracked(s: State, c: nat, proof: Option<string>, now: int)
    requires Tracked(s) && c in s.calls && s.calls[c].Marking?
    ensures Tracked(Step(s, Next(c, proof, now)))
  {
    var t := Step(s, Next(c, proof, now));
    assert PhaseOk(s.db, s.calls[c]);
    forall r | r in t.db.requests ensures RequestTracked(t, r) {
      assert RequestTracked(s, r);
      if r == s.calls[c].request {
        assert c in t.calls && Counts(t.calls[c], r);
      } else {
        OtherRequestsUnmoved(s.db.slots, t.db.slots, s.calls[c].token, r);
        if Counted(s, r) {
          StillCounted(s, t, c, r);
        }
      }
    }
    forall d | d in t.calls ensures PhaseOk(t.db, t.calls[d]) {
      assert d != c ==> PhaseOk(s.db, s.calls[d]);
    }
  }

  lemma RecountingKeepsTracked(s: State, c: nat, proof: Option<string>, now: int)
    requires Tracked(s) && c in s.calls && s.calls[c].Recounting?
    ensures Tracked(Step(s, Next(c, proof, now)))
  {
    var t := Step(s, Next(c, proof, now));
    forall r | r in t.db.requests ensures RequestTracked(t, r) {
      assert RequestTracked(s, r);
      if r == s.calls[c].request {
        assert AllSigned(s.db.slots, r) ==> c in t.calls && Counts(t.calls[c], r);
      } else if Counted(s, r) {
        StillCounted(s, t, c, r);
      }
    }
  }

  lemma ClosingKeepsTracked(s: State, c: nat, proof: Option<string>, now: int)
    requires Tracked(s) && c in s.calls && s.calls[c].Closing?
    ensures Tracked(Step(s, Next(c, proof, now)))
  {
    var t := Step(s, Next(c, proof, now));
    assert PhaseOk(s.db, s.calls[c]);
    forall r | r in t.db.requests ensures RequestTracked(t, r) {
      assert RequestTracked(s, r);
      if r != s.calls[c].request && Counted(s, r) {
        StillCounted(s, t, c, r);
      }
    }
  }

  lemma StepKeepsTracked(s: State, h: Happening)
    requires Tracked(s) && !h.BeginRevoke? && !h.BeginDecline?
    ensures Tracked(Step(s, h))
  {
    match h
    case BeginSign(c, token, actor, emails, now) => BeginKeepsTracked(s, c, token, actor, emails, now);
    case Next(c, proof, now) =>
      if c in s.calls {
        assert PhaseOk(s.db, s.calls[c]);
        match s.calls[c] {
          case Creating(_, _, _, _) => CreatingKeepsTracked(s, c, proof, now);
          case Marking(_, _, _) => MarkingKeepsTracked(s, c, proof, now);
          case Recounting(_) => RecountingKeepsTracked(s, c, proof, now);
          case Closing(_) => ClosingKeepsTracked(s, c, proof, now);
        }
      }
  }

  predicate SigningOnly(hs: seq<Happening>) {
    forall i | 0 <= i < |hs| :: !hs[i].BeginRevoke? && !hs[i].BeginDecline?
  }

  lemma {:induction false} RunKeepsTracked(s: State, hs: seq<Happening>)
    requires Tracked(s) && SigningOnly(hs)
    ensures Tracked(RunSteps(s, hs))
    decreases hs
  {
    if hs != [] {
      StepKeepsTracked(s, hs[0]);
      RunKeepsTracked(Step(s, hs[0]), hs[1..]);
    }
  }

  /** Signing calls interleaved in any way: once all have returned, a request is signed exactly when every slot is. */
  lemma AllReturnedMeansCounted(db: Db, hs: seq<Happening>, r: nat)
    requires Inv(db) && SigningOnly(hs)
    ensures var end := RunSteps(State(db, map[]), hs);
            end.calls == map[] && r in end.db.requests ==>
              (end.db.requests[r].status == Signed <==> AllSigned(end.db.slots, r))
  {
    var s := State(db, map[]);
    forall q | q in db.requests ensures RequestTracked(s, q) {
      assert RequestOk(db, q);
    }
    RunKeepsTracked(s, hs);
    var end := RunSteps(s, hs);
    if r in end.db.requests {
      assert RequestTracked(end, r);
    }
  }

  // ---------------------------------------------------------------- uninterrupted and overlapping calls

  lemma RunCons(s: State, h: Happening, after: seq<Happening>)
    requires Linked(s.db)
    ensures Linked(Step(s, h).db) && RunSteps(s, [h] + after) == RunSteps(Step(s, h), after)
  {
    StepKeepsLinked(s, h);
    assert ([h] + after)[1..] == after;
  }

  function SignSteps(c: nat, token: nat, actor: nat, emails: Emails, proof: Option<string>, now: int, after: seq<Happening>): seq<Happening> {
    var n := Next(c, proof, now);
    [BeginSign(c, token, actor, emails, now)] + ([n] + ([n] + ([n] + ([n] + after))))
  }

  /** A signing call nobody interrupts is the service's whole call. */
  lemma SignRun(s: State, c: nat, token: nat, actor: nat, emails: Emails, proof: Option<string>, now: int, after: seq<Happening>)
    requires Linked(s.db) && c !in s.calls
    ensures var db := Sign(s.db, token, actor, emails, proof, now).0;
            Linked(db) && RunSteps(s, SignSteps(c, token, actor, emails, proof, now, after)) == RunSteps(State(db, s.calls), after)
  {
    var n := Next(c, proof, now);
    var s1 := Step(s, BeginSign(c, token, actor, emails, now));
    RunCons(s, BeginSign(c, token, actor, emails, now), [n] + ([n] + ([n] + ([n] + after))));
    RunCons(s1, n, [n] + ([n] + ([n] + after)));
    RunCons(Step(s1, n), n, [n] + ([n] + after));
    RunCons(Step(Step(s1, n), n), n, [n] + after);
    RunCons(Step(Step(Step(s1, n), n), n), n, after);
    FourSteps(s, c, token, actor, emails, proof, now);
  }

  lemma FourSteps(s: State, c: nat, token: nat, actor: nat, emails: Emails, proof: Option<string>, now: int)
    requires Linked(s.db) && c !in s.calls
    ensures var n := Next(c, proof, now);
            var s1 := Step(s, BeginSign(c, token, actor, emails, now));
            Step(Step(Step(Step(s1, n), n), n), n) == State(Sign(s.db, token, actor, emails, proof, now).0, s.calls)
  {
    var n := Next(c, proof, now);
    var s1 := Step(s, BeginSign(c, token, actor, emails, now));
    var (db1, loaded) := Loaded(s.db, token, actor, emails, now);
    if loaded.Ok? {
      var r := loaded.value.request;
      var db2 := AddSignature(db1, r, token, actor, db1.requests[r].contentHash, proof);
      var db3 := MarkSigned(db2, token, actor, now);
      assert Step(s1, n) == State(db2, s.calls[c := Marking(token, actor, r)]);
      assert Step(Step(s1, n), n) == State(db3, s.calls[c := Recounting(r)]);
      LastTwoSteps(State(db3, s.calls), c, r, proof, now);
    }
  }

  lemma LastTwoSteps(s: State, c: nat, r: nat, proof: Option<string>, now: int)
    requires Linked(s.db) && c !in s.calls && r in s.db.requests
    ensures var n := Next(c, proof, now);
            Step(Step(s.(calls := s.calls[c := Recounting(r)]), n), n) == State(Recompute(s.db, r).0, s.calls)
  {
    var n := Next(c, proof, now);
    assert s.calls[c := Recounting(r)] - {c} == s.calls;
    assert s.calls[c := Closing(r)] - {c} == s.calls;
    if AllSigned(s.db.slots, r) {
      assert Step(s.(calls := s.calls[c := Recounting(r)]), n) == s.(calls := s.calls[c := Closing(r)]);
    }
  }

  /** Two overlapping calls on a link that may be signed both record a signature. */
  lemma OverlapSignsTwice(s: State, c: nat, d: nat, token: nat, actor: nat, emails: Emails, proof: Option<string>, now: int)
    requires Linked(s.db) && c != d && c !in s.calls && d !in s.calls
    requires Loaded(s.db, token, actor, emails, now).1.Ok?
    ensures var b, e, n := BeginSign(c, token, actor, emails, now), BeginSign(d, token, actor, emails, now), |s.db.signatures|;
            var signatures := RunSteps(s, [b] + ([e] + ([Next(c, proof, now)] + ([Next(d, proof, now)] + [])))).db.signatures;
            |signatures| == n + 2 && signatures[n] == signatures[n + 1] && signatures[n].slot == token
  {
    var b, e, n, m := BeginSign(c, token, actor, emails, now), BeginSign(d, token, actor, emails, now), Next(c, proof, now), Next(d, proof, now);
    var s1 := Step(s, b);
    var s2 := Step(s1, e);
    var s3 := Step(s2, n);
    RunCons(s, b, [e] + ([n] + ([m] + [])));
    RunCons(s1, e, [n] + ([m] + []));
    RunCons(s2, n, [m] + []);
    RunCons(s3, m, []);
  }

  /**
   * A revocation that read PENDING before the last signer signed overwrites SIGNED: the statuses
   * are final for whole calls only.
   */
  lemma RevocationOverwritesSigned(s: State, c: nat, d: nat, token: nat, actor: nat, emails: Emails, proof: Option<string>, now: int)
    requires Linked(s.db) && token in s.db.slots && c != d && c !in s.calls && d !in s.calls
    requires Sign(s.db, token, actor, emails, proof, now).1 == Ok(Signed)
    requires RevokeError(s.db, s.db.slots[token].request, s.db.requests[s.db.slots[token].request].creator).None?
    ensures var r := s.db.slots[token].request;
            var end := RunSteps(s, [BeginRevoke(d, r, s.db.requests[r].creator)]
                                   + SignSteps(c, token, actor, emails, proof, now, [Next(d, proof, now)] + []));
            r in end.db.requests && end.db.requests[r].status == Revoked && AllSigned(end.db.slots, r)
  {
    var r := s.db.slots[token].request;
    var b, m := BeginRevoke(d, r, s.db.requests[r].creator), Next(d, proof, now);
    var s1 := Step(s, b);
    var s2 := State(Sign(s.db, token, actor, emails, proof, now).0, s1.calls);
    RunCons(s, b, SignSteps(c, token, actor, emails, proof, now, [m] + []));
    SignRun(s1, c, token, actor, emails, proof, now, [m] + []);
    RunCons(s2, m, []);
  }

  /** A revocation nobody interrupts is the service's whole call. */
  lemma RevokeRun(s: State, c: nat, request: nat, actor: nat, proof: Option<string>, now: int, after: seq<Happening>)
    requires Linked(s.db) && c !in s.calls
    ensures var db := Revoke(s.db, request, actor).0;
            && Linked(db)
            && RunSteps(s, [BeginRevoke(c, request, actor)] + ([Next(c, proof, now)] + after)) == RunSteps(State(db, s.calls), after)
  {
    var b, n := BeginRevoke(c, request, actor), Next(c, proof, now);
    var s1 := Step(s, b);
    RunCons(s, b, [n] + after);
    RunCons(s1, n, after);
    assert s.calls[c := Revoking(request)] - {c} == s.calls;
  }

  /** A decline nobody interrupts is the service's whole call. */
  lemma DeclineRun(s: State, c: nat, token: nat, actor: nat, emails: Emails, proof: Option<string>, now: int, after: seq<Happening>)
    requires Linked(s.db) && c !in s.calls
    ensures var db := Decline(s.db, token, actor, emails, now).0;
            var n := Next(c, proof, now);
            && Linked(db)
            && RunSteps(s, [BeginDecline(c, token, actor, emails, now)] + ([n] + ([n] + after))) == RunSteps(State(db, s.calls), after)
  {
    var b, n := BeginDecline(c, token, actor, emails, now), Next(c, proof, now);
    var s1 := Step(s, b);
    RunCons(s, b, [n] + ([n] + after));
    RunCons(s1, n, [n] + after);
    RunCons(Step(s1, n), n, after);
    DeclineSteps(s, c, token, actor, emails, proof, now);
  }

  lemma DeclineSteps(s: State, c: nat, token: nat, actor: nat, emails: Emails, proof: Option<string>, now: int)
    requires Linked(s.db) && c !in s.calls
    ensures var n := Next(c, proof, now);
            Step(Step(Step(s, BeginDecline(c, token, actor, emails, now)), n), n)
            == State(Decline(s.db, token, actor, emails, now).0, s.calls)
  {
    var (db1, loaded) := Loaded(s.db, token, actor, emails, now);
    if loaded.Ok? {
      var r := loaded.value.request;
      LastDeclineSteps(State(db1, s.calls), c, token, actor, r, proof, now);
    }
  }

  lemma LastDeclineSteps(s: State, c: nat, token: nat, actor: nat, r: nat, proof: Option<string>, now: int)
    requires Linked(s.db) && c !in s.calls && token in s.db.slots && s.db.slots[token].request == r
    ensures var n := Next(c, proof, now);
            Step(Step(s.(calls := s.calls[c := Declining(token, actor, r)]), n), n)
            == State(SetStatus(MarkDeclined(s.db, token, actor, now), r, Declined), s.calls)
  {
    var n := Next(c, proof, now);
    var s1 := s.(calls := s.calls[c := Declining(token, actor, r)]);
    assert Step(s1, n) == State(MarkDeclined(s.db, token, actor, now), s.calls[c := DeclineClosing(r)]);
    assert s.calls[c := DeclineClosing(r)] - {c} == s.calls;
  }

  /** A decline that loaded the slot before the last signer signed overwrites SIGNED, on a slot that is signed too. */
  lemma DeclineOverwritesSigned(s: State, c: nat, d: nat, token: nat, actor: nat, emails: Emails, proof: Option<string>, now: int)
    requires Linked(s.db) && token in s.db.slots && c != d && c !in s.calls && d !in s.calls
    requires Sign(s.db, token, actor, emails, proof, now).1 == Ok(Signed)
    ensures var r, n := s.db.slots[token].request, Next(d, proof, now);
            var end := RunSteps(s, [BeginDecline(d, token, actor, emails, now)]
                                   + SignSteps(c, token, actor, emails, proof, now, [n] + ([n] + [])));
            && HasStatus(end.db, r, Declined) && AllSigned(end.db.slots, r)
            && token in end.db.slots && end.db.slots[token].signedAt.Some? && end.db.slots[token].declinedAt.Some?
  {
    var r := s.db.slots[token].request;
    var b, n := BeginDecline(d, token, actor, emails, now), Next(d, proof, now);
    var s1 := Step(s, b);
    var s2 := State(Sign(s1.db, token, actor, emails, proof, now).0, s1.calls);
    RunCons(s, b, SignSteps(c, token, actor, emails, proof, now, [n] + ([n] + [])));
    LoadTwice(s.db, token, actor, emails, proof, now);
    SignRun(s1, c, token, actor, emails, proof, now, [n] + ([n] + []));
    RunCons(s2, n, [n] + []);
    RunCons(Step(s2, n), n, []);
  }

  /** Loading a slot leaves it loadable. */
  lemma LoadTwice(db: Db, token: nat, actor: nat, emails: Emails, proof: Option<string>, now: int)
    requires Linked(db) && Loaded(db, token, actor, emails, now).1.Ok?
    ensures token in db.slots && Loaded(db, token, actor, emails, now) == (db, Ok(db.slots[token]))
  {
  }

  /** The same with one document, one slot and one account: the slot's owner signs and declines at once. */
  lemma SignedAndDeclined(hash: string, expiresAt: int, now: int)
    requires now < expiresAt
    ensures var db := Db(map[1 := Request(hash, 7, Pending, None)], map[5 := Slot(1, Some(7), None, None, None, expiresAt)], []);
            var n := Next(1, None, now);
            var end := RunSteps(State(db, map[]), [BeginDecline(1, 5, 7, map[], now)] + SignSteps(0, 5, 7, map[], None, now, [n] + ([n] + [])));
            HasStatus(end.db, 1, Declined) && AllSigned(end.db.slots, 1)
  {
    var db := Db(map[1 := Request(hash, 7, Pending, None)], map[5 := Slot(1, Some(7), None, None, None, expiresAt)], []);
    DeclineOverwritesSigned(State(db, map[]), 0, 1, 5, 7, map[], None, now);
  }

  // ---------------------------------------------------------------- how long SIGNED, REVOKED and DECLINED last

  predicate HasStatus(db: Db, r: nat, status: Status) {
    r in db.requests && db.requests[r].status == status
  }

  ghost predicate Stays(s: State, r: nat, status: Status)
    requires Linked(s.db)
  {
    forall hs :: HasStatus(RunSteps(s, hs).db, r, status)
  }

  /** A revocation that has read PENDING and is about to write REVOKED. */
  ghost predicate RevocationHeld(s: State, r: nat) {
    exists c :: c in s.calls && s.calls[c] == Revoking(r)
  }

  /** A decline that has loaded its slot and has not written DECLINED yet. */
  predicate Declines(phase: Phase, r: nat) {
    (phase.Declining? && phase.request == r) || phase == DeclineClosing(r)
  }

  ghost predicate DeclineHeld(s: State, r: nat) {
    exists c :: c in s.calls && Declines(s.calls[c], r)
  }

  /** What a request is decided as: no new call gets past its checks any more. */
  predicate Decided(db: Db, r: nat) {
    r in db.requests && Final(db.requests[r].status)
  }

  lemma NoNewRevocation(s: State, h: Happening, r: nat)
    requires Linked(s.db) && Decided(s.db, r) && !RevocationHeld(s, r)
    ensures !RevocationHeld(Step(s, h), r)
  {
    var t := Step(s, h);
    assert forall c | c in t.calls && t.calls[c] == Revoking(r) :: c in s.calls && s.calls[c] == Revoking(r);
  }

  lemma NoNewDecline(s: State, h: Happening, r: nat)
    requires Linked(s.db) && Decided(s.db, r) && !DeclineHeld(s, r)
    ensures !DeclineHeld(Step(s, h), r)
  {
    var t := Step(s, h);
    assert forall c | c in t.calls && Declines(t.calls[c], r) :: c in s.calls && Declines(s.calls[c], r);
  }

  lemma StepKeepsSigned(s: State, h: Happening, r: nat)
    requires Linked(s.db) && HasStatus(s.db, r, Signed) && !RevocationHeld(s, r) && !DeclineHeld(s, r)
    ensures HasStatus(Step(s, h).db, r, Signed) && !RevocationHeld(Step(s, h), r) && !DeclineHeld(Step(s, h), r)
  {
    if h.Next? && h.c in s.calls {
      assert s.calls[h.c] != Revoking(r) && !Declines(s.calls[h.c], r);
    }
    NoNewRevocation(s, h, r);
    NoNewDecline(s, h, r);
  }

  lemma {:induction false} RunKeepsSigned(s: State, hs: seq<Happening>, r: nat)
    requires Linked(s.db) && HasStatus(s.db, r, Signed) && !RevocationHeld(s, r) && !DeclineHeld(s, r)
    ensures HasStatus(RunSteps(s, hs).db, r, Signed)
    decreases hs
  {
    if hs != [] {
      StepKeepsLinked(s, hs[0]);
      StepKeepsSigned(s, hs[0], r);
      RunKeepsSigned(Step(s, hs[0]), hs[1..], r);
    }
  }

  function Tick(c: nat): Happening {
    Next(c, None, 0)
  }

  /** A held revocation, let on, writes REVOKED. */
  lemma HeldRevocationWrites(s: State, r: nat) returns (hs: seq<Happening>)
    requires Linked(s.db) && r in s.db.requests && RevocationHeld(s, r)
    ensures HasStatus(RunSteps(s, hs).db, r, Revoked)
  {
    var c :| c in s.calls && s.calls[c] == Revoking(r);
    RunCons(s, Tick(c), []);
    hs := [Tick(c)] + [];
  }

  /** A held decline, let on, writes DECLINED. */
  lemma HeldDeclineWrites(s: State, r: nat) returns (hs: seq<Happening>)
    requires Linked(s.db) && r in s.db.requests && DeclineHeld(s, r)
    ensures HasStatus(RunSteps(s, hs).db, r, Declined)
  {
    var c :| c in s.calls && Declines(s.calls[c], r);
    var n := Tick(c);
    if s.calls[c].Declining? {
      RunCons(s, n, [n] + []);
      RunCons(Step(s, n), n, []);
      hs := [n] + ([n] + []);
    } else {
      RunCons(s, n, []);
      hs := [n] + [];
    }
  }

  /**
   * From any state: SIGNED is kept through everything that can follow exactly when neither a
   * revocation nor a decline of the request is held.
   */
  lemma SignedLastsExactly(s: State, r: nat)
    requires Linked(s.db) && HasStatus(s.db, r, Signed)
    ensures Stays(s, r, Signed) <==> !RevocationHeld(s, r) && !DeclineHeld(s, r)
  {
    if RevocationHeld(s, r) {
      var hs := HeldRevocationWrites(s, r);
      assert !HasStatus(RunSteps(s, hs).db, r, Signed);
    } else if DeclineHeld(s, r) {
      var hs := HeldDeclineWrites(s, r);
      assert !HasStatus(RunSteps(s, hs).db, r, Signed);
    } else {
      forall hs ensures HasStatus(RunSteps(s, hs).db, r, Signed) {
        RunKeepsSigned(s, hs, r);
      }
    }
  }

  /** A call in flight that will still mark slot `t`. */
  predicate WillMark(phase: Phase, t: nat) {
    (phase.Creating? || phase.Marking?) && phase.token == t
  }

  ghost predicate MarkHeld(s: State, t: nat) {
    exists c :: c in s.calls && WillMark(s.calls[c], t)
  }

  /** Every slot of the request is signed or about to be marked. */
  ghost predicate Covered(s: State, r: nat) {
    forall t | t in s.db.slots && s.db.slots[t].request == r :: s.db.slots[t].signedAt.Some? || MarkHeld(s, t)
  }

  /** A signing call of the request that will still count its slots. */
  predicate WillCount(phase: Phase, r: nat) {
    (phase.Creating? || phase.Marking? || phase.Recounting?) && phase.request == r
  }

  ghost predicate CountHeld(s: State, r: nat) {
    exists c :: c in s.calls && WillCount(s.calls[c], r)
  }

  ghost predicate ClosingHeld(s: State, r: nat) {
    exists c :: c in s.calls && s.calls[c] == Closing(r)
  }

  /** The calls in flight can still write SIGNED: one is about to, or they will complete the request and count it. */
  ghost predicate CanClose(s: State, r: nat) {
    ClosingHeld(s, r) || (CountHeld(s, r) && Covered(s, r))
  }

  /** A call in flight works on a slot of its own request. */
  ghost predicate PhasesLinked(s: State) {
    forall c | c in s.calls && (s.calls[c].Creating? || s.calls[c].Marking?) ::
      s.calls[c].token in s.db.slots && s.db.slots[s.calls[c].token].request == s.calls[c].request
  }

  lemma StepKeepsPhasesLinked(s: State, h: Happening)
    requires Linked(s.db) && PhasesLinked(s)
    ensures PhasesLinked(Step(s, h))
  {
    var t := Step(s, h);
    forall c | c in t.calls && (t.calls[c].Creating? || t.calls[c].Marking?)
      ensures t.calls[c].token in t.db.slots && t.db.slots[t.calls[c].token].request == t.calls[c].request
    {
      assert c in s.calls && (s.calls[c].Creating? || s.calls[c].Marking?) ==> s.calls[c].token in s.db.slots;
    }
  }

  lemma ClosingWasPossible(s: State, h: Happening, r: nat)
    requires Linked(s.db) && PhasesLinked(s) && Decided(s.db, r) && ClosingHeld(Step(s, h), r)
    ensures CanClose(s, r)
  {
    var t := Step(s, h);
    var c :| c in t.calls && t.calls[c] == Closing(r);
    if c !in s.calls || s.calls[c] != Closing(r) {
      assert h.Next? && h.c == c && s.calls[c] == Recounting(r) && AllSigned(s.db.slots, r);
      assert CountHeld(s, r) && Covered(s, r);
    }
  }

  lemma CountWasHeld(s: State, h: Happening, r: nat)
    requires Linked(s.db) && Decided(s.db, r) && CountHeld(Step(s, h), r)
    ensures CountHeld(s, r)
  {
    var t := Step(s, h);
    var c :| c in t.calls && WillCount(t.calls[c], r);
    assert c in s.calls && WillCount(s.calls[c], r);
  }

  lemma MarkWasHeld(s: State, h: Happening, slot: nat)
    requires Linked(s.db) && slot in s.db.slots && Decided(s.db, s.db.slots[slot].request)
    requires MarkHeld(Step(s, h), slot)
    ensures MarkHeld(s, slot)
  {
    var t := Step(s, h);
    var c :| c in t.calls && WillMark(t.calls[c], slot);
    assert c in s.calls && WillMark(s.calls[c], slot);
  }

  lemma CoverWasThere(s: State, h: Happening, r: nat)
    requires Linked(s.db) && Decided(s.db, r) && Covered(Step(s, h), r)
    ensures Covered(s, r)
  {
    var t := Step(s, h);
    forall slot | slot in s.db.slots && s.db.slots[slot].request == r ensures s.db.slots[slot].signedAt.Some? || MarkHeld(s, slot) {
      assert slot in t.db.slots && t.db.slots[slot].request == r;
      if t.db.slots[slot].signedAt.Some? {
        if s.db.slots[slot].signedAt.None? {
          assert h.Next? && h.c in s.calls && WillMark(s.calls[h.c], slot);
        }
      } else {
        MarkWasHeld(s, h, slot);
      }
    }
  }

  lemma NothingNewCloses(s: State, h: Happening, r: nat)
    requires Linked(s.db) && PhasesLinked(s) && Decided(s.db, r) && !CanClose(s, r)
    ensures !CanClose(Step(s, h), r)
  {
    var t := Step(s, h);
    if ClosingHeld(t, r) {
      ClosingWasPossible(s, h, r);
    }
    if CountHeld(t, r) && Covered(t, r) {
      CountWasHeld(s, h, r);
      CoverWasThere(s, h, r);
    }
  }

  lemma StepKeepsRevoked(s: State, h: Happening, r: nat)
    requires Linked(s.db) && PhasesLinked(s) && HasStatus(s.db, r, Revoked) && !CanClose(s, r) && !DeclineHeld(s, r)
    ensures HasStatus(Step(s, h).db, r, Revoked) && !CanClose(Step(s, h), r) && !DeclineHeld(Step(s, h), r)
  {
    if h.Next? && h.c in s.calls {
      assert s.calls[h.c] != Closing(r) && !Declines(s.calls[h.c], r);
    }
    NothingNewCloses(s, h, r);
    NoNewDecline(s, h, r);
  }

  lemma {:induction false} RunKeepsRevoked(s: State, hs: seq<Happening>, r: nat)
    requires Linked(s.db) && PhasesLinked(s) && HasStatus(s.db, r, Revoked) && !CanClose(s, r) && !DeclineHeld(s, r)
    ensures HasStatus(RunSteps(s, hs).db, r, Revoked)
    decreases hs
  {
    if hs != [] {
      StepKeepsLinked(s, hs[0]);
      StepKeepsPhasesLinked(s, hs[0]);
      StepKeepsRevoked(s, hs[0], r);
      RunKeepsRevoked(Step(s, hs[0]), hs[1..], r);
    }
  }

  lemma StepKeepsDeclined(s: State, h: Happening, r: nat)
    requires Linked(s.db) && PhasesLinked(s) && HasStatus(s.db, r, Declined) && !CanClose(s, r) && !RevocationHeld(s, r)
    ensures HasStatus(Step(s, h).db, r, Declined) && !CanClose(Step(s, h), r) && !RevocationHeld(Step(s, h), r)
  {
    if h.Next? && h.c in s.calls {
      assert s.calls[h.c] != Closing(r) && s.calls[h.c] != Revoking(r);
    }
    NothingNewCloses(s, h, r);
    NoNewRevocation(s, h, r);
  }

  lemma {:induction false} RunKeepsDeclined(s: State, hs: seq<Happening>, r: nat)
    requires Linked(s.db) && PhasesLinked(s) && HasStatus(s.db, r, Declined) && !CanClose(s, r) && !RevocationHeld(s, r)
    ensures HasStatus(RunSteps(s, hs).db, r, Declined)
    decreases hs
  {
    if hs != [] {
      StepKeepsLinked(s, hs[0]);
      StepKeepsPhasesLinked(s, hs[0]);
      StepKeepsDeclined(s, hs[0], r);
      RunKeepsDeclined(Step(s, hs[0]), hs[1..], r);
    }
  }

  ghost function Creators(s: State, r: nat): set<nat> {
    set c | c in s.calls && s.calls[c].Creating? && s.calls[c].request == r
  }

  ghost function Markers(s: State, r: nat): set<nat> {
    set c | c in s.calls && (s.calls[c].Creating? || s.calls[c].Marking?) && s.calls[c].request == r
  }

  lemma CreatorSteps(s: State, c: nat, r: nat)
    requires Linked(s.db) && PhasesLinked(s) && Covered(s, r) && c in Creators(s, r)
    ensures var t := Step(s, Tick(c));
            && t.db.slots == s.db.slots && t.db.requests == s.db.requests && PhasesLinked(t) && Covered(t, r) && CountHeld(t, r)
            && Markers(t, r) == Markers(s, r) && Creators(t, r) == Creators(s, r) - {c}
  {
    var t := Step(s, Tick(c));
    StepKeepsPhasesLinked(s, Tick(c));
    assert c in t.calls && WillCount(t.calls[c], r);
    forall slot | slot in t.db.slots && t.db.slots[slot].request == r ensures t.db.slots[slot].signedAt.Some? || MarkHeld(t, slot) {
      if MarkHeld(s, slot) {
        var d :| d in s.calls && WillMark(s.calls[d], slot);
        assert d in t.calls && WillMark(t.calls[d], slot);
      }
    }
  }

  lemma MarkerSteps(s: State, c: nat, r: nat)
    requires Linked(s.db) && PhasesLinked(s) && Covered(s, r) && c in Markers(s, r) && s.calls[c].Marking?
    ensures var t := Step(s, Tick(c));
            && Linked(t.db) && t.db.requests == s.db.requests && PhasesLinked(t) && Covered(t, r) && CountHeld(t, r)
            && Markers(t, r) == Markers(s, r) - {c}
  {
    var t := Step(s, Tick(c));
    StepKeepsPhasesLinked(s, Tick(c));
    assert c in t.calls && WillCount(t.calls[c], r);
    forall slot | slot in t.db.slots && t.db.slots[slot].request == r ensures t.db.slots[slot].signedAt.Some? || MarkHeld(t, slot) {
      assert slot in s.db.slots && s.db.slots[slot].request == r;
      if slot != s.calls[c].token && s.db.slots[slot].signedAt.None? {
        var d :| d in s.calls && WillMark(s.calls[d], slot);
        assert d in t.calls && WillMark(t.calls[d], slot);
      }
    }
  }

  lemma LastCountCloses(s: State, c: nat, r: nat)
    requires Linked(s.db) && r in s.db.requests && c in s.calls && s.calls[c] == Recounting(r) && AllSigned(s.db.slots, r)
    ensures var n := Tick(c); HasStatus(RunSteps(s, [n] + ([n] + [])).db, r, Signed)
  {
    var n := Tick(c);
    RunCons(s, n, [n] + []);
    RunCons(Step(s, n), n, []);
  }

  /** When no call is left that will mark a slot, all are signed and a call is about to count them. */
  lemma OnlyCounting(s: State, r: nat) returns (c: nat)
    requires PhasesLinked(s) && CountHeld(s, r) && Covered(s, r) && forall d :: d !in Markers(s, r)
    ensures c in s.calls && s.calls[c] == Recounting(r) && AllSigned(s.db.slots, r)
  {
    c :| c in s.calls && WillCount(s.calls[c], r);
    assert c !in Markers(s, r);
    forall slot | slot in s.db.slots && s.db.slots[slot].request == r ensures s.db.slots[slot].signedAt.Some? {
      assert forall d | d in s.calls && WillMark(s.calls[d], slot) :: d in Markers(s, r);
    }
  }

  /** The calls in flight, finished one after the other, write SIGNED. */
  lemma {:induction false} CloseRun(s: State, r: nat) returns (hs: seq<Happening>)
    requires Linked(s.db) && PhasesLinked(s) && r in s.db.requests && CanClose(s, r)
    ensures HasStatus(RunSteps(s, hs).db, r, Signed)
    decreases |Markers(s, r)|, |Creators(s, r)|
  {
    if ClosingHeld(s, r) {
      var c :| c in s.calls && s.calls[c] == Closing(r);
      RunCons(s, Tick(c), []);
      hs := [Tick(c)] + [];
    } else if c :| c in Creators(s, r) {
      CreatorSteps(s, c, r);
      var rest := CloseRun(Step(s, Tick(c)), r);
      RunCons(s, Tick(c), rest);
      hs := [Tick(c)] + rest;
    } else if c :| c in Markers(s, r) {
      assert c !in Creators(s, r);
      MarkerSteps(s, c, r);
      var rest := CloseRun(Step(s, Tick(c)), r);
      RunCons(s, Tick(c), rest);
      hs := [Tick(c)] + rest;
    } else {
      var c := OnlyCounting(s, r);
      LastCountCloses(s, c, r);
      var n := Tick(c);
      hs := [n] + ([n] + []);
    }
  }

  /**
   * From any state: REVOKED is kept through everything that can follow exactly when no decline of
   * the request is held, no call is about to write SIGNED, and the signing calls in flight cannot
   * complete the request and count it.
   */
  lemma RevokedLastsExactly(s: State, r: nat)
    requires Linked(s.db) && PhasesLinked(s) && HasStatus(s.db, r, Revoked)
    ensures Stays(s, r, Revoked) <==> !DeclineHeld(s, r) && !CanClose(s, r)
  {
    if DeclineHeld(s, r) {
      var hs := HeldDeclineWrites(s, r);
      assert !HasStatus(RunSteps(s, hs).db, r, Revoked);
    } else if CanClose(s, r) {
      var hs := CloseRun(s, r);
      assert !HasStatus(RunSteps(s, hs).db, r, Revoked);
    } else {
      forall hs ensures HasStatus(RunSteps(s, hs).db, r, Revoked) {
        RunKeepsRevoked(s, hs, r);
      }
    }
  }

  /** The same for DECLINED, which a held revocation overwrites. */
  lemma DeclinedLastsExactly(s: State, r: nat)
    requires Linked(s.db) && PhasesLinked(s) && HasStatus(s.db, r, Declined)
    ensures Stays(s, r, Declined) <==> !RevocationHeld(s, r) && !CanClose(s, r)
  {
    if RevocationHeld(s, r) {
      var hs := HeldRevocationWrites(s, r);
      assert !HasStatus(RunSteps(s, hs).db, r, Declined);
    } else if CanClose(s, r) {
      var hs := CloseRun(s, r);
      assert !HasStatus(RunSteps(s, hs).db, r, Declined);
    } else {
      forall hs ensures HasStatus(RunSteps(s, hs).db, r, Declined) {
        RunKeepsDeclined(s, hs, r);
      }
    }
  }

  // ---------------------------------------------------------------- how many signatures a slot gets

  function SignaturesOn(signatures: seq<Signature>, token: nat): nat {
    if signatures == [] then 0
    else
      SignaturesOn(signatures[..|signatures| - 1], token) + if signatures[|signatures| - 1].slot == token then 1 else 0
  }

  /** The calls in flight that have loaded the slot and are about to record a signature. */
  ghost function CreatingOn(s: State, token: nat): set<nat> {
    set c | c in s.calls && s.calls[c].Creating? && s.calls[c].token == token
  }

  /** The signatures of a slot, with those that calls in flight are about to record. */
  ghost function Committed(s: State, token: nat): nat {
    SignaturesOn(s.db.signatures, token) + |CreatingOn(s, token)|
  }

  predicate LoadsSlot(s: State, h: Happening, token: nat)
    requires Linked(s.db)
  {
    h.BeginSign? && h.token == token && h.c !in s.calls && Loaded(s.db, token, h.actor, h.emails, h.now).1.Ok?
  }

  /** How many calls of the run load the slot for signing. */
  function LoadCount(s: State, hs: seq<Happening>, token: nat): nat
    requires Linked(s.db)
    decreases hs
  {
    if hs == [] then 0
    else
      StepKeepsLinked(s, hs[0]);
      LoadCount(Step(s, hs[0]), hs[1..], token) + if LoadsSlot(s, hs[0], token) then 1 else 0
  }

  lemma AddedSignature(signatures: seq<Signature>, x: Signature, token: nat)
    ensures SignaturesOn(signatures + [x], token) == SignaturesOn(signatures, token) + if x.slot == token then 1 else 0
  {
    assert (signatures + [x])[..|signatures|] == signatures;
  }

  /** A creating call turns the signature it committed to into a row. */
  lemma CreatingCommits(s: State, c: nat, proof: Option<string>, now: int, token: nat)
    requires Linked(s.db) && c in s.calls && s.calls[c].Creating?
    ensures var t := Step(s, Next(c, proof, now));
            && CreatingOn(t, token) == CreatingOn(s, token) - {c}
            && SignaturesOn(t.db.signatures, token)
               == SignaturesOn(s.db.signatures, token) + if s.calls[c].token == token then 1 else 0
  {
    var t := Step(s, Next(c, proof, now));
    AddedSignature(s.db.signatures, t.db.signatures[|s.db.signatures|], token);
  }

  lemma NextCommits(s: State, c: nat, proof: Option<string>, now: int, token: nat)
    requires Linked(s.db) && c in s.calls
    ensures Committed(Step(s, Next(c, proof, now)), token) == Committed(s, token)
  {
    if s.calls[c].Creating? {
      CreatingCommits(s, c, proof, now, token);
      if s.calls[c].token != token {
        assert CreatingOn(s, token) - {c} == CreatingOn(s, token);
      }
    } else {
      assert CreatingOn(s, token) == CreatingOn(Step(s, Next(c, proof, now)), token);
    }
  }

  lemma BeginSignCommits(s: State, h: Happening, token: nat)
    requires Linked(s.db) && h.BeginSign?
    ensures Committed(Step(s, h), token) == Committed(s, token) + if LoadsSlot(s, h, token) then 1 else 0
  {
    var t := Step(s, h);
    if LoadsSlot(s, h, token) {
      assert CreatingOn(t, token) == CreatingOn(s, token) + {h.c};
    } else {
      assert CreatingOn(t, token) == CreatingOn(s, token);
    }
  }

  lemma OtherBeginsCommitNothing(s: State, h: Happening, token: nat)
    requires Linked(s.db) && (h.BeginRevoke? || h.BeginDecline?)
    ensures Committed(Step(s, h), token) == Committed(s, token)
  {
    assert CreatingOn(Step(s, h), token) == CreatingOn(s, token);
  }

  lemma BeginCommits(s: State, h: Happening, token: nat)
    requires Linked(s.db) && !h.Next?
    ensures Committed(Step(s, h), token) == Committed(s, token) + if LoadsSlot(s, h, token) then 1 else 0
  {
    if h.BeginSign? {
      BeginSignCommits(s, h, token);
    } else {
      OtherBeginsCommitNothing(s, h, token);
    }
  }

  /** Over every interleaving: each call that loads a slot commits to one signature, and nothing else does. */
  lemma {:induction false} SignaturesAreLoads(s: State, hs: seq<Happening>, token: nat)
    requires Linked(s.db)
    ensures Committed(RunSteps(s, hs), token) == Committed(s, token) + LoadCount(s, hs, token)
    decreases hs
  {
    if hs != [] {
      StepKeepsLinked(s, hs[0]);
      SignaturesAreLoads(Step(s, hs[0]), hs[1..], token);
      if hs[0].Next? {
        if hs[0].c in s.calls {
          NextCommits(s, hs[0].c, hs[0].proof, hs[0].now, token);
        }
      } else {
        BeginCommits(s, hs[0], token);
      }
    }
  }

  /** Once all calls have returned, a slot has exactly as many new signatures as calls loaded it while it was open. */
  lemma SignaturesPerSlot(db: Db, hs: seq<Happening>, token: nat)
    requires Linked(db)
    ensures var end := RunSteps(State(db, map[]), hs);
            end.calls == map[] ==>
              SignaturesOn(end.db.signatures, token) == SignaturesOn(db.signatures, token) + LoadCount(State(db, map[]), hs, token)
  {
    SignaturesAreLoads(State(db, map[]), hs, token);
    assert CreatingOn(State(db, map[]), token) == {};
    var end := RunSteps(State(db, map[]), hs);
    if end.calls == map[] {
      assert CreatingOn(end, token) == {};
    }
  }

  /** At clock value `from`, somebody can load the slot for signing. */
  predicate OpenAt(db: Db, token: nat, from: int)
    requires Linked(db)
  {
    && token in db.slots && db.slots[token].signedAt.None? && db.slots[token].declinedAt.None? && from < db.slots[token].expiresAt
    && var request := db.requests[db.slots[token].request];
    && request.status !in {Revoked, Signed, Declined} && (request.expiresAt.Some? ==> from < request.expiresAt.value)
  }

  /** Signing calls, started at `from` or later. */
  predicate SigningFrom(hs: seq<Happening>, from: int) {
    forall i | 0 <= i < |hs| :: hs[i].Next? || (hs[i].BeginSign? && hs[i].now >= from)
  }

  lemma ClosedStaysClosed(s: State, h: Happening, token: nat, from: int)
    requires Linked(s.db) && !OpenAt(s.db, token, from)
    ensures Linked(Step(s, h).db) && !OpenAt(Step(s, h).db, token, from)
    ensures h.BeginSign? && h.now >= from ==> !LoadsSlot(s, h, token)
  {
    StepKeepsLinked(s, h);
  }

  lemma {:induction false} ClosedIsNotLoaded(s: State, hs: seq<Happening>, token: nat, from: int)
    requires Linked(s.db) && !OpenAt(s.db, token, from) && SigningFrom(hs, from)
    ensures LoadCount(s, hs, token) == 0
    decreases hs
  {
    if hs != [] {
      ClosedStaysClosed(s, hs[0], token, from);
      ClosedIsNotLoaded(Step(s, hs[0]), hs[1..], token, from);
    }
  }

  /** The calls that have loaded the slot, let on one after the other, record their signatures. */
  lemma {:induction false} DrainRun(s: State, token: nat) returns (hs: seq<Happening>)
    requires Linked(s.db)
    ensures forall i | 0 <= i < |hs| :: hs[i].Next?
    ensures SignaturesOn(RunSteps(s, hs).db.signatures, token) == Committed(s, token)
    decreases |CreatingOn(s, token)|
  {
    if c :| c in CreatingOn(s, token) {
      NextCommits(s, c, None, 0, token);
      CreatingCommits(s, c, None, 0, token);
      StepKeepsLinked(s, Tick(c));
      var rest := DrainRun(Step(s, Tick(c)), token);
      RunCons(s, Tick(c), rest);
      hs := [Tick(c)] + rest;
    } else {
      hs := [];
    }
  }

  /** Two new calls on an open slot both record a signature. */
  lemma OpenSignsTwice(s: State, token: nat, from: int) returns (hs: seq<Happening>)
    requires Linked(s.db) && OpenAt(s.db, token, from)
    ensures SigningFrom(hs, from) && SignaturesOn(RunSteps(s, hs).db.signatures, token) >= 2
  {
    var slot := s.db.slots[token];
    var actor := if slot.user.Some? then slot.user.value else 0;
    var emails: Emails := if slot.email.Some? then map[actor := slot.email.value] else map[];
    var c := FreshKey(s.calls.Keys);
    var d := FreshKey(s.calls.Keys + {c});
    var b, e := BeginSign(c, token, actor, emails, from), BeginSign(d, token, actor, emails, from);
    OverlapSignsTwice(s, c, d, token, actor, emails, None, from);
    hs := [b] + ([e] + ([Next(c, None, from)] + ([Next(d, None, from)] + [])));
    TwoAreTwo(RunSteps(s, hs).db.signatures, |s.db.signatures|, token);
  }

  lemma TwoAreTwo(signatures: seq<Signature>, n: nat, token: nat)
    requires |signatures| == n + 2 && signatures[n].slot == token && signatures[n + 1].slot == token
    ensures SignaturesOn(signatures, token) >= 2
  {
    assert signatures[..n + 1][..n] == signatures[..n];
  }

  /** Whatever signing calls follow, the slot ends with at most one signature. */
  ghost predicate AtMostOneSignature(s: State, token: nat, from: int)
    requires Linked(s.db)
  {
    forall hs | SigningFrom(hs, from) :: SignaturesOn(RunSteps(s, hs).db.signatures, token) <= 1
  }

  /**
   * From any state: no continuation by signing calls gives the slot a second signature exactly when
   * nobody can load it any more, signed or not, and at most one signature is recorded or about to be.
   */
  lemma OneSignatureExactly(s: State, token: nat, from: int)
    requires Linked(s.db)
    ensures AtMostOneSignature(s, token, from) <==> !OpenAt(s.db, token, from) && Committed(s, token) <= 1
  {
    if OpenAt(s.db, token, from) {
      var hs := OpenSignsTwice(s, token, from);
      assert SigningFrom(hs, from);
    } else if Committed(s, token) > 1 {
      var hs := DrainRun(s, token);
      assert SigningFrom(hs, from);
    } else {
      forall hs | SigningFrom(hs, from) ensures SignaturesOn(RunSteps(s, hs).db.signatures, token) <= 1 {
        ClosedIsNotLoaded(s, hs, token, from);
        SignaturesAreLoads(s, hs, token);
      }
    }
  }
}
