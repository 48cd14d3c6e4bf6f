/** What each call on a signing request does, field by field, and who ends up having filled which slot. */
module SigningOutcome {
  import opened Wrappers
  import opened SigningRequests

  // ---------------------------------------------------------------- one call

  /** The first invite that names nobody, or both an account and an address, decides the refusal. */
  lemma {:induction false} InvitesExactly(invites: seq<Invite>)
    ensures FirstInviteError(invites) == None <==> forall i | 0 <= i < |invites| :: invites[i].user.Some? <==> invites[i].email.None?
    ensures forall i | 0 <= i < |invites| && (forall j | 0 <= j < i :: invites[j].user.Some? <==> invites[j].email.None?) ::
              && (invites[i].user.None? && invites[i].email.None? ==> FirstInviteError(invites) == Some(NoSigner))
              && (invites[i].user.Some? && invites[i].email.Some? ==> FirstInviteError(invites) == Some(TwoSigners))
  {
    if invites != [] {
      var rest := invites[1..];
      InvitesExactly(rest);
      assert forall i | 0 < i < |invites| :: invites[i] == rest[i - 1];
      forall i | 0 <= i < |invites| && (forall j | 0 <= j < i :: invites[j].user.Some? <==> invites[j].email.None?)
        ensures invites[i].user.None? && invites[i].email.None? ==> FirstInviteError(invites) == Some(NoSigner)
        ensures invites[i].user.Some? && invites[i].email.Some? ==> FirstInviteError(invites) == Some(TwoSigners)
      {
        if i > 0 {
          assert forall j | 0 <= j < i - 1 :: rest[j] == invites[j + 1];
        }
      }
    }
  }

  /**
   * A request is created exactly when every invite names one of an account and an address and the
   * expiry, if given, is ahead. Its slots run out with it, or after two weeks.
   */
  lemma CreateExactly(db: Db, id: nat, tokens: seq<nat>, actor: nat, hash: string, invites: seq<Invite>, expiresAt: Option<int>, now: int)
    requires FreshFor(db, id, tokens, invites)
    ensures var (after, r) := Create(db, id, tokens, actor, hash, invites, expiresAt, now);
            && (r.Ok? <==> (forall i | 0 <= i < |invites| :: invites[i].user.Some? <==> invites[i].email.None?)
                           && (expiresAt.Some? ==> now < expiresAt.value))
            && (r.Err? ==> after == db)
            && (r.Err? && (forall i | 0 <= i < |invites| :: invites[i].user.Some? <==> invites[i].email.None?) ==> r == Err(PastExpiry))
            && (r.Ok? ==>
                  && after.requests == db.requests[id := Request(hash, actor, Pending, expiresAt)]
                  && after.signatures == db.signatures
                  && (forall t :: t in after.slots <==> t in db.slots || t in tokens)
                  && (forall t | t in db.slots :: after.slots[t] == db.slots[t])
                  && (forall i | 0 <= i < |tokens| ::
                        after.slots[tokens[i]] == Slot(id, invites[i].user, invites[i].email, None, None,
                                                       if expiresAt.Some? then expiresAt.value else now + 1_209_600_000)))
  {
    InvitesExactly(invites);
    NewSlotsAre(db.slots, id, invites, tokens, if expiresAt.Some? then expiresAt.value else now + 1_209_600_000);
  }

  /** Why a link is refused: the slot's own marks first, then its time, the request's status, and the actor. */
  ghost predicate RefusedFor(db: Db, token: nat, actor: nat, emails: Emails, now: int, error: Error)
    requires Linked(db)
  {
    if token !in db.slots then error == InvalidLink
    else if db.slots[token].signedAt.Some? then error == AlreadySigned
    else if db.slots[token].declinedAt.Some? then error == AlreadyDeclined
    else if now >= db.slots[token].expiresAt then error == LinkExpired
    else if db.requests[db.slots[token].request].status != Pending then error == RequestIs(db.requests[db.slots[token].request].status)
    else if db.slots[token].user.Some? then error == WrongAccount && db.slots[token].user.value != actor
    else if actor !in emails then error == NoUser && db.slots[token].email.Some?
    else error == WrongEmail && db.slots[token].email.Some? && emails[actor] != db.slots[token].email.value
  }

  /** A signature copies the request's content hash; its slot is marked, and its request signed if no other slot is open. */
  lemma SignExactly(db: Db, token: nat, actor: nat, emails: Emails, proof: Option<string>, now: int)
    requires Inv(db)
    ensures var (after, r) := Sign(db, token, actor, emails, proof, now);
            if r.Err? then after == db && RefusedFor(db, token, actor, emails, now, r.error)
            else
              && token in db.slots
              && var slot := db.slots[token];
              var closes := forall t | t in db.slots && db.slots[t].request == slot.request && t != token :: db.slots[t].signedAt.Some?;
              && after.signatures
                 == db.signatures + [Signature(slot.request, token, actor, db.requests[slot.request].contentHash, proof, 1)]
              && after.slots == db.slots[token := slot.(signedAt := Some(now), user := Some(actor))]
              && r.value == (if closes then Signed else Pending)
              && after.requests
                 == (if closes then db.requests[slot.request := db.requests[slot.request].(status := Signed)] else db.requests)
  {
    ExpiryIsNeverRecorded(db, token, actor, emails, now);
    if token in db.slots {
      assert RequestOk(db, db.slots[token].request);
      if Loaded(db, token, actor, emails, now).1.Ok? {
        LoadedSlotIsOpen(db, token, actor, emails, now);
        SignedSlots(db, token, actor, now);
      }
    }
  }

  lemma SignedSlots(db: Db, token: nat, actor: nat, now: int)
    requires Linked(db) && token in db.slots
    ensures AllSigned(MarkSigned(db, token, actor, now).slots, db.slots[token].request)
       <==> forall t | t in db.slots && db.slots[t].request == db.slots[token].request && t != token :: db.slots[t].signedAt.Some?
  {
    var r, after := db.slots[token].request, MarkSigned(db, token, actor, now).slots;
    if forall t | t in db.slots && db.slots[t].request == r && t != token :: db.slots[t].signedAt.Some? {
      assert AllSigned(after, r);
    }
    if AllSigned(after, r) {
      forall t | t in db.slots && db.slots[t].request == r && t != token ensures db.slots[t].signedAt.Some? {
        assert after[t] == db.slots[t];
      }
    }
  }

  /** A decline marks the slot and ends the request; it is refused like a signature. */
  lemma DeclineExactly(db: Db, token: nat, actor: nat, emails: Emails, now: int)
    requires Inv(db)
    ensures var (after, r) := Decline(db, token, actor, emails, now);
            if r.Err? then after == db && RefusedFor(db, token, actor, emails, now, r.error)
            else
              && token in db.slots && after.signatures == db.signatures
              && var slot := db.slots[token];
              && after.slots == db.slots[token := slot.(declinedAt := Some(now), user := Some(actor))]
              && after.requests == db.requests[slot.request := db.requests[slot.request].(status := Declined)]
  {
    ExpiryIsNeverRecorded(db, token, actor, emails, now);
    if token in db.slots {
      assert RequestOk(db, db.slots[token].request);
    }
  }

  /** Only its creator can revoke a request, and only while it is pending. */
  lemma RevokeExactly(db: Db, id: nat, actor: nat)
    ensures var (after, r) := Revoke(db, id, actor);
            if id !in db.requests then r == Err(NoRequest) && after == db
            else if db.requests[id].creator != actor then r == Err(NotCreator) && after == db
            else if db.requests[id].status != Pending then r == Err(RequestIs(db.requests[id].status)) && after == db
            else r == Ok(()) && after == db.(requests := db.requests[id := db.requests[id].(status := Revoked)])
  {
  }

  /** An attestation is retried, and the attempt counted, only while there is no validated proof. */
  lemma ReattestExactly(db: Db, k: nat, proof: Option<string>)
    ensures var (after, r) := Reattest(db, k, proof);
            if k >= |db.signatures| then r == Err(NoSignature) && after == db
            else if db.signatures[k].proof.Some? then r == Ok(true) && after == db
            else
              && r == Ok(proof.Some?) && after.requests == db.requests && after.slots == db.slots
              && after.signatures
                 == db.signatures[k := db.signatures[k].(proof := proof, attempts := db.signatures[k].attempts + 1)]
  {
  }

  // ---------------------------------------------------------------- who fills which slot

  /** The slot was made by this call for this invite, which names one of an account and an address. */
  predicate InvitedBy(call: Call, i: nat, t: nat, slot: Slot) {
    && call.CreateCall? && i < |call.invites| == |call.tokens| && call.tokens[i] == t
    && (call.invites[i].user.Some? <==> call.invites[i].email.None?)
    && slot.request == call.id && slot.email == call.invites[i].email
    && (slot.signedAt.None? && slot.declinedAt.None? ==> slot.user == call.invites[i].user)
    && (call.invites[i].user.Some? ==> slot.user == call.invites[i].user)
  }

  ghost predicate Invited(calls: seq<Call>, t: nat, slot: Slot) {
    exists n, i: nat | 0 <= n < |calls| :: InvitedBy(calls[n], i, t, slot)
  }

  /** Somebody with the invited address made this call on the slot. */
  predicate FilledBy(call: Call, t: nat, slot: Slot) {
    && (call.SignCall? || call.DeclineCall?) && call.token == t && slot.user == Some(call.actor)
    && (slot.email.Some? ==> call.actor in call.emails && call.emails[call.actor] == slot.email.value)
  }

  predicate Filled(calls: seq<Call>, t: nat, slot: Slot) {
    exists n | 0 <= n < |calls| :: FilledBy(calls[n], t, slot)
  }

  ghost predicate SlotHistory(calls: seq<Call>, t: nat, slot: Slot) {
    Invited(calls, t, slot) && (slot.signedAt.Some? || slot.declinedAt.Some? ==> Filled(calls, t, slot))
  }

  lemma HistoryGrows(calls: seq<Call>, call: Call, t: nat, slot: Slot)
    requires SlotHistory(calls, t, slot)
    ensures SlotHistory(calls + [call], t, slot)
  {
    var n, i: nat :| 0 <= n < |calls| && InvitedBy(calls[n], i, t, slot);
    assert InvitedBy((calls + [call])[n], i, t, slot);
    if slot.signedAt.Some? || slot.declinedAt.Some? {
      var m :| 0 <= m < |calls| && FilledBy(calls[m], t, slot);
      assert FilledBy((calls + [call])[m], t, slot);
    }
  }

  /** Filling an open slot adds this call to its history and keeps who was invited. */
  lemma FillingGrows(calls: seq<Call>, call: Call, t: nat, slot: Slot, filled: Slot)
    requires SlotHistory(calls, t, slot) && slot.signedAt.None? && slot.declinedAt.None?
    requires filled == slot.(signedAt := filled.signedAt, declinedAt := filled.declinedAt, user := filled.user)
    requires slot.user.Some? ==> filled.user == slot.user
    requires filled.signedAt.Some? || filled.declinedAt.Some?
    requires FilledBy(call, t, filled)
    ensures SlotHistory(calls + [call], t, filled)
  {
    var n, i: nat :| 0 <= n < |calls| && InvitedBy(calls[n], i, t, slot);
    assert InvitedBy((calls + [call])[n], i, t, filled);
    assert FilledBy((calls + [call])[|calls|], t, filled);
  }

  lemma NewSlotHistory(calls: seq<Call>, call: Call, db: Db, t: nat)
    requires call.CreateCall? && FreshFor(db, call.id, call.tokens, call.invites) && Linked(db)
    requires t in Perform(db, call).slots && t !in db.slots
    ensures SlotHistory(calls + [call], t, Perform(db, call).slots[t])
  {
    CreateExactly(db, call.id, call.tokens, call.actor, call.hash, call.invites, call.expiresAt, call.now);
    var i :| 0 <= i < |call.tokens| && call.tokens[i] == t;
    assert InvitedBy((calls + [call])[|calls|], i, t, Perform(db, call).slots[t]);
  }

  /** A call leaves a slot as it was, makes it, or fills it for somebody who may. */
  lemma PerformHistory(calls: seq<Call>, call: Call, db: Db, t: nat)
    requires Inv(db) && t in Perform(db, call).slots
    requires t in db.slots ==> SlotHistory(calls, t, db.slots[t])
    ensures SlotHistory(calls + [call], t, Perform(db, call).slots[t])
  {
    var after := Perform(db, call);
    if t in db.slots {
      HistoryGrows(calls, call, t, db.slots[t]);
    }
    match call {
      case CreateCall(id, tokens, actor, hash, invites, expiresAt, now) =>
        if FreshFor(db, id, tokens, invites) {
          CreateExactly(db, id, tokens, actor, hash, invites, expiresAt, now);
          if t !in db.slots {
            NewSlotHistory(calls, call, db, t);
          }
        }
      case SignCall(token, actor, emails, proof, now) =>
        SignExactly(db, token, actor, emails, proof, now);
        SignableExactly(db, token, actor, emails, proof, now);
        if after != db && t == token {
          FillingGrows(calls, call, t, db.slots[t], after.slots[t]);
        }
      case DeclineCall(token, actor, emails, now) =>
        DeclineExactly(db, token, actor, emails, now);
        SignableExactly(db, token, actor, emails, None, now);
        if after != db && t == token {
          FillingGrows(calls, call, t, db.slots[t], after.slots[t]);
        }
      case RevokeCall(id, actor) =>
      case ReattestCall(k, proof) =>
    }
  }

  lemma {:induction false} HistoryOfSlot(calls: seq<Call>, t: nat)
    requires t in Run(calls).slots
    ensures SlotHistory(calls, t, Run(calls).slots[t])
  {
    var before, call := calls[..|calls| - 1], calls[|calls| - 1];
    if t in Run(before).slots {
      HistoryOfSlot(before, t);
    }
    assert before + [call] == calls;
    PerformHistory(before, call, Run(before), t);
  }

  /**
   * Over every run: a slot was made for exactly one of an account and an address. It is filled, if
   * at all, by that account, or by one that had that address when it signed or declined.
   */
  lemma OnlyTheInvited(calls: seq<Call>, t: nat)
    requires t in Run(calls).slots
    ensures var slot := Run(calls).slots[t];
            && (exists n, i: nat | 0 <= n < |calls| ::
                  && calls[n].CreateCall? && i < |calls[n].invites| == |calls[n].tokens| && calls[n].tokens[i] == t
                  && (calls[n].invites[i].user.Some? <==> calls[n].invites[i].email.None?)
                  && slot.request == calls[n].id && slot.email == calls[n].invites[i].email
                  && (calls[n].invites[i].user.Some? ==> slot.user == calls[n].invites[i].user))
            && (slot.signedAt.Some? || slot.declinedAt.Some? ==>
                  exists m | 0 <= m < |calls| ::
                    && (calls[m].SignCall? || calls[m].DeclineCall?) && calls[m].token == t && slot.user == Some(calls[m].actor)
                    && (slot.email.Some? ==> calls[m].actor in calls[m].emails && calls[m].emails[calls[m].actor] == slot.email.value))
  {
    HistoryOfSlot(calls, t);
    var slot := Run(calls).slots[t];
    var n, i: nat :| 0 <= n < |calls| && InvitedBy(calls[n], i, t, slot);
    assert calls[n].tokens[i] == t;
    if slot.signedAt.Some? || slot.declinedAt.Some? {
      var m :| 0 <= m < |calls| && FilledBy(calls[m], t, slot);
      assert calls[m].token == t;
    }
  }
}
