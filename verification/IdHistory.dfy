/** What signups and role changes together promise about NDY IDs: the core is permanent, old IDs keep resolving. */
module IdHistory {
  import opened NdyId
  import opened Identity
  import opened RoleChange

  /** One whole call of either service; `id` is the new user's key. */
  datatype Step = Register(id: nat, email: string, draws: seq<string>) | Change(call: Call)

  /** A registration is possible with an unused key and five draws of the signup alphabet. */
  predicate Possible(users: Users, step: Step) {
    step.Register? ==>
      && step.id !in users
      && |step.draws| == MAX_NDY_ID_ATTEMPTS
      && forall d | d in step.draws :: IsGenerated(d)
  }

  function Take(db: Db, step: Step): Db {
    if !Possible(db.users, step) then db
    else
      match step
      case Register(id, email, draws) => db.(users := SignUp(db.users, id, email, draws).0)
      case Change(call) => Perform(db, call)
  }

  function History(db: Db, steps: seq<Step>): Db
    decreases steps
  {
    if steps == [] then db else History(Take(db, steps[0]), steps[1..])
  }

  /** Nobody disappears, and nobody's core or type override changes. */
  ghost predicate SamePeople(before: Users, after: Users) {
    forall u | u in before ::
      u in after && after[u].coreId == before[u].coreId && after[u].idType == before[u].idType
  }

  lemma SignUpKeepsPeople(users: Users, id: nat, email: string, draws: seq<string>)
    requires id !in users
    ensures SamePeople(users, SignUp(users, id, email, draws).0)
  {
  }

  lemma ChangeKeepsPeople(db: Db, call: Call)
    ensures SamePeople(db.users, Perform(db, call).users)
  {
  }

  lemma TakeKeepsIdentity(db: Db, step: Step)
    requires WellFormed(db.users)
    ensures WellFormed(Take(db, step).users) && SamePeople(db.users, Take(db, step).users)
  {
    if step.Change? {
      var call := step.call;
      ChangeKeepsPeople(db, call);
      if call.ReviewCall? {
        ReviewKeepsWellFormed(db, call.actor, call.id, call.approve);
      }
    } else if Possible(db.users, step) {
      SignUpKeepsWellFormed(db.users, step.id, step.email, step.draws);
      SignUpKeepsPeople(db.users, step.id, step.email, step.draws);
    }
  }

  lemma {:induction false} HistoryKeepsIdentity(db: Db, steps: seq<Step>)
    requires WellFormed(db.users)
    ensures WellFormed(History(db, steps).users) && SamePeople(db.users, History(db, steps).users)
    decreases steps
  {
    if steps != [] {
      TakeKeepsIdentity(db, steps[0]);
      HistoryKeepsIdentity(Take(db, steps[0]), steps[1..]);
    }
  }

  lemma {:induction false} HistoryPrefix(db: Db, before: seq<Step>, after: seq<Step>)
    ensures History(db, before + after) == History(History(db, before), after)
    decreases before
  {
    if before == [] {
      assert before + after == after;
    } else {
      assert (before + after)[1..] == before[1..] + after;
      HistoryPrefix(Take(db, before[0]), before[1..], after);
    }
  }

  /**
   * Over every run: the NDY ID an account shows at any moment still resolves at every later
   * moment, to that account and to no other, however often its type segment changed since.
   */
  lemma EveryShownIdKeepsResolving(db: Db, before: seq<Step>, after: seq<Step>, u: nat)
    requires WellFormed(db.users) && u in History(db, before).users
    ensures var shown := History(db, before).users[u].ndyId;
            var users := History(db, before + after).users;
            Resolves(users, shown, u) && forall v | Resolves(users, shown, v) :: v == u
  {
    HistoryKeepsIdentity(db, before);
    HistoryPrefix(db, before, after);
    var shownThen := History(db, before).users;
    HistoryKeepsIdentity(History(db, before), after);
    CoreResolves(History(db, before + after).users, u, TypeForUser(shownThen[u].idType, shownThen[u].role));
  }

  /** The ID shown is always the one printed from the permanent core and the current role. */
  lemma ShownIdFollowsRole(db: Db, steps: seq<Step>, u: nat)
    requires WellFormed(db.users) && u in db.users
    ensures u in History(db, steps).users
    ensures var now := History(db, steps).users[u];
            now.ndyId == Format(db.users[u].coreId, TypeForUser(db.users[u].idType, now.role))
  {
    HistoryKeepsIdentity(db, steps);
  }

  /**
   * Letter by letter: an account shows "NDY-", its override or else FND for a Founder and MBR for
   * anybody else, and the core it signed up with.
   */
  lemma ShownLetters(db: Db, steps: seq<Step>, u: nat)
    requires WellFormed(db.users) && u in db.users
    ensures u in History(db, steps).users
    ensures var was, now := db.users[u], History(db, steps).users[u];
            now.ndyId == if was.idType != "" then "NDY-" + was.idType + "-" + was.coreId
                         else if now.role == Founder then "NDY-FND-" + was.coreId else "NDY-MBR-" + was.coreId
  {
    ShownIdFollowsRole(db, steps, u);
    LettersShown(db.users[u].coreId, db.users[u].idType, History(db, steps).users[u].role);
  }

  /** A registration with an email not in use and a free core among its draws adds one plain member, and nothing else happens to anybody. */
  lemma RegistrationExactly(db: Db, id: nat, email: string, draws: seq<string>)
    requires Possible(db.users, Register(id, email, draws))
    ensures var after := Take(db, Register(id, email, draws));
            var cores, shown := set u | u in db.users :: db.users[u].coreId, set u | u in db.users :: db.users[u].ndyId;
            && after.requests == db.requests
            && (id in after.users <==>
                  && (forall u | u in db.users :: db.users[u].email != email)
                  && exists i | 0 <= i < 5 :: draws[i] !in cores && "NDY-MBR-" + draws[i] !in shown)
            && (id !in after.users ==> after == db)
            && (id in after.users ==>
                  && after.users.Keys == db.users.Keys + {id} && (forall u | u in db.users :: after.users[u] == db.users[u])
                  && after.users[id].role == User && after.users[id].email == email && after.users[id].idType == ""
                  && after.users[id].coreId in draws && after.users[id].ndyId == "NDY-MBR-" + after.users[id].coreId)
  {
    SignUpExactly(db.users, id, email, draws);
    assert forall i | 0 <= i < 5 :: draws[i] in draws;
  }
}
