/** Accounts: signup with a fresh core ID, and looking an account up by any NDY ID it has shown. */
module Identity {
  import opened Wrappers
  import opened NdyId

  /** The columns of a user row that identity depends on; `idType` is "" when there is no override. */
  datatype Account = Account(coreId: string, ndyId: string, idType: string, email: string, role: Role)

  type Users = map<nat, Account>

  datatype SignUpError = EmailInUse | NotUnique

  const MAX_NDY_ID_ATTEMPTS := 5

  // ---------------------------------------------------------------- table invariants

  /** The unique columns. */
  ghost predicate UniqueKeys(users: Users) {
    forall u, v | u in users && v in users && u != v ::
      && users[u].coreId != users[v].coreId
      && users[u].ndyId != users[v].ndyId
      && users[u].email != users[v].email
  }

  predicate WellFormedAccount(a: Account) {
    && IsCore(a.coreId)
    && IsType(TypeForUser(a.idType, a.role))
    && a.ndyId == Format(a.coreId, TypeForUser(a.idType, a.role))
  }

  ghost predicate WellFormed(users: Users) {
    UniqueKeys(users) && forall u | u in users :: WellFormedAccount(users[u])
  }

  // ---------------------------------------------------------------- signup

  predicate EmailTaken(users: Users, email: string) {
    exists u | u in users :: users[u].email == email
  }

  function NewAccount(coreId: string, email: string): Account {
    Account(coreId, Format(coreId, TypeForRole(User)), "", email, User)
  }

  /** Inserting the row would break the unique core ID or the unique NDY ID. */
  predicate Clashes(users: Users, coreId: string) {
    exists u | u in users :: users[u].coreId == coreId || users[u].ndyId == Format(coreId, TypeForRole(User))
  }

  /** How many draws clash before the first free one; all of them when none is free. */
  function FirstFree(users: Users, draws: seq<string>): (k: nat)
    ensures k <= |draws|
    ensures forall i | 0 <= i < k :: Clashes(users, draws[i])
    ensures k < |draws| ==> !Clashes(users, draws[k])
  {
    if draws == [] || !Clashes(users, draws[0]) then 0 else 1 + FirstFree(users, draws[1..])
  }

  /** What signup does to the table; `draws` are the random cores, `id` the new row's key. */
  function SignUp(users: Users, id: nat, email: string, draws: seq<string>): (Users, Result<nat, SignUpError>) {
    var k := FirstFree(users, draws);
    if EmailTaken(users, email) then (users, Err(EmailInUse))
    else if k == |draws| then (users, Err(NotUnique))
    else (users[id := NewAccount(draws[k], email)], Ok(id))
  }

  lemma FirstFreeIs(users: Users, draws: seq<string>, k: nat)
    requires k <= |draws|
    requires forall i | 0 <= i < k :: Clashes(users, draws[i])
    requires k < |draws| ==> !Clashes(users, draws[k])
    ensures FirstFree(users, draws) == k
  {
  }

  lemma SignUpKeepsWellFormed(users: Users, id: nat, email: string, draws: seq<string>)
    requires WellFormed(users) && id !in users
    requires forall d | d in draws :: IsGenerated(d)
    ensures WellFormed(SignUp(users, id, email, draws).0)
  {
    var k := FirstFree(users, draws);
    if !EmailTaken(users, email) && k < |draws| {
      assert draws[k] in draws;
      assert forall u | u in users :: users[u].coreId != draws[k];
    }
  }

  // ---------------------------------------------------------------- lookup

  predicate Shown(users: Users, id: string) {
    exists u | u in users :: users[u].ndyId == id
  }

  /** The lookup answers `u`: the current ID first, the core inside it only when nobody shows it now. */
  predicate Resolves(users: Users, id: string, u: nat) {
    && u in users
    && if Shown(users, id) then users[u].ndyId == id
       else Parse(id).Some? && users[u].coreId == Parse(id).value.coreId
  }

  /** An account answers to every ID its core can be shown under, whatever the type segment, and nobody else does. */
  lemma CoreResolves(users: Users, u: nat, idType: string)
    requires WellFormed(users) && u in users && IsType(idType)
    ensures Resolves(users, Format(users[u].coreId, idType), u)
    ensures forall v | Resolves(users, Format(users[u].coreId, idType), v) :: v == u
  {
    var id := Format(users[u].coreId, idType);
    ParseInvertsFormat(users[u].coreId, idType);
    TypesHaveThreeLetters(idType);
    forall v | v in users && users[v].ndyId == id ensures v == u {
      var t := TypeForUser(users[v].idType, users[v].role);
      TypesHaveThreeLetters(t);
      FormatInjective(users[v].coreId, t, users[u].coreId, idType);
    }
  }

  /** The older form without a type segment still finds the account too. */
  lemma LegacyResolves(users: Users, u: nat)
    requires WellFormed(users) && u in users
    ensures Resolves(users, "NDY-" + users[u].coreId, u)
  {
    var id := "NDY-" + users[u].coreId;
    assert id[..4] == "NDY-" && id[4..] == users[u].coreId;
    forall v | v in users ensures users[v].ndyId != id {
      var t := TypeForUser(users[v].idType, users[v].role);
      TypesHaveThreeLetters(t);
      FormatParts(users[v].coreId, t);
    }
  }

  /**
   * A signup is refused when the email is in use, and when each of its five cores is taken or would
   * be shown under an ID that is; otherwise the first free one becomes the core of a new member.
   */
  lemma SignUpExactly(users: Users, id: nat, email: string, draws: seq<string>)
    requires |draws| == MAX_NDY_ID_ATTEMPTS
    ensures var (after, r) := SignUp(users, id, email, draws);
            var cores, shown := set u | u in users :: users[u].coreId, set u | u in users :: users[u].ndyId;
            if exists u | u in users :: users[u].email == email then r == Err(EmailInUse) && after == users
            else if forall i | 0 <= i < 5 :: draws[i] in cores || "NDY-MBR-" + draws[i] in shown then r == Err(NotUnique) && after == users
            else
              && r == Ok(id)
              && exists k | 0 <= k < 5 ::
                   && draws[k] !in cores && "NDY-MBR-" + draws[k] !in shown
                   && (forall i | 0 <= i < k :: draws[i] in cores || "NDY-MBR-" + draws[i] in shown)
                   && after == users[id := Account(draws[k], "NDY-MBR-" + draws[k], "", email, User)]
  {
    var cores, shown := set u | u in users :: users[u].coreId, set u | u in users :: users[u].ndyId;
    var k := FirstFree(users, draws);
    forall i | 0 <= i < 5 ensures Clashes(users, draws[i]) <==> draws[i] in cores || "NDY-MBR-" + draws[i] in shown {
      MemberId(draws[i]);
    }
    if k < 5 {
      MemberId(draws[k]);
      assert draws[k] !in cores && "NDY-MBR-" + draws[k] !in shown;
    }
  }

  lemma MemberId(coreId: string)
    ensures Format(coreId, TypeForRole(User)) == "NDY-MBR-" + coreId
  {
    assert "NDY-" + "MBR" + "-" + coreId == "NDY-MBR-" + coreId;
  }

  /**
   * What an ID finds: the account that shows it; or if nobody does, the one whose core it is
   * written with, under any of the eight types or in the older form without one.
   */
  lemma ResolvesExactly(users: Users, id: string, u: nat)
    requires WellFormed(users)
    ensures Resolves(users, id, u)
       <==> u in users
            && (users[u].ndyId == id
                || ((forall v | v in users :: users[v].ndyId != id)
                    && (id == "NDY-" + users[u].coreId
                        || exists t | t in {"CEO", "FND", "EXE", "PRT", "INV", "DEV", "BIZ", "MBR"} ::
                             id == "NDY-" + t + "-" + users[u].coreId)))
  {
    if u in users {
      assert Shown(users, id) <==> exists v | v in users :: users[v].ndyId == id;
      ParsesToCore(id, users[u].coreId);
    }
  }

  lemma ParsesToCore(id: string, coreId: string)
    requires IsCore(coreId)
    ensures Parse(id).Some? && Parse(id).value.coreId == coreId
       <==> id == "NDY-" + coreId
            || exists t | t in {"CEO", "FND", "EXE", "PRT", "INV", "DEV", "BIZ", "MBR"} :: id == "NDY-" + t + "-" + coreId
  {
    CoreExactly(coreId);
    if t :| t in {"CEO", "FND", "EXE", "PRT", "INV", "DEV", "BIZ", "MBR"} && id == "NDY-" + t + "-" + coreId {
      ParseExactly(id, t, coreId);
    }
    ParseExactly(id, "", coreId);
    if Parse(id).Some? && Parse(id).value.coreId == coreId {
      ParsedWasPrinted(id);
      if Parse(id).value.idType.Some? {
        ParseExactly(id, Parse(id).value.idType.value, coreId);
      }
    }
  }

  // ---------------------------------------------------------------- the service

  class IdentityService {
    var users: Users
    var nextId: nat

    ghost predicate Valid() reads this {
      UniqueKeys(users) && forall u | u in users :: u < nextId
    }

    constructor ()
      ensures Valid() && users == map[]
    {
      users, nextId := map[], 0;
    }

    method CreateUser(email: string, draws: seq<string>) returns (r: Result<nat, SignUpError>)
      requires Valid() && |draws| == MAX_NDY_ID_ATTEMPTS
      modifies this
      ensures Valid()
      ensures (users, r) == SignUp(old(users), old(nextId), email, draws)
    {
      if EmailTaken(users, email) {
        return Err(EmailInUse);
      }
      for attempt := 0 to MAX_NDY_ID_ATTEMPTS
        invariant users == old(users) && nextId == old(nextId)
        invariant forall i | 0 <= i < attempt :: Clashes(users, draws[i])
        invariant attempt < MAX_NDY_ID_ATTEMPTS
      {
        var coreId := draws[attempt];
        if !Clashes(users, coreId) {
          FirstFreeIs(users, draws, attempt);
          r := Ok(nextId);
          users := users[nextId := NewAccount(coreId, email)];
          nextId := nextId + 1;
          return;
        }
        if attempt == MAX_NDY_ID_ATTEMPTS - 1 {
          FirstFreeIs(users, draws, |draws|);
          return Err(NotUnique);
        }
      }
      r := Err(NotUnique);
    }

    method FindByNdyId(id: string) returns (r: Option<nat>)
      requires Valid()
      ensures r.Some? ==> Resolves(users, id, r.value)
      ensures r.None? ==> forall u :: !Resolves(users, id, u)
    {
      if Shown(users, id) {
        var u :| u in users && users[u].ndyId == id;
        return Some(u);
      }
      var parsed := Parse(id);
      if parsed.Some? && exists u | u in users :: users[u].coreId == parsed.value.coreId {
        var u :| u in users && users[u].coreId == parsed.value.coreId;
        return Some(u);
      }
      r := None;
    }
  }
}
