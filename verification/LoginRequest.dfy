/**
 * The QR login handshake: a browser's login request is approved or denied from the phone, and an
 * approved one is exchanged for a session once.
 */
module LoginRequest {
  import opened Wrappers

  datatype Status = Pending | Approved | Denied | Expired

  /** `issued` is "sessionIssuedAt is set". */
  datatype Row = Row(status: Status, userId: Option<nat>, expiresAt: int, issued: bool)

  datatype Error = Unknown | AlreadyResolved(status: Status) | AlreadyHandled | NotApproved | AlreadyExchanged

  const LOGIN_REQUEST_TTL_MS := 90_000

  function NewRow(now: int): Row {
    Row(Pending, None, now + LOGIN_REQUEST_TTL_MS, false)
  }

  /** What `findActiveOrExpire` returns, and leaves behind when no other call interferes. */
  function Seen(row: Row, now: int): Row {
    if row.status == Pending && row.expiresAt < now then row.(status := Expired) else row
  }

  // ---------------------------------------------------------------- whole calls

  function Approve(row: Row, user: nat, now: int): (Row, Result<(), Error>) {
    var seen := Seen(row, now);
    if seen.status != Pending then (seen, Err(AlreadyResolved(seen.status)))
    else (seen.(status := Approved, userId := Some(user)), Ok(()))
  }

  function Deny(row: Row, now: int): (Row, Result<(), Error>) {
    var seen := Seen(row, now);
    if seen.status != Pending then (seen, Err(AlreadyResolved(seen.status)))
    else (seen.(status := Denied), Ok(()))
  }

  /** The user the new session is for. */
  function Exchange(row: Row, now: int): (Row, Result<nat, Error>) {
    var seen := Seen(row, now);
    if seen.status != Approved || seen.userId.None? then (seen, Err(NotApproved))
    else if seen.issued then (seen, Err(AlreadyExchanged))
    else (seen.(issued := true), Ok(seen.userId.value))
  }

  class LoginRequests {
    var rows: map<string, Row>
    /** Sessions issued so far, newest last, by the user they are for. */
    var sessions: seq<nat>

    method Create(token: string, now: int)
      requires token !in rows
      modifies this`rows
      ensures rows == old(rows)[token := NewRow(now)]
    {
      rows := rows[token := Row(Pending, None, now + LOGIN_REQUEST_TTL_MS, false)];
    }

    method FindActiveOrExpire(token: string, now: int) returns (r: Result<Row, Error>)
      modifies this`rows
      ensures token !in old(rows) ==> r == Err(Unknown) && rows == old(rows)
      ensures token in old(rows) ==>
                r == Ok(Seen(old(rows)[token], now)) && rows == old(rows)[token := Seen(old(rows)[token], now)]
    {
      if token !in rows {
        return Err(Unknown);
      }
      var row := rows[token];
      if row.status == Pending && row.expiresAt < now {
        row := row.(status := Expired);
        rows := rows[token := row];
      }
      r := Ok(row);
    }

    method ApproveLoginRequest(token: string, user: nat, now: int) returns (r: Result<(), Error>)
      modifies this`rows
      ensures token !in old(rows) ==> r == Err(Unknown) && rows == old(rows)
      ensures token in old(rows) ==>
                var (row, outcome) := Approve(old(rows)[token], user, now);
                r == outcome && rows == old(rows)[token := row]
    {
      var seen :- FindActiveOrExpire(token, now);
      if seen.status != Pending {
        return Err(AlreadyResolved(seen.status));
      }
      if rows[token].status == Pending {
        rows := rows[token := rows[token].(status := Approved, userId := Some(user))];
      } else {
        return Err(AlreadyHandled);
      }
      r := Ok(());
    }

    method DenyLoginRequest(token: string, now: int) returns (r: Result<(), Error>)
      modifies this`rows
      ensures token !in old(rows) ==> r == Err(Unknown) && rows == old(rows)
      ensures token in old(rows) ==>
                var (row, outcome) := Deny(old(rows)[token], now);
                r == outcome && rows == old(rows)[token := row]
    {
      var seen :- FindActiveOrExpire(token, now);
      if seen.status != Pending {
        return Err(AlreadyResolved(seen.status));
      }
      if rows[token].status == Pending {
        rows := rows[token := rows[token].(status := Denied)];
      }
      r := Ok(());
    }

    method ExchangeLoginRequest(token: string, now: int) returns (r: Result<nat, Error>)
      modifies this
      ensures token !in old(rows) ==> r == Err(Unknown) && rows == old(rows)
      ensures token in old(rows) ==>
                var (row, outcome) := Exchange(old(rows)[token], now);
                r == outcome && rows == old(rows)[token := row]
      ensures sessions == if r.Ok? then old(sessions) + [r.value] else old(sessions)
    {
      var seen :- FindActiveOrExpire(token, now);
      if seen.status != Approved || seen.userId.None? {
        return Err(NotApproved);
      }
      if seen.issued {
        return Err(AlreadyExchanged);
      }
      if rows[token].status == Approved && !rows[token].issued {
        rows := rows[token := rows[token].(issued := true)];
      } else {
        return Err(AlreadyExchanged);
      }
      sessions := sessions + [seen.userId.value];
      r := Ok(seen.userId.value);
    }
  }

  // ---------------------------------------------------------------- interleaved calls on one request

  datatype Kind = Approval(user: nat) | Denial | Poll | Redemption

  /** A call in flight, named after the write it does next; `Issuing` has claimed the session. */
  datatype Flight = Expiring | Approving(user: nat) | Denying | Claiming(user: nat) | Issuing(user: nat)

  /** The row, the calls in flight, and what has happened: matched updates and issued sessions. */
  datatype State = State(row: Row, flights: map<nat, Flight>, approvedBy: seq<nat>, denials: nat, sessions: seq<nat>)

  /** Each call reads once, at any clock value, and then writes one row operation at a time. */
  datatype Event = Begin(c: nat, kind: Kind, now: int) | Next(c: nat)

  function Read(row: Row, kind: Kind, now: int): Option<Flight> {
    if row.status == Pending && row.expiresAt < now then Some(Expiring)
    else
      match kind
      case Approval(user) => if row.status == Pending then Some(Approving(user)) else None
      case Denial => if row.status == Pending then Some(Denying) else None
      case Poll => None
      case Redemption =>
        if row.status == Approved && row.userId.Some? && !row.issued then Some(Claiming(row.userId.value)) else None
  }

  /** The next write of call `c`. The expiry write does not look at the status it overwrites. */
  function Write(s: State, c: nat): State
    requires c in s.flights
  {
    var done := s.(flights := s.flights - {c});
    match s.flights[c]
    case Expiring => done.(row := s.row.(status := Expired))
    case Approving(user) =>
      if s.row.status != Pending then done
      else done.(row := s.row.(status := Approved, userId := Some(user)), approvedBy := s.approvedBy + [user])
    case Denying =>
      if s.row.status != Pending then done
      else done.(row := s.row.(status := Denied), denials := s.denials + 1)
    case Claiming(user) =>
      if s.row.status != Approved || s.row.issued then done
      else s.(row := s.row.(issued := true), flights := s.flights[c := Issuing(user)])
    case Issuing(user) => done.(sessions := s.sessions + [user])
  }

  function Step(s: State, e: Event): State {
    match e
    case Begin(c, kind, now) =>
      var f := Read(s.row, kind, now);
      if c !in s.flights && f.Some? then s.(flights := s.flights[c := f.value]) else s
    case Next(c) => if c in s.flights then Write(s, c) else s
  }

  function Run(s: State, events: seq<Event>): State
    decreases events
  {
    if events == [] then s else Run(Step(s, events[0]), events[1..])
  }

  function Fresh(now: int): State {
    State(NewRow(now), map[], [], 0, [])
  }

  ghost predicate OneIssuer(s: State) {
    forall c, d | c in s.flights && d in s.flights && s.flights[c].Issuing? && s.flights[d].Issuing? :: c == d
  }

  ghost predicate NoIssuer(s: State) {
    forall c | c in s.flights :: !s.flights[c].Issuing?
  }

  /** Only a user whose approval matched is about to get a session. */
  ghost predicate ClaimsApproved(s: State) {
    forall c | c in s.flights ::
      && (s.flights[c].Claiming? ==> s.approvedBy == [s.flights[c].user])
      && (s.flights[c].Issuing? ==> s.approvedBy == [s.flights[c].user])
  }

  ghost predicate Inv(s: State) {
    && |s.approvedBy| + s.denials <= 1
    && (s.row.status == Pending ==> s.approvedBy == [] && s.denials == 0)
    && (s.row.status == Approved ==> s.approvedBy != [])
    && (s.row.userId.Some? ==> s.approvedBy == [s.row.userId.value])
    && ClaimsApproved(s)
    && (if !s.row.issued then s.sessions == [] && NoIssuer(s)
        else if s.sessions == [] then OneIssuer(s)
        else s.sessions == s.approvedBy && NoIssuer(s))
  }

  lemma BeginKeepsInv(s: State, c: nat, kind: Kind, now: int)
    requires Inv(s)
    ensures Inv(Step(s, Begin(c, kind, now)))
  {
  }

  lemma WriteKeepsInv(s: State, c: nat)
    requires Inv(s) && c in s.flights
    ensures Inv(Write(s, c))
  {
  }

  lemma StepKeepsInv(s: State, e: Event)
    requires Inv(s)
    ensures Inv(Step(s, e))
  {
    match e
    case Begin(c, kind, now) => BeginKeepsInv(s, c, kind, now);
    case Next(c) =>
      if c in s.flights {
        WriteKeepsInv(s, c);
      }
  }

  lemma {:induction false} RunKeepsInv(s: State, events: seq<Event>)
    requires Inv(s)
    ensures Inv(Run(s, events))
    decreases events
  {
    if events != [] {
      StepKeepsInv(s, events[0]);
      RunKeepsInv(Step(s, events[0]), events[1..]);
    }
  }

  /**
   * However approvals, denials, polls and exchanges of one request interleave: at most one update
   * decides it, at most one session comes out, it is for the approving user, and a denial means none.
   */
  lemma AtMostOneSession(start: int, events: seq<Event>)
    ensures var s := Run(Fresh(start), events);
            && |s.approvedBy| + s.denials <= 1
            && |s.sessions| <= 1
            && (s.sessions != [] ==> s.sessions == s.approvedBy)
            && (s.denials > 0 ==> s.sessions == [])
  {
    RunKeepsInv(Fresh(start), events);
  }

  // ---------------------------------------------------------------- uninterrupted calls

  lemma RunCons(s: State, e: Event, after: seq<Event>)
    ensures Run(s, [e] + after) == Run(Step(s, e), after)
  {
    assert ([e] + after)[1..] == after;
  }

  function AfterApproval(s: State, user: nat, now: int): State {
    var (row, outcome) := Approve(s.row, user, now);
    s.(row := row, approvedBy := if outcome.Ok? then s.approvedBy + [user] else s.approvedBy)
  }

  function AfterDenial(s: State, now: int): State {
    var (row, outcome) := Deny(s.row, now);
    s.(row := row, denials := if outcome.Ok? then s.denials + 1 else s.denials)
  }

  function AfterExchange(s: State, now: int): State {
    var (row, outcome) := Exchange(s.row, now);
    s.(row := row, sessions := if outcome.Ok? then s.sessions + [outcome.value] else s.sessions)
  }

  /** The service's whole calls are the runs in which nobody interrupts. */
  lemma ApprovalRun(s: State, c: nat, user: nat, now: int, after: seq<Event>)
    requires c !in s.flights
    ensures Run(s, [Begin(c, Approval(user), now)] + ([Next(c)] + after)) == Run(AfterApproval(s, user, now), after)
  {
    var s1 := Step(s, Begin(c, Approval(user), now));
    RunCons(s, Begin(c, Approval(user), now), [Next(c)] + after);
    RunCons(s1, Next(c), after);
    assert Step(s1, Next(c)).flights == s.flights;
  }

  lemma DenialRun(s: State, c: nat, now: int, after: seq<Event>)
    requires c !in s.flights
    ensures Run(s, [Begin(c, Denial, now)] + ([Next(c)] + after)) == Run(AfterDenial(s, now), after)
  {
    var s1 := Step(s, Begin(c, Denial, now));
    RunCons(s, Begin(c, Denial, now), [Next(c)] + after);
    RunCons(s1, Next(c), after);
    assert Step(s1, Next(c)).flights == s.flights;
  }

  lemma ExchangeRun(s: State, c: nat, now: int, after: seq<Event>)
    requires c !in s.flights
    ensures Run(s, [Begin(c, Redemption, now)] + ([Next(c)] + ([Next(c)] + after))) == Run(AfterExchange(s, now), after)
  {
    var s1 := Step(s, Begin(c, Redemption, now));
    var s2 := Step(s1, Next(c));
    RunCons(s, Begin(c, Redemption, now), [Next(c)] + ([Next(c)] + after));
    RunCons(s1, Next(c), [Next(c)] + after);
    RunCons(s2, Next(c), after);
    assert Step(s2, Next(c)).flights == s.flights;
  }

  /** Approved in time, then exchanged at any later moment: exactly one session, for the approver. */
  lemma HandshakeIssues(start: int, c: nat, user: nat, approvedAt: int, exchangedAt: int)
    requires approvedAt <= start + LOGIN_REQUEST_TTL_MS
    ensures Run(Fresh(start),
                [Begin(c, Approval(user), approvedAt)] + ([Next(c)] +
                ([Begin(c, Redemption, exchangedAt)] + ([Next(c)] + ([Next(c)] + []))))).sessions == [user]
  {
    var rest := [Begin(c, Redemption, exchangedAt)] + ([Next(c)] + ([Next(c)] + []));
    ApprovalRun(Fresh(start), c, user, approvedAt, rest);
    ExchangeRun(AfterApproval(Fresh(start), user, approvedAt), c, exchangedAt, []);
    assert [] + [user] == [user];
  }

  /**
   * The expiry write can overwrite an approval that matched in between: the request ends expired
   * and no exchange that starts afterwards gets a session.
   */
  lemma ApprovalLostToExpiry(start: int, c: nat, d: nat, user: nat)
    requires c != d
    ensures var late := start + LOGIN_REQUEST_TTL_MS + 1;
            var s := Run(Fresh(start),
                         [Begin(c, Poll, late)] +
                         ([Begin(d, Approval(user), start)] + ([Next(d)] + ([Next(c)] + []))));
            s.approvedBy == [user] && s.row.status == Expired
            && forall now :: Exchange(s.row, now).1.Err?
  {
    var late := start + LOGIN_REQUEST_TTL_MS + 1;
    var s1 := Fresh(start).(flights := map[c := Expiring]);
    RunCons(Fresh(start), Begin(c, Poll, late), [Begin(d, Approval(user), start)] + ([Next(d)] + ([Next(c)] + [])));
    ApprovalRun(s1, d, user, start, [Next(c)] + []);
    RunCons(AfterApproval(s1, user, start), Next(c), []);
    assert [] + [user] == [user];
  }

  // ---------------------------------------------------------------- when an approval lasts

  /** A call has read the request late and pending, and is about to write EXPIRED. */
  ghost predicate ExpiryHeld(s: State) {
    exists c :: c in s.flights && s.flights[c].Expiring?
  }

  ghost predicate StaysApproved(s: State) {
    forall events :: Run(s, events).row.status == Approved
  }

  lemma {:induction false} ApprovedUnlessExpired(s: State, events: seq<Event>)
    requires s.row.status == Approved && !ExpiryHeld(s)
    ensures Run(s, events).row.status == Approved && !ExpiryHeld(Run(s, events))
    ensures Run(s, events).row.userId == s.row.userId
    decreases events
  {
    if events != [] {
      var t := Step(s, events[0]);
      assert forall c | c in t.flights :: !t.flights[c].Expiring?;
      ApprovedUnlessExpired(t, events[1..]);
    }
  }

  /** From any state: an approved request stays approved whatever follows exactly when no expiry write is held. */
  lemma ApprovalLastsExactly(s: State)
    requires s.row.status == Approved
    ensures StaysApproved(s) <==> !ExpiryHeld(s)
  {
    if !ExpiryHeld(s) {
      forall events ensures Run(s, events).row.status == Approved {
        ApprovedUnlessExpired(s, events);
      }
    } else {
      var c :| c in s.flights && s.flights[c].Expiring?;
      RunCons(s, Next(c), []);
      assert Run(s, [Next(c)] + []).row.status == Expired;
    }
  }

  /** A new call reads the request after its time, while it is still pending. */
  predicate ReadsLate(s: State, e: Event) {
    e.Begin? && e.c !in s.flights && s.row.status == Pending && s.row.expiresAt < e.now
  }

  predicate ReadLate(s: State, events: seq<Event>)
    decreases events
  {
    events != [] && (ReadsLate(s, events[0]) || ReadLate(Step(s, events[0]), events[1..]))
  }

  lemma {:induction false} NeverPendingAgain(s: State, events: seq<Event>)
    requires s.row.status != Pending
    ensures Run(s, events).row.status != Pending
    decreases events
  {
    if events != [] {
      NeverPendingAgain(Step(s, events[0]), events[1..]);
    }
  }

  lemma HeldAfterStep(s: State, e: Event)
    requires Step(s, e).row.status == Pending
    ensures ExpiryHeld(Step(s, e)) <==> ExpiryHeld(s) || ReadsLate(s, e)
  {
    var t := Step(s, e);
    if ExpiryHeld(s) {
      var c :| c in s.flights && s.flights[c].Expiring?;
      assert c in t.flights && t.flights[c].Expiring?;
    }
    if ReadsLate(s, e) {
      assert e.c in t.flights && t.flights[e.c].Expiring?;
    }
    if ExpiryHeld(t) {
      var c :| c in t.flights && t.flights[c].Expiring?;
      assert (c in s.flights && s.flights[c].Expiring?) || ReadsLate(s, e);
    }
  }

  /** While the request is pending, the expiry writes held are those of the calls that read it late. */
  lemma {:induction false} HeldWhilePending(s: State, events: seq<Event>)
    requires Run(s, events).row.status == Pending
    ensures ExpiryHeld(Run(s, events)) <==> ExpiryHeld(s) || ReadLate(s, events)
    decreases events
  {
    if events != [] {
      var t := Step(s, events[0]);
      if t.row.status != Pending {
        NeverPendingAgain(t, events[1..]);
      }
      HeldAfterStep(s, events[0]);
      HeldWhilePending(t, events[1..]);
    }
  }

  /** Whatever happens from `s` on, an exchange is not turned away for want of an approval. */
  ghost predicate StaysRedeemable(s: State) {
    forall events, now :: Exchange(Run(s, events).row, now).1 != Err(NotApproved)
  }

  /**
   * An approval that matched at the end of any run survives to every later exchange exactly when
   * no call of the run had read the request late while it was still pending.
   */
  lemma ApprovalSurvivesExactly(start: int, before: seq<Event>, c: nat)
    requires var s := Run(Fresh(start), before);
             s.row.status == Pending && c in s.flights && s.flights[c].Approving?
    ensures var approved := Step(Run(Fresh(start), before), Next(c));
            && approved.row.status == Approved
            && (StaysApproved(approved) <==> !ReadLate(Fresh(start), before))
            && (StaysRedeemable(approved) <==> !ReadLate(Fresh(start), before))
  {
    var s := Run(Fresh(start), before);
    var approved := Step(s, Next(c));
    HeldWhilePending(Fresh(start), before);
    HeldAcrossApproval(s, c);
    ApprovalLastsExactly(approved);
    RedeemableWhileApproved(approved);
  }

  lemma HeldAcrossApproval(s: State, c: nat)
    requires s.row.status == Pending && c in s.flights && s.flights[c].Approving?
    ensures ExpiryHeld(Step(s, Next(c))) <==> ExpiryHeld(s)
  {
    var t := Step(s, Next(c));
    assert forall d | d in t.flights :: d in s.flights && t.flights[d] == s.flights[d];
    if ExpiryHeld(s) {
      var d :| d in s.flights && s.flights[d].Expiring?;
      assert d in t.flights && t.flights[d].Expiring?;
    }
  }

  lemma RedeemableWhileApproved(s: State)
    requires s.row.status == Approved && s.row.userId.Some?
    ensures StaysRedeemable(s) <==> StaysApproved(s)
  {
    ApprovalLastsExactly(s);
    if StaysApproved(s) {
      forall events, now ensures Exchange(Run(s, events).row, now).1 != Err(NotApproved) {
        ApprovedUnlessExpired(s, events);
      }
    } else {
      var c :| c in s.flights && s.flights[c].Expiring?;
      RunCons(s, Next(c), []);
      assert Exchange(Run(s, [Next(c)] + []).row, 0).1 == Err(NotApproved);
    }
  }

  // ---------------------------------------------------------------- whole calls, field by field

  /** A pending request whose ninety seconds are over is marked as expired by whoever reads it; nothing else is. */
  lemma ReadingExactly(row: Row, now: int)
    ensures Seen(row, now) == if row.status == Pending && now > row.expiresAt then row.(status := Expired) else row
    ensures NewRow(now) == Row(Pending, None, now + 90_000, false)
  {
  }

  /** Approved or denied exactly while pending and in time; an approval binds the request to its user. */
  lemma DecisionExactly(row: Row, user: nat, now: int)
    ensures var (after, r) := Approve(row, user, now);
            && (r.Ok? <==> row.status == Pending && now <= row.expiresAt)
            && (r.Ok? ==> after == row.(status := Approved, userId := Some(user)))
            && (r.Err? ==> r.error == AlreadyResolved(after.status)
                           && after == if row.status == Pending then row.(status := Expired) else row)
    ensures var (after, r) := Deny(row, now);
            && (r.Ok? <==> row.status == Pending && now <= row.expiresAt)
            && (r.Ok? ==> after == row.(status := Denied))
            && (r.Err? ==> r.error == AlreadyResolved(after.status)
                           && after == if row.status == Pending then row.(status := Expired) else row)
  {
  }

  /** A session is issued exactly for an approved request that has a user and none yet, and is marked as issued. */
  lemma ExchangeExactly(row: Row, now: int)
    ensures var (after, r) := Exchange(row, now);
            && (r.Ok? <==> row.status == Approved && row.userId.Some? && !row.issued)
            && (r.Ok? ==> r.value == row.userId.value && after == row.(issued := true))
            && (r == Err(AlreadyExchanged) <==> row.status == Approved && row.userId.Some? && row.issued)
            && (r.Err? ==> after == if row.status == Pending && now > row.expiresAt then row.(status := Expired) else row)
  {
  }

  /** Some approval by this user read the request within ninety seconds of its creation. */
  predicate AskedInTime(events: seq<Event>, start: int, user: nat) {
    exists n | 0 <= n < |events| :: events[n].Begin? && events[n].kind == Approval(user) && events[n].now <= start + 90_000
  }

  ghost predicate ApprovalsInTime(s: State, events: seq<Event>, start: int) {
    && s.row.expiresAt == start + 90_000
    && (forall user | user in s.approvedBy :: AskedInTime(events, start, user))
    && (forall c | c in s.flights && s.flights[c].Approving? :: AskedInTime(events, start, s.flights[c].user))
  }

  lemma AskedGrows(events: seq<Event>, e: Event, start: int, user: nat)
    requires AskedInTime(events, start, user)
    ensures AskedInTime(events + [e], start, user)
  {
    var n :| 0 <= n < |events| && events[n].Begin? && events[n].kind == Approval(user) && events[n].now <= start + 90_000;
    assert (events + [e])[n] == events[n];
  }

  lemma StepKeepsInTime(s: State, past: seq<Event>, e: Event, start: int)
    requires ApprovalsInTime(s, past, start)
    ensures ApprovalsInTime(Step(s, e), past + [e], start)
  {
    var t := Step(s, e);
    assert (past + [e])[|past|] == e;
    forall user | user in t.approvedBy ensures AskedInTime(past + [e], start, user) {
      if user in s.approvedBy {
        AskedGrows(past, e, start, user);
      } else {
        AskedGrows(past, e, start, s.flights[e.c].user);
      }
    }
    forall c | c in t.flights && t.flights[c].Approving? ensures AskedInTime(past + [e], start, t.flights[c].user) {
      if c in s.flights && s.flights[c].Approving? {
        AskedGrows(past, e, start, s.flights[c].user);
      }
    }
  }

  lemma {:induction false} RunKeepsInTime(s: State, past: seq<Event>, events: seq<Event>, start: int)
    requires ApprovalsInTime(s, past, start)
    ensures ApprovalsInTime(Run(s, events), past + events, start)
    decreases events
  {
    if events == [] {
      assert past + events == past;
    } else {
      StepKeepsInTime(s, past, events[0], start);
      RunKeepsInTime(Step(s, events[0]), past + [events[0]], events[1..], start);
      assert past + [events[0]] + events[1..] == past + events;
    }
  }

  /** However the calls interleave, whoever gets a session had asked to approve the request within ninety seconds of its creation. */
  lemma SessionsWereAskedInTime(start: int, events: seq<Event>, user: nat)
    requires user in Run(Fresh(start), events).sessions
    ensures exists n | 0 <= n < |events| :: events[n].Begin? && events[n].kind == Approval(user) && events[n].now <= start + 90_000
  {
    AtMostOneSession(start, events);
    RunKeepsInTime(Fresh(start), [], events, start);
    assert [] + events == events;
    assert AskedInTime(events, start, user);
  }
}
