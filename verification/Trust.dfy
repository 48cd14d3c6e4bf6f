/** The trust tier and the trust score, recomputed from facts, the security event history and the clock. */
module Trust {
  import opened Wrappers

  datatype Level = Level0 | Level1 | Level2 | Level3

  datatype Provenance = SelfAsserted | NdyVerified | ThirdPartyCredential

  datatype Claim = Claim(key: string, provenance: Provenance)

  /** What the score reads about a user besides the event history. Counts are of unused or unrevoked rows. */
  datatype Facts = Facts(
    level: Level, createdAt: int, suspended: bool, totp: bool, smsPhone: bool,
    passkeys: nat, backupCodes: nat, devices: nat, pendingApprovals: nat, claims: seq<Claim>)

  datatype EventKind = TokenReuse | DeviceRevoked | LoginSuccess | OtherEvent

  datatype SecurityEvent = SecurityEvent(kind: EventKind, createdAt: int)

  type History = seq<SecurityEvent>

  datatype Tier = Unverified | Basic | Verified | Trusted

  const DAY_MS := 24 * 60 * 60 * 1000
  const BASELINE := 50
  const MIN_SCORE := 0
  const MAX_SCORE := 100
  const PENALTY_TOKEN_REUSE := -30
  const PENALTY_DEVICE_EACH := -3
  const PENALTY_DEVICE_CAP := -9
  const DECAY_DAYS := 30
  const SUSTAINED_LOGINS := 10
  const SUSTAINED_DAYS := 60
  const ACCOUNT_AGE_DAYS := 90

  // ---------------------------------------------------------------- the queries

  /** Events of a kind, of any age or at least as recent as `from`. */
  function Count(history: History, kind: EventKind, from: Option<int>): nat {
    if history == [] then 0
    else
      var last := history[|history| - 1];
      Count(history[..|history| - 1], kind, from)
      + if last.kind == kind && (from.Some? ==> from.value <= last.createdAt) then 1 else 0
  }

  predicate AnyUpTo(history: History, kind: EventKind, to: int) {
    exists i | 0 <= i < |history| :: history[i].kind == kind && history[i].createdAt <= to
  }

  predicate HasTrustedClaim(claims: seq<Claim>) {
    exists i | 0 <= i < |claims| :: claims[i].key == "business_verified" && claims[i].provenance != SelfAsserted
  }

  predicate HasThirdParty(claims: seq<Claim>) {
    exists i | 0 <= i < |claims| :: claims[i].provenance == ThirdPartyCredential
  }

  // ---------------------------------------------------------------- tier and score

  function ComputeTier(facts: Facts): Tier {
    match facts.level
    case Level0 => Unverified
    case Level1 => Unverified
    case Level2 => Basic
    case Level3 => if HasTrustedClaim(facts.claims) then Trusted else Verified
  }

  function If(condition: bool, points: int): int {
    if condition then points else 0
  }

  function IdentityAssurance(facts: Facts): int {
    If(facts.level != Level0, 6) + If(facts.level.Level2? || facts.level.Level3?, 6) + If(facts.level.Level3?, 6)
  }

  function AccountSecurity(facts: Facts): int {
    If(facts.totp || facts.smsPhone, 6) + If(facts.passkeys > 0, 4) + If(facts.backupCodes > 0, 2)
  }

  function DeviceTrust(facts: Facts): int {
    If(facts.devices > 0, 3) + If(facts.devices > 0 && facts.pendingApprovals == 0, 3)
  }

  function VerifiedClaims(facts: Facts): int {
    If(HasTrustedClaim(facts.claims), 5) + If(HasThirdParty(facts.claims), 3)
  }

  /** What does not depend on the history or the clock. */
  function Assurance(facts: Facts): int {
    IdentityAssurance(facts) + AccountSecurity(facts) + DeviceTrust(facts) + VerifiedClaims(facts)
  }

  predicate Sustained(history: History, now: int) {
    && Count(history, LoginSuccess, None) >= SUSTAINED_LOGINS
    && AnyUpTo(history, LoginSuccess, now - SUSTAINED_DAYS * DAY_MS)
    && Count(history, TokenReuse, None) == 0
  }

  /** What comes with time and clean use. */
  function Standing(facts: Facts, history: History, now: int): int {
    If(now - facts.createdAt > ACCOUNT_AGE_DAYS * DAY_MS, 3) + If(Sustained(history, now), 3)
  }

  /** What recent risk signals cost, as a number that is not positive. */
  function Penalty(history: History, now: int): int {
    var cutoff := now - DECAY_DAYS * DAY_MS;
    var revocations := Count(history, DeviceRevoked, Some(cutoff));
    If(Count(history, TokenReuse, Some(cutoff)) > 0, PENALTY_TOKEN_REUSE)
    + If(revocations > 0, Max(PENALTY_DEVICE_CAP, PENALTY_DEVICE_EACH * revocations))
  }

  function Raw(facts: Facts, history: History, now: int): int {
    BASELINE + Assurance(facts) + Standing(facts, history, now) + Penalty(history, now)
  }

  function Max(a: int, b: int): int {
    if a > b then a else b
  }

  function Min(a: int, b: int): int {
    if a < b then a else b
  }

  function Score(facts: Facts, history: History, now: int): int {
    if facts.suspended then MIN_SCORE else Max(MIN_SCORE, Min(MAX_SCORE, Raw(facts, history, now)))
  }

  /** The points for identity and account security, one check at a time. */
  method AddIdentityAndSecurity(facts: Facts) returns (score: int)
    ensures score == BASELINE + IdentityAssurance(facts) + AccountSecurity(facts)
  {
    score := BASELINE;
    if facts.level != Level0 {
      score := score + 6;
    }
    if facts.level == Level2 || facts.level == Level3 {
      score := score + 6;
    }
    if facts.level == Level3 {
      score := score + 6;
    }
    assert score == BASELINE + IdentityAssurance(facts);
    if facts.totp || facts.smsPhone {
      score := score + 6;
    }
    if facts.passkeys > 0 {
      score := score + 4;
    }
    if facts.backupCodes > 0 {
      score := score + 2;
    }
  }

  method AddDevicesAndClaims(facts: Facts, soFar: int) returns (score: int)
    ensures score == soFar + DeviceTrust(facts) + VerifiedClaims(facts)
  {
    score := soFar;
    if facts.devices > 0 {
      score := score + 3;
    }
    if facts.devices > 0 && facts.pendingApprovals == 0 {
      score := score + 3;
    }
    assert score == soFar + DeviceTrust(facts);
    if HasTrustedClaim(facts.claims) {
      score := score + 5;
    }
    if HasThirdParty(facts.claims) {
      score := score + 3;
    }
  }

  method AddHistory(facts: Facts, history: History, now: int, soFar: int) returns (score: int)
    ensures score == soFar + Standing(facts, history, now) + Penalty(history, now)
  {
    var decayCutoff := now - DECAY_DAYS * DAY_MS;
    var reuses := Count(history, TokenReuse, Some(decayCutoff));
    var revocations := Count(history, DeviceRevoked, Some(decayCutoff));
    var logins := Count(history, LoginSuccess, None);
    var loginOldEnough := AnyUpTo(history, LoginSuccess, now - SUSTAINED_DAYS * DAY_MS);
    var anySecurityFlag := Count(history, TokenReuse, None);
    score := soFar;
    if now - facts.createdAt > ACCOUNT_AGE_DAYS * DAY_MS {
      score := score + 3;
    }
    if logins >= SUSTAINED_LOGINS && loginOldEnough && anySecurityFlag == 0 {
      score := score + 3;
    }
    assert score == soFar + Standing(facts, history, now);
    if reuses > 0 {
      score := score + PENALTY_TOKEN_REUSE;
    }
    if revocations > 0 {
      score := score + Max(PENALTY_DEVICE_CAP, PENALTY_DEVICE_EACH * revocations);
    }
  }

  /** `computeScore`: the points are added up one by one and clamped at the end. */
  method ComputeScore(facts: Facts, history: History, now: int) returns (score: int)
    ensures score == Score(facts, history, now)
  {
    if facts.suspended {
      return MIN_SCORE;
    }
    score := AddIdentityAndSecurity(facts);
    score := AddDevicesAndClaims(facts, score);
    score := AddHistory(facts, history, now, score);
    score := Max(MIN_SCORE, Min(MAX_SCORE, score));
  }

  // ---------------------------------------------------------------- the range

  lemma Bounds(facts: Facts, history: History, now: int)
    ensures 0 <= Assurance(facts) <= 44 && 0 <= Standing(facts, history, now) <= 6 && -39 <= Penalty(history, now) <= 0
  {
  }

  /** The clamp never acts: only suspension takes a score out of 11..100. */
  lemma ClampIsIdle(facts: Facts, history: History, now: int)
    ensures 11 <= Raw(facts, history, now) <= 100
    ensures Score(facts, history, now) == if facts.suspended then 0 else Raw(facts, history, now)
  {
    Bounds(facts, history, now);
  }

  // ---------------------------------------------------------------- counting

  lemma {:induction false} CountOfConcat(a: History, b: History, kind: EventKind, from: Option<int>)
    ensures Count(a + b, kind, from) == Count(a, kind, from) + Count(b, kind, from)
  {
    if b == [] {
      assert a + b == a;
    } else {
      var n := |b| - 1;
      assert (a + b)[..|a + b| - 1] == a + b[..n];
      CountOfConcat(a, b[..n], kind, from);
    }
  }

  lemma {:induction false} LaterCutoffCountsFewer(history: History, kind: EventKind, from: int, later: int)
    requires from <= later
    ensures Count(history, kind, Some(later)) <= Count(history, kind, Some(from)) <= Count(history, kind, None)
  {
    if history != [] {
      LaterCutoffCountsFewer(history[..|history| - 1], kind, from, later);
    }
  }

  lemma {:induction false} CountIsZero(history: History, kind: EventKind, from: int)
    ensures Count(history, kind, Some(from)) == 0
       <==> forall i | 0 <= i < |history| :: !(history[i].kind == kind && from <= history[i].createdAt)
  {
    if history != [] {
      var before := history[..|history| - 1];
      CountIsZero(before, kind, from);
      assert forall i | 0 <= i < |before| :: before[i] == history[i];
    }
  }

  // ---------------------------------------------------------------- time

  /** While nothing else changes, a score never falls as time passes. */
  lemma TimeNeverHurts(facts: Facts, history: History, now: int, later: int)
    requires now <= later
    ensures Score(facts, history, now) <= Score(facts, history, later)
  {
    ClampIsIdle(facts, history, now);
    ClampIsIdle(facts, history, later);
    PenaltyDecays(history, now, later);
    StandingGrows(facts, history, now, later);
  }

  lemma PenaltyDecays(history: History, now: int, later: int)
    requires now <= later
    ensures Penalty(history, now) <= Penalty(history, later)
  {
    LaterCutoffCountsFewer(history, TokenReuse, now - DECAY_DAYS * DAY_MS, later - DECAY_DAYS * DAY_MS);
    LaterCutoffCountsFewer(history, DeviceRevoked, now - DECAY_DAYS * DAY_MS, later - DECAY_DAYS * DAY_MS);
  }

  lemma StandingGrows(facts: Facts, history: History, now: int, later: int)
    requires now <= later
    ensures Standing(facts, history, now) <= Standing(facts, history, later)
  {
    if Sustained(history, now) {
      var i :| 0 <= i < |history| && history[i].kind == LoginSuccess && history[i].createdAt <= now - SUSTAINED_DAYS * DAY_MS;
      assert history[i].createdAt <= later - SUSTAINED_DAYS * DAY_MS;
    }
  }

  // ---------------------------------------------------------------- risk

  predicate IsRisk(e: SecurityEvent) {
    e.kind == TokenReuse || e.kind == DeviceRevoked
  }

  predicate AllRisks(history: History) {
    forall i | 0 <= i < |history| :: IsRisk(history[i])
  }

  /** Nothing is deducted exactly when the last thirty days hold no risk event. */
  lemma PenaltyIsRecent(history: History, now: int)
    ensures Penalty(history, now) == 0
       <==> forall i | 0 <= i < |history| :: !(IsRisk(history[i]) && now - DECAY_DAYS * DAY_MS <= history[i].createdAt)
  {
    CountIsZero(history, TokenReuse, now - DECAY_DAYS * DAY_MS);
    CountIsZero(history, DeviceRevoked, now - DECAY_DAYS * DAY_MS);
  }

  /** Thirty quiet days bring an account back to the baseline or above, whatever came before. */
  lemma QuietMonthRestores(facts: Facts, history: History, now: int)
    requires !facts.suspended
    requires forall i | 0 <= i < |history| :: !(IsRisk(history[i]) && now - DECAY_DAYS * DAY_MS <= history[i].createdAt)
    ensures Score(facts, history, now) >= BASELINE
  {
    PenaltyIsRecent(history, now);
    ClampIsIdle(facts, history, now);
    Bounds(facts, history, now);
  }

  lemma {:induction false} NoLogins(risks: History)
    requires AllRisks(risks)
    ensures Count(risks, LoginSuccess, None) == 0
  {
    if risks != [] {
      NoLogins(risks[..|risks| - 1]);
    }
  }

  lemma RisksNeverHelpStanding(facts: Facts, history: History, risks: History, now: int)
    requires AllRisks(risks)
    ensures Standing(facts, history + risks, now) <= Standing(facts, history, now)
  {
    CountOfConcat(history, risks, LoginSuccess, None);
    CountOfConcat(history, risks, TokenReuse, None);
    NoLogins(risks);
    var all := history + risks;
    if Sustained(all, now) {
      var i :| 0 <= i < |all| && all[i].kind == LoginSuccess && all[i].createdAt <= now - SUSTAINED_DAYS * DAY_MS;
      assert i >= |history| ==> IsRisk(risks[i - |history|]);
      assert all[i] == history[i];
    }
  }

  /** However many risk events are added, and of whatever age, the score does not rise and loses at most 42. */
  lemma RisksCostAtMost42(facts: Facts, history: History, risks: History, now: int)
    requires AllRisks(risks)
    ensures Score(facts, history, now) - 42 <= Score(facts, history + risks, now) <= Score(facts, history, now)
  {
    var cutoff := Some(now - DECAY_DAYS * DAY_MS);
    ClampIsIdle(facts, history, now);
    ClampIsIdle(facts, history + risks, now);
    CountOfConcat(history, risks, TokenReuse, cutoff);
    CountOfConcat(history, risks, DeviceRevoked, cutoff);
    RisksNeverHelpStanding(facts, history, risks, now);
    Losses(facts, history, history + risks, now);
  }

  /** Only the bonus for sustained clean use can be lost besides the penalties. */
  lemma Losses(facts: Facts, history: History, more: History, now: int)
    ensures Standing(facts, more, now) >= Standing(facts, history, now) - 3
    ensures Penalty(more, now) >= Penalty(history, now) - 39
  {
  }

  function Repeat(e: SecurityEvent, n: nat): (history: History)
    ensures |history| == n && forall i | 0 <= i < n :: history[i] == e
  {
    if n == 0 then [] else Repeat(e, n - 1) + [e]
  }

  lemma {:induction false} CountOfRepeat(e: SecurityEvent, n: nat, kind: EventKind, from: Option<int>)
    ensures Count(Repeat(e, n), kind, from) == if e.kind == kind && (from.Some? ==> from.value <= e.createdAt) then n else 0
  {
    if n > 0 {
      CountOfRepeat(e, n - 1, kind, from);
      assert Repeat(e, n)[..n - 1] == Repeat(e, n - 1);
    }
  }

  /** A reused token and `n` revoked devices, all at `now`. */
  function Incident(now: int, n: nat): History {
    Repeat(SecurityEvent(TokenReuse, now), 1) + Repeat(SecurityEvent(DeviceRevoked, now), n)
  }

  lemma IncidentCounts(now: int, n: nat, from: Option<int>)
    requires from.Some? ==> from.value <= now
    ensures AllRisks(Incident(now, n))
    ensures Count(Incident(now, n), TokenReuse, from) == 1 && Count(Incident(now, n), DeviceRevoked, from) == n
  {
    var a, b := SecurityEvent(TokenReuse, now), SecurityEvent(DeviceRevoked, now);
    CountOfConcat(Repeat(a, 1), Repeat(b, n), TokenReuse, from);
    CountOfConcat(Repeat(a, 1), Repeat(b, n), DeviceRevoked, from);
    CountOfRepeat(a, 1, TokenReuse, from);
    CountOfRepeat(a, 1, DeviceRevoked, from);
    CountOfRepeat(b, n, TokenReuse, from);
    CountOfRepeat(b, n, DeviceRevoked, from);
  }

  lemma IncidentCosts(facts: Facts, history: History, now: int)
    ensures var after := history + Incident(now, 3);
            Penalty(after, now) == -39 && !Sustained(after, now)
  {
    var cutoff := now - DECAY_DAYS * DAY_MS;
    IncidentCounts(now, 3, Some(cutoff));
    IncidentCounts(now, 3, None);
    CountOfConcat(history, Incident(now, 3), TokenReuse, Some(cutoff));
    CountOfConcat(history, Incident(now, 3), DeviceRevoked, Some(cutoff));
    CountOfConcat(history, Incident(now, 3), TokenReuse, None);
  }

  /** Risk events can cost an account all 42 points exactly when it has the clean-use bonus and no penalty yet. */
  lemma FortyTwoIsReached(facts: Facts, history: History, now: int)
    requires !facts.suspended
    ensures (exists risks :: AllRisks(risks) && Score(facts, history + risks, now) == Score(facts, history, now) - 42)
       <==> Sustained(history, now) && Penalty(history, now) == 0
  {
    ClampIsIdle(facts, history, now);
    if Sustained(history, now) && Penalty(history, now) == 0 {
      IncidentCounts(now, 3, None);
      IncidentCosts(facts, history, now);
      ClampIsIdle(facts, history + Incident(now, 3), now);
      assert AllRisks(Incident(now, 3));
    }
    forall risks | AllRisks(risks) && Score(facts, history + risks, now) == Score(facts, history, now) - 42
      ensures Sustained(history, now) && Penalty(history, now) == 0
    {
      ClampIsIdle(facts, history + risks, now);
      Losses(facts, history, history + risks, now);
      Bounds(facts, history + risks, now);
    }
  }

  const BARE := Facts(Level0, 0, false, false, false, 0, 0, 0, 0, [])
  const COMPLETE := Facts(Level3, 0, false, true, false, 1, 1, 1, 0, [Claim("business_verified", ThirdPartyCredential)])

  /** Ten sign-ins on the first day. */
  function FirstDay(): History {
    Repeat(SecurityEvent(LoginSuccess, 0), SUSTAINED_LOGINS)
  }

  /** Both ends of the range are reached, a hundred days after signing up. */
  lemma RangeIsTight(now: int)
    requires now == 100 * DAY_MS
    ensures Score(COMPLETE, FirstDay(), now) == 100 && ComputeTier(COMPLETE) == Trusted
    ensures Score(BARE.(createdAt := now), Incident(now, 3), now) == 11
  {
    var login, cutoff := SecurityEvent(LoginSuccess, 0), now - DECAY_DAYS * DAY_MS;
    CountOfRepeat(login, SUSTAINED_LOGINS, LoginSuccess, None);
    CountOfRepeat(login, SUSTAINED_LOGINS, TokenReuse, None);
    CountOfRepeat(login, SUSTAINED_LOGINS, TokenReuse, Some(cutoff));
    CountOfRepeat(login, SUSTAINED_LOGINS, DeviceRevoked, Some(cutoff));
    assert FirstDay()[0].kind == LoginSuccess && FirstDay()[0].createdAt <= now - SUSTAINED_DAYS * DAY_MS;
    assert Sustained(FirstDay(), now);
    assert COMPLETE.claims[0].key == "business_verified" && COMPLETE.claims[0].provenance == ThirdPartyCredential;
    assert Assurance(COMPLETE) == 44 && Assurance(BARE.(createdAt := now)) == 0;
    IncidentCosts(BARE, [], now);
    assert [] + Incident(now, 3) == Incident(now, 3);
  }

  // ---------------------------------------------------------------- sustained activity

  predicate IsLogin(e: SecurityEvent) {
    e.kind == LoginSuccess
  }

  /** The sign-ins are spread over sixty days: two of them are that far apart. */
  predicate Spread(history: History) {
    exists i, j | 0 <= i < |history| && 0 <= j < |history| :: LoginsApart(history[i], history[j])
  }

  predicate LoginsApart(early: SecurityEvent, late: SecurityEvent) {
    IsLogin(early) && IsLogin(late) && late.createdAt - early.createdAt >= SUSTAINED_DAYS * DAY_MS
  }

  /** Enough sign-ins, and no token was ever reused. */
  predicate CleanLogins(history: History) {
    Count(history, LoginSuccess, None) >= SUSTAINED_LOGINS && Count(history, TokenReuse, None) == 0
  }

  /** The times of the first and the last sign-in. */
  datatype Span = Span(first: int, last: int)

  function LoginSpan(history: History): Option<Span> {
    if history == [] then None
    else
      var span, e := LoginSpan(history[..|history| - 1]), history[|history| - 1];
      if !IsLogin(e) then span
      else if span.None? then Some(Span(e.createdAt, e.createdAt))
      else Some(Span(Min(span.value.first, e.createdAt), Max(span.value.last, e.createdAt)))
  }

  predicate LoginAt(history: History, t: int) {
    exists i | 0 <= i < |history| :: IsLogin(history[i]) && history[i].createdAt == t
  }

  lemma LoginAtOfAppend(history: History, e: SecurityEvent, t: int)
    ensures LoginAt(history + [e], t) <==> LoginAt(history, t) || (IsLogin(e) && e.createdAt == t)
  {
    if LoginAt(history, t) {
      var i :| 0 <= i < |history| && IsLogin(history[i]) && history[i].createdAt == t;
      assert (history + [e])[i] == history[i];
    }
    if IsLogin(e) && e.createdAt == t {
      assert (history + [e])[|history|] == e;
    }
  }

  lemma {:induction false} FirstAndLast(history: History)
    ensures LoginSpan(history).Some? ==>
              LoginAt(history, LoginSpan(history).value.first) && LoginAt(history, LoginSpan(history).value.last)
    ensures forall t | LoginAt(history, t) ::
              LoginSpan(history).Some? && LoginSpan(history).value.first <= t <= LoginSpan(history).value.last
  {
    if history != [] {
      var before, e := history[..|history| - 1], history[|history| - 1];
      FirstAndLast(before);
      assert history == before + [e];
      forall t ensures LoginAt(history, t) <==> LoginAt(before, t) || (IsLogin(e) && e.createdAt == t) {
        LoginAtOfAppend(before, e, t);
      }
    }
  }

  /** The sign-ins are spread over sixty days when the first and the last are that far apart. */
  lemma SpreadIsFirstToLast(history: History)
    ensures Spread(history)
       <==> LoginSpan(history).Some? && LoginSpan(history).value.last - LoginSpan(history).value.first >= SUSTAINED_DAYS * DAY_MS
  {
    FirstAndLast(history);
    if Spread(history) {
      var i, j :| 0 <= i < |history| && 0 <= j < |history| && LoginsApart(history[i], history[j]);
      assert LoginAt(history, history[i].createdAt) && LoginAt(history, history[j].createdAt);
    }
    if LoginSpan(history).Some? && LoginSpan(history).value.last - LoginSpan(history).value.first >= SUSTAINED_DAYS * DAY_MS {
      var i :| 0 <= i < |history| && IsLogin(history[i]) && history[i].createdAt == LoginSpan(history).value.first;
      var j :| 0 <= j < |history| && IsLogin(history[j]) && history[j].createdAt == LoginSpan(history).value.last;
      assert LoginsApart(history[i], history[j]);
    }
  }

  lemma OldLoginIsFirst(history: History, to: int)
    ensures AnyUpTo(history, LoginSuccess, to) <==> LoginSpan(history).Some? && LoginSpan(history).value.first <= to
  {
    FirstAndLast(history);
    if AnyUpTo(history, LoginSuccess, to) {
      var i :| 0 <= i < |history| && history[i].kind == LoginSuccess && history[i].createdAt <= to;
      assert LoginAt(history, history[i].createdAt);
    }
    if LoginSpan(history).Some? && LoginSpan(history).value.first <= to {
      var i :| 0 <= i < |history| && IsLogin(history[i]) && history[i].createdAt == LoginSpan(history).value.first;
    }
  }

  /**
   * Nobody whose clean sign-ins are spread is refused the bonus. It is given without a spread to
   * exactly those with enough clean sign-ins, the first of them sixty days old and the last less
   * than sixty days after the first.
   */
  lemma BonusNeedsSpreadExactly(history: History, now: int)
    requires forall i | 0 <= i < |history| && IsLogin(history[i]) :: history[i].createdAt <= now
    ensures CleanLogins(history) && Spread(history) ==> Sustained(history, now)
    ensures Sustained(history, now) && !Spread(history)
       <==> CleanLogins(history) && LoginSpan(history).Some?
            && now - LoginSpan(history).value.first >= SUSTAINED_DAYS * DAY_MS
            && LoginSpan(history).value.last - LoginSpan(history).value.first < SUSTAINED_DAYS * DAY_MS
  {
    FirstAndLast(history);
    SpreadIsFirstToLast(history);
    OldLoginIsFirst(history, now - SUSTAINED_DAYS * DAY_MS);
  }

  /** One sign-in, and nine more a day later. */
  function TwoDays(): History {
    Repeat(SecurityEvent(LoginSuccess, 0), 1) + Repeat(SecurityEvent(LoginSuccess, DAY_MS), SUSTAINED_LOGINS - 1)
  }

  /** Ten sign-ins within a day earn the bonus sixty days after the first. */
  lemma BonusWithoutSpread(now: int)
    requires now == SUSTAINED_DAYS * DAY_MS
    ensures Sustained(TwoDays(), now) && !Spread(TwoDays())
  {
    var a, b := SecurityEvent(LoginSuccess, 0), SecurityEvent(LoginSuccess, DAY_MS);
    CountOfConcat(Repeat(a, 1), Repeat(b, SUSTAINED_LOGINS - 1), LoginSuccess, None);
    CountOfConcat(Repeat(a, 1), Repeat(b, SUSTAINED_LOGINS - 1), TokenReuse, None);
    CountOfRepeat(a, 1, LoginSuccess, None);
    CountOfRepeat(b, SUSTAINED_LOGINS - 1, LoginSuccess, None);
    CountOfRepeat(a, 1, TokenReuse, None);
    CountOfRepeat(b, SUSTAINED_LOGINS - 1, TokenReuse, None);
    assert TwoDays()[0] == a;
    assert forall i | 0 <= i < |TwoDays()| :: TwoDays()[i] == a || TwoDays()[i] == b;
  }

  // ---------------------------------------------------------------- tier and score together

  /** A tier vouches for part of the score: what its level and claim are worth, less the worst penalty. */
  lemma TierVouchesForScore(facts: Facts, history: History, now: int)
    requires !facts.suspended
    ensures ComputeTier(facts).Basic? ==> Score(facts, history, now) - Penalty(history, now) >= 62
    ensures ComputeTier(facts).Verified? ==> Score(facts, history, now) - Penalty(history, now) >= 68
    ensures ComputeTier(facts).Trusted? ==> Score(facts, history, now) - Penalty(history, now) >= 73
  {
    ClampIsIdle(facts, history, now);
    Bounds(facts, history, now);
  }

  predicate NoRisks(history: History) {
    forall i | 0 <= i < |history| :: !IsRisk(history[i])
  }

  lemma {:induction false} NoRiskCounts(history: History, from: Option<int>)
    requires NoRisks(history)
    ensures Count(history, TokenReuse, from) == 0 && Count(history, DeviceRevoked, from) == 0
  {
    if history != [] {
      NoRiskCounts(history[..|history| - 1], from);
    }
  }

  /** Events that are not risk signals never lower a score. */
  lemma OtherEventsNeverHurt(facts: Facts, history: History, more: History, now: int)
    requires NoRisks(more)
    ensures Score(facts, history + more, now) >= Score(facts, history, now)
  {
    var cutoff := Some(now - DECAY_DAYS * DAY_MS);
    ClampIsIdle(facts, history, now);
    ClampIsIdle(facts, history + more, now);
    NoRiskCounts(more, cutoff);
    NoRiskCounts(more, None);
    CountOfConcat(history, more, TokenReuse, cutoff);
    CountOfConcat(history, more, DeviceRevoked, cutoff);
    CountOfConcat(history, more, TokenReuse, None);
    CountOfConcat(history, more, LoginSuccess, None);
    if Sustained(history, now) {
      var i :| 0 <= i < |history| && history[i].kind == LoginSuccess && history[i].createdAt <= now - SUSTAINED_DAYS * DAY_MS;
      assert (history + more)[i] == history[i];
    }
  }

  // ---------------------------------------------------------------- what each check is worth

  predicate Hit(e: SecurityEvent, kind: EventKind, from: Option<int>) {
    e.kind == kind && (from.Some? ==> from.value <= e.createdAt)
  }

  /** The events counted, as a set of positions. */
  ghost function Hits(history: History, kind: EventKind, from: Option<int>): set<nat> {
    set i: nat | i < |history| && Hit(history[i], kind, from)
  }

  lemma HitsOfAppend(history: History, e: SecurityEvent, kind: EventKind, from: Option<int>)
    ensures Hits(history + [e], kind, from) == Hits(history, kind, from) + if Hit(e, kind, from) then {|history|} else {}
  {
    assert forall i: nat | i < |history| :: (history + [e])[i] == history[i];
  }

  lemma {:induction false} CountIsCardinality(history: History, kind: EventKind, from: Option<int>)
    ensures Count(history, kind, from) == |Hits(history, kind, from)|
  {
    if history != [] {
      var before, e := history[..|history| - 1], history[|history| - 1];
      CountIsCardinality(before, kind, from);
      assert history == before + [e];
      HitsOfAppend(before, e, kind, from);
    }
  }

  /** A suspended account scores nothing; any other has its raw points, so facts are compared by them. */
  lemma Gains(facts: Facts, more: Facts, history: History, now: int)
    requires !facts.suspended && !more.suspended && facts.createdAt == more.createdAt
    ensures Score(facts.(suspended := true), history, now) == 0
    ensures Score(more, history, now) - Score(facts, history, now) == Assurance(more) - Assurance(facts)
  {
    ClampIsIdle(facts, history, now);
    ClampIsIdle(more, history, now);
  }

  /** Each level above the lowest is worth six points more than the one below it. */
  lemma LevelsAreWorthSix(facts: Facts, history: History, now: int)
    requires !facts.suspended
    ensures var lowest := Score(facts.(level := Level0), history, now);
            && Score(facts.(level := Level1), history, now) == lowest + 6
            && Score(facts.(level := Level2), history, now) == lowest + 12
            && Score(facts.(level := Level3), history, now) == lowest + 18
  {
    Gains(facts.(level := Level0), facts.(level := Level1), history, now);
    Gains(facts.(level := Level0), facts.(level := Level2), history, now);
    Gains(facts.(level := Level0), facts.(level := Level3), history, now);
  }

  /** A second factor of either kind, or both, is worth six points; the first passkey four; the first unused recovery code two. */
  lemma SecurityIsWorth(facts: Facts, history: History, now: int, totp: bool, sms: bool, passkeys: nat, codes: nat)
    requires !facts.suspended
    ensures Score(facts.(totp := totp, smsPhone := sms), history, now)
         == Score(facts.(totp := false, smsPhone := false), history, now) + if totp || sms then 6 else 0
    ensures Score(facts.(passkeys := passkeys), history, now)
         == Score(facts.(passkeys := 0), history, now) + if passkeys == 0 then 0 else 4
    ensures Score(facts.(backupCodes := codes), history, now)
         == Score(facts.(backupCodes := 0), history, now) + if codes == 0 then 0 else 2
  {
    Gains(facts.(totp := false, smsPhone := false), facts.(totp := totp, smsPhone := sms), history, now);
    Gains(facts.(passkeys := 0), facts.(passkeys := passkeys), history, now);
    Gains(facts.(backupCodes := 0), facts.(backupCodes := codes), history, now);
  }

  /** The first device is worth three points, and three more when no approval of one is pending; without a device there is nothing to gain. */
  lemma DevicesAreWorth(facts: Facts, history: History, now: int, devices: nat, pending: nat)
    requires !facts.suspended
    ensures Score(facts.(devices := devices, pendingApprovals := pending), history, now)
         == Score(facts.(devices := 0), history, now) + if devices == 0 then 0 else if pending > 0 then 3 else 6
  {
    Gains(facts.(devices := 0), facts.(devices := devices, pendingApprovals := pending), history, now);
  }

  /** Of all claims, a business claim somebody vouches for is worth five points, a third-party credential three; further ones nothing. */
  lemma ClaimsAreWorth(facts: Facts, history: History, now: int, claims: seq<Claim>)
    requires !facts.suspended
    ensures Score(facts.(claims := claims), history, now) - Score(facts.(claims := []), history, now)
         == (if exists c | c in claims :: c.key == "business_verified" && (c.provenance == NdyVerified || c.provenance == ThirdPartyCredential)
             then 5 else 0)
          + if exists c | c in claims :: c.provenance == ThirdPartyCredential then 3 else 0
  {
    Gains(facts.(claims := []), facts.(claims := claims), history, now);
    assert HasTrustedClaim(claims)
      <==> exists c | c in claims :: c.key == "business_verified" && (c.provenance == NdyVerified || c.provenance == ThirdPartyCredential);
    assert HasThirdParty(claims) <==> exists c | c in claims :: c.provenance == ThirdPartyCredential;
  }

  /** An account older than ninety days has three points more than one that is not. */
  lemma AgeIsWorthThree(facts: Facts, history: History, now: int, created: int)
    requires !facts.suspended
    ensures Score(facts.(createdAt := created), history, now)
         == Score(facts.(createdAt := now), history, now) + if now - created > 7_776_000_000 then 3 else 0
  {
    ClampIsIdle(facts.(createdAt := created), history, now);
    ClampIsIdle(facts.(createdAt := now), history, now);
  }

  /** The bonus: ten sign-ins, the first sixty days ago, and no token ever reused. */
  lemma SustainedExactly(history: History, now: int)
    ensures Sustained(history, now)
       <==> |set i: nat | i < |history| && history[i].kind == LoginSuccess| >= 10
            && (exists i | 0 <= i < |history| :: history[i].kind == LoginSuccess && now - history[i].createdAt >= 5_184_000_000)
            && forall i | 0 <= i < |history| :: history[i].kind != TokenReuse
  {
    CountIsCardinality(history, LoginSuccess, None);
    CountIsCardinality(history, TokenReuse, None);
    assert Hits(history, LoginSuccess, None) == set i: nat | i < |history| && history[i].kind == LoginSuccess;
    assert forall i: nat | i < |history| && history[i].kind == TokenReuse :: i in Hits(history, TokenReuse, None);
    assert Hits(history, TokenReuse, None) == {} <==> forall i | 0 <= i < |history| :: history[i].kind != TokenReuse;
  }

  /**
   * What a history is worth against an empty one: three points for sustained clean use, less thirty
   * if any token was reused in the last thirty days, and less three for each of the first three
   * devices revoked in that time.
   */
  lemma HistoryIsWorth(facts: Facts, history: History, now: int)
    requires !facts.suspended
    ensures var revoked := |set i: nat | i < |history| && history[i].kind == DeviceRevoked && now - 2_592_000_000 <= history[i].createdAt|;
            Score(facts, history, now) - Score(facts, [], now)
            == (if Sustained(history, now) then 3 else 0)
             - (if exists i | 0 <= i < |history| :: history[i].kind == TokenReuse && now - 2_592_000_000 <= history[i].createdAt then 30 else 0)
             - (if revoked >= 3 then 9 else 3 * revoked)
  {
    var cutoff := now - DECAY_DAYS * DAY_MS;
    ClampIsIdle(facts, history, now);
    ClampIsIdle(facts, [], now);
    CountIsZero(history, TokenReuse, cutoff);
    RecentRevocations(history, now);
  }

  lemma RecentRevocations(history: History, now: int)
    ensures Count(history, DeviceRevoked, Some(now - DECAY_DAYS * DAY_MS))
         == |set i: nat | i < |history| && history[i].kind == DeviceRevoked && now - 2_592_000_000 <= history[i].createdAt|
  {
    CountIsCardinality(history, DeviceRevoked, Some(now - DECAY_DAYS * DAY_MS));
    assert (set i: nat | i < |history| && history[i].kind == DeviceRevoked && now - 2_592_000_000 <= history[i].createdAt)
        == Hits(history, DeviceRevoked, Some(now - DECAY_DAYS * DAY_MS));
  }

  /** A new account without anything scores fifty; the first token reused there costs thirty points. */
  lemma BareScores(now: int, created: int)
    requires now - created <= 7_776_000_000
    ensures Score(BARE.(createdAt := created), [], now) == 50
    ensures Score(BARE.(createdAt := created), [SecurityEvent(TokenReuse, now)], now) == 20
  {
    var facts := BARE.(createdAt := created);
    assert Assurance(facts) == 0;
    HistoryIsWorth(facts, [SecurityEvent(TokenReuse, now)], now);
    var history := [SecurityEvent(TokenReuse, now)];
    assert history[0].kind == TokenReuse;
    SustainedExactly(history, now);
    var revoked := set i: nat | i < |history| && history[i].kind == DeviceRevoked && now - 2_592_000_000 <= history[i].createdAt;
    assert revoked == {};
  }

  /** The tier is the level, and the highest takes a business claim somebody vouches for. */
  lemma TierExactly(facts: Facts)
    ensures ComputeTier(facts) == Unverified <==> facts.level == Level0 || facts.level == Level1
    ensures ComputeTier(facts) == Basic <==> facts.level == Level2
    ensures ComputeTier(facts) == Trusted <==>
              facts.level == Level3
              && exists c | c in facts.claims ::
                   c.key == "business_verified" && (c.provenance == NdyVerified || c.provenance == ThirdPartyCredential)
  {
    assert HasTrustedClaim(facts.claims)
      <==> exists c | c in facts.claims :: c.key == "business_verified" && (c.provenance == NdyVerified || c.provenance == ThirdPartyCredential);
  }
}
