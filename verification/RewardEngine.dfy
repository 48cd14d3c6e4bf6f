/**
 * The reward engine: verified events credit an append-only ledger at most once each, and an event
 * log remembers every decision. Both tables are sequences in insertion order; an entry's id is its
 * position.
 */
module RewardEngine {
  import opened Wrappers
  import opened SlidingWindow

  datatype Rule = Rule(amount: int, maxPerDay: Option<int>, enabled: bool)

  datatype Credit = Credit(user: nat, amount: int, source: Option<string>)

  /** `entry` is the ledger entry of a row that was not denied. */
  datatype LogRow = LogRow(key: string, user: nat, source: string, denied: bool, entry: Option<nat>, createdAt: int)

  datatype Event = Event(key: string, user: nat, source: string)

  datatype Outcome = Credited(amount: int, entry: nat) | Denied | AlreadyProcessed(row: nat) | Failed

  type Rules = map<string, Rule>
  type Ledger = seq<Credit>
  type Log = seq<LogRow>

  datatype Db = Db(ledger: Ledger, log: Log)

  const PREFIX := "economy-event:"

  // ---------------------------------------------------------------- keys and lookups

  function RewardKey(source: string): string {
    PREFIX + source
  }

  predicate IsRewardKey(key: string) {
    PREFIX <= key
  }

  predicate IsReward(c: Credit) {
    c.source.Some? && IsRewardKey(c.source.value)
  }

  lemma RewardKeyInjective(a: string, b: string)
    ensures RewardKey(a) == RewardKey(b) ==> a == b
  {
    assert RewardKey(a)[|PREFIX|..] == a;
    assert RewardKey(b)[|PREFIX|..] == b;
  }

  /** The unique lookup by `sourceEventId`. */
  function FindCredit(ledger: Ledger, source: string): (k: Option<nat>)
    ensures k.Some? ==> k.value < |ledger| && ledger[k.value].source == Some(source)
    ensures k.None? ==> forall i | 0 <= i < |ledger| :: ledger[i].source != Some(source)
  {
    if ledger == [] then None
    else if ledger[|ledger| - 1].source == Some(source) then Some(|ledger| - 1)
    else FindCredit(ledger[..|ledger| - 1], source)
  }

  function FindRow(log: Log, source: string): (i: Option<nat>)
    ensures i.Some? ==> i.value < |log| && log[i.value].source == source
    ensures i.None? ==> forall j | 0 <= j < |log| :: log[j].source != source
  {
    if log == [] then None
    else if log[|log| - 1].source == source then Some(|log| - 1)
    else FindRow(log[..|log| - 1], source)
  }

  /** Rows that count against the daily limit. */
  predicate CountsFor(row: LogRow, user: nat, key: string) {
    row.user == user && row.key == key && !row.denied
  }

  function CountSince(log: Log, user: nat, key: string, from: int): nat {
    if log == [] then 0
    else
      var last := log[|log| - 1];
      CountSince(log[..|log| - 1], user, key, from) + if CountsFor(last, user, key) && from <= last.createdAt then 1 else 0
  }

  // ---------------------------------------------------------------- whole calls

  /**
   * `creditNdybits`: append, or find the entry a known source already has. A zero amount throws, and
   * so does a second entry with the empty source, which the code does not look up.
   */
  function CreditOnce(ledger: Ledger, user: nat, amount: int, source: Option<string>): (Ledger, Option<nat>) {
    if amount == 0 then (ledger, None)
    else if source.Some? && FindCredit(ledger, source.value).Some? then
      (ledger, if source.value == "" then None else FindCredit(ledger, source.value))
    else (ledger + [Credit(user, amount, source)], Some(|ledger|))
  }

  predicate EntryLogged(log: Log, entry: nat) {
    exists i | 0 <= i < |log| :: log[i].entry == Some(entry)
  }

  /** `logEvent`: a row that would break a unique column is dropped without an error. */
  function LogOnce(log: Log, row: LogRow): Log {
    if FindRow(log, row.source).Some? || (row.entry.Some? && EntryLogged(log, row.entry.value)) then log else log + [row]
  }

  predicate RuleApplies(rules: Rules, key: string) {
    key in rules && rules[key].enabled
  }

  predicate LimitReached(rule: Rule, count: nat) {
    rule.maxPerDay.Some? && count >= rule.maxPerDay.value
  }

  function DeniedRow(e: Event, now: int): LogRow {
    LogRow(e.key, e.user, e.source, true, None, now)
  }

  function CreditedRow(e: Event, entry: nat, now: int): LogRow {
    LogRow(e.key, e.user, e.source, false, Some(entry), now)
  }

  function Handle(rules: Rules, db: Db, e: Event, now: int): (Db, Outcome) {
    var seen := FindRow(db.log, e.source);
    if seen.Some? then (db, AlreadyProcessed(seen.value))
    else if !RuleApplies(rules, e.key) || LimitReached(rules[e.key], CountSince(db.log, e.user, e.key, now - DAY_MS)) then
      (db.(log := LogOnce(db.log, DeniedRow(e, now))), Denied)
    else
      var amount := rules[e.key].amount;
      var (ledger, entry) := CreditOnce(db.ledger, e.user, amount, Some(RewardKey(e.source)));
      match entry
      case None => (db, Failed)
      case Some(k) => (Db(ledger, LogOnce(db.log, CreditedRow(e, k, now))), Credited(amount, k))
  }

  class RewardEngineService {
    var rules: Rules
    var ledger: Ledger
    var log: Log

    ghost function Tables(): Db reads this {
      Db(ledger, log)
    }

    method CreditNdybits(user: nat, amount: int, source: Option<string>) returns (entry: Option<nat>)
      modifies this`ledger
      ensures (ledger, entry) == CreditOnce(old(ledger), user, amount, source)
    {
      if amount == 0 {
        return None;
      }
      if source.Some? {
        var existing := FindCredit(ledger, source.value);
        if existing.Some? {
          return if source.value == "" then None else existing;
        }
      }
      entry := Some(|ledger|);
      ledger := ledger + [Credit(user, amount, source)];
    }

    method LogEvent(row: LogRow)
      modifies this`log
      ensures log == LogOnce(old(log), row)
    {
      if FindRow(log, row.source).Some? {
        return;
      }
      if row.entry.Some? && exists i | 0 <= i < |log| :: log[i].entry == Some(row.entry.value) {
        return;
      }
      log := log + [row];
    }

    method HandleVerifiedEvent(e: Event, now: int) returns (outcome: Outcome)
      modifies this`ledger, this`log
      ensures (Tables(), outcome) == Handle(rules, old(Tables()), e, now)
    {
      var existing := FindRow(log, e.source);
      if existing.Some? {
        return AlreadyProcessed(existing.value);
      }
      if e.key !in rules || !rules[e.key].enabled {
        LogEvent(DeniedRow(e, now));
        return Denied;
      }
      var rule := rules[e.key];
      if rule.maxPerDay.Some? {
        var recentCount := CountSince(log, e.user, e.key, now - DAY_MS);
        if recentCount >= rule.maxPerDay.value {
          LogEvent(DeniedRow(e, now));
          return Denied;
        }
      }
      var entry := CreditNdybits(e.user, rule.amount, Some(PREFIX + e.source));
      if entry.None? {
        return Failed;
      }
      LogEvent(CreditedRow(e, entry.value, now));
      outcome := Credited(rule.amount, entry.value);
    }
  }

  // ---------------------------------------------------------------- runs of whole calls

  /** A report, or a credit some other part of the system makes under a key of its own. */
  datatype Call = Report(event: Event, now: int) | OtherCredit(user: nat, amount: int, source: Option<string>)

  function Perform(rules: Rules, db: Db, call: Call): Db {
    match call
    case Report(e, now) => Handle(rules, db, e, now).0
    case OtherCredit(user, amount, source) =>
      if source.Some? && IsRewardKey(source.value) then db else db.(ledger := CreditOnce(db.ledger, user, amount, source).0)
  }

  function Serial(rules: Rules, calls: seq<Call>): Db {
    if calls == [] then Db([], []) else Perform(rules, Serial(rules, calls[..|calls| - 1]), calls[|calls| - 1])
  }

  predicate UniqueSources(db: Db) {
    && (forall i, j | 0 <= i < j < |db.ledger| && db.ledger[i].source.Some? :: db.ledger[i].source != db.ledger[j].source)
    && (forall i, j | 0 <= i < j < |db.log| :: db.log[i].source != db.log[j].source)
  }

  /** Row `i` is the record of ledger entry `k`. */
  predicate Records(db: Db, i: nat, k: nat)
    requires i < |db.log| && k < |db.ledger|
  {
    && !db.log[i].denied && db.log[i].entry == Some(k)
    && db.ledger[k].source == Some(RewardKey(db.log[i].source))
    && db.ledger[k].user == db.log[i].user
  }

  /** Denied rows have no entry, every other row has its own, and every reward entry has a row. */
  ghost predicate Matched(db: Db) {
    && (forall i | 0 <= i < |db.log| && db.log[i].denied :: db.log[i].entry == None)
    && (forall i | 0 <= i < |db.log| && !db.log[i].denied ::
          db.log[i].entry.Some? && db.log[i].entry.value < |db.ledger| && Records(db, i, db.log[i].entry.value))
    && (forall k | 0 <= k < |db.ledger| && IsReward(db.ledger[k]) :: exists i | 0 <= i < |db.log| :: Records(db, i, k))
  }

  /** What the ledger pays a user for events, and what the log says was paid. */
  function RewardBalance(ledger: Ledger, user: nat): int {
    if ledger == [] then 0
    else
      var last := ledger[|ledger| - 1];
      RewardBalance(ledger[..|ledger| - 1], user) + if last.user == user && IsReward(last) then last.amount else 0
  }

  function LoggedRewards(rules: Rules, log: Log, user: nat): int {
    if log == [] then 0
    else
      var last := log[|log| - 1];
      LoggedRewards(rules, log[..|log| - 1], user)
      + if last.user == user && !last.denied && last.key in rules then rules[last.key].amount else 0
  }

  /** `getUserSummary`'s balance: the sum of all the user's entries. */
  function Balance(ledger: Ledger, user: nat): int {
    if ledger == [] then 0
    else
      var last := ledger[|ledger| - 1];
      Balance(ledger[..|ledger| - 1], user) + if last.user == user then last.amount else 0
  }

  ghost predicate Inv(rules: Rules, db: Db) {
    UniqueSources(db) && Matched(db) && forall user: nat :: RewardBalance(db.ledger, user) == LoggedRewards(rules, db.log, user)
  }

  lemma NoEntryYet(db: Db, source: string)
    requires UniqueSources(db) && Matched(db) && FindRow(db.log, source).None?
    ensures FindCredit(db.ledger, RewardKey(source)).None? && !EntryLogged(db.log, |db.ledger|)
  {
    var k := FindCredit(db.ledger, RewardKey(source));
    if k.Some? {
      var i :| 0 <= i < |db.log| && Records(db, i, k.value);
      RewardKeyInjective(db.log[i].source, source);
    }
  }

  lemma CreditKeepsInv(rules: Rules, db: Db, e: Event, now: int)
    requires Inv(rules, db) && FindRow(db.log, e.source).None?
    requires e.key in rules
    ensures Inv(rules, Db(db.ledger + [Credit(e.user, rules[e.key].amount, Some(RewardKey(e.source)))],
                          db.log + [CreditedRow(e, |db.ledger|, now)]))
  {
    NoEntryYet(db, e.source);
    var c, row := Credit(e.user, rules[e.key].amount, Some(RewardKey(e.source))), CreditedRow(e, |db.ledger|, now);
    var after := Db(db.ledger + [c], db.log + [row]);
    CreditKeepsMatched(db, c, row);
    UniqueSourcesGrow(db, c, row);
    assert after.ledger[..|db.ledger|] == db.ledger && after.log[..|db.log|] == db.log;
  }

  lemma UniqueSourcesGrow(db: Db, c: Credit, row: LogRow)
    requires UniqueSources(db) && c.source.Some? && FindCredit(db.ledger, c.source.value).None? && FindRow(db.log, row.source).None?
    ensures UniqueSources(Db(db.ledger + [c], db.log + [row]))
  {
  }

  lemma CreditKeepsMatched(db: Db, c: Credit, row: LogRow)
    requires Matched(db) && !row.denied && row.entry == Some(|db.ledger|)
    requires c.user == row.user && c.source == Some(RewardKey(row.source))
    ensures Matched(Db(db.ledger + [c], db.log + [row]))
  {
    var after := Db(db.ledger + [c], db.log + [row]);
    assert Records(after, |db.log|, |db.ledger|);
    MatchedGrows(db, after);
    forall i | 0 <= i < |db.log| && !after.log[i].denied
      ensures after.log[i].entry.Some? && after.log[i].entry.value < |db.ledger| && Records(after, i, after.log[i].entry.value)
    {
      assert Records(db, i, db.log[i].entry.value);
    }
  }

  lemma MatchedGrows(db: Db, after: Db)
    requires Matched(db) && db.ledger <= after.ledger && db.log <= after.log
    ensures forall k | 0 <= k < |db.ledger| && IsReward(db.ledger[k]) :: exists i | 0 <= i < |after.log| :: Records(after, i, k)
  {
    forall k | 0 <= k < |db.ledger| && IsReward(db.ledger[k]) ensures exists i | 0 <= i < |after.log| :: Records(after, i, k) {
      var i :| 0 <= i < |db.log| && Records(db, i, k);
      assert Records(after, i, k);
    }
  }

  lemma DenialKeepsInv(rules: Rules, db: Db, e: Event, now: int)
    requires Inv(rules, db) && FindRow(db.log, e.source).None?
    ensures Inv(rules, Db(db.ledger, db.log + [DeniedRow(e, now)]))
  {
    var after := Db(db.ledger, db.log + [DeniedRow(e, now)]);
    MatchedGrows(db, after);
    assert after.log[..|db.log|] == db.log;
  }

  lemma OtherCreditKeepsInv(rules: Rules, db: Db, user: nat, amount: int, source: Option<string>)
    requires Inv(rules, db) && !(source.Some? && IsRewardKey(source.value))
    ensures Inv(rules, db.(ledger := CreditOnce(db.ledger, user, amount, source).0))
  {
    var after := db.(ledger := CreditOnce(db.ledger, user, amount, source).0);
    if after != db {
      MatchedGrows(db, after);
      assert after.ledger[..|db.ledger|] == db.ledger;
    }
  }

  lemma PerformKeepsInv(rules: Rules, db: Db, call: Call)
    requires Inv(rules, db)
    ensures Inv(rules, Perform(rules, db, call))
  {
    match call
    case Report(e, now) =>
      if FindRow(db.log, e.source).None? {
        NoEntryYet(db, e.source);
        DenialKeepsInv(rules, db, e, now);
        if e.key in rules {
          CreditKeepsInv(rules, db, e, now);
        }
      }
    case OtherCredit(user, amount, source) =>
      if !(source.Some? && IsRewardKey(source.value)) {
        OtherCreditKeepsInv(rules, db, user, amount, source);
      }
  }

  lemma {:induction false} SerialKeepsInv(rules: Rules, calls: seq<Call>)
    ensures Inv(rules, Serial(rules, calls))
  {
    if calls != [] {
      SerialKeepsInv(rules, calls[..|calls| - 1]);
      PerformKeepsInv(rules, Serial(rules, calls[..|calls| - 1]), calls[|calls| - 1]);
    }
  }

  /**
   * Over every run of whole calls: log rows that were not denied and reward entries are in
   * bijection, source by source and user by user, and the two tables agree on what each user got.
   */
  lemma LogMatchesLedger(rules: Rules, calls: seq<Call>, user: nat)
    ensures var db := Serial(rules, calls);
            && Matched(db)
            && (forall i, j | 0 <= i < j < |db.log| && !db.log[i].denied && !db.log[j].denied :: db.log[i].entry != db.log[j].entry)
            && RewardBalance(db.ledger, user) == LoggedRewards(rules, db.log, user)
  {
    SerialKeepsInv(rules, calls);
    var db := Serial(rules, calls);
    forall i, j | 0 <= i < j < |db.log| && !db.log[i].denied && !db.log[j].denied ensures db.log[i].entry != db.log[j].entry {
      if db.log[i].entry == db.log[j].entry {
        RewardKeyInjective(db.log[i].source, db.log[j].source);
      }
    }
  }

  lemma PerformOnlyAppends(rules: Rules, db: Db, call: Call)
    ensures db.ledger <= Perform(rules, db, call).ledger && db.log <= Perform(rules, db, call).log
  {
  }

  lemma {:induction false} SerialOnlyAppends(rules: Rules, calls: seq<Call>, n: nat)
    requires n <= |calls|
    ensures Serial(rules, calls[..n]).ledger <= Serial(rules, calls).ledger
    ensures Serial(rules, calls[..n]).log <= Serial(rules, calls).log
  {
    if n == |calls| {
      assert calls[..n] == calls;
    } else {
      var before := calls[..|calls| - 1];
      assert before[..n] == calls[..n];
      SerialOnlyAppends(rules, before, n);
      PerformOnlyAppends(rules, Serial(rules, before), calls[|calls| - 1]);
    }
  }

  /** An event that got a row at any point of a run is answered with that row ever after, and changes nothing. */
  lemma ReportedOnce(rules: Rules, calls: seq<Call>, n: nat, i: nat, e: Event, now: int)
    requires n <= |calls| && i < |Serial(rules, calls[..n]).log| && Serial(rules, calls[..n]).log[i].source == e.source
    ensures Handle(rules, Serial(rules, calls), e, now) == (Serial(rules, calls), AlreadyProcessed(i))
  {
    SerialOnlyAppends(rules, calls, n);
    SerialKeepsInv(rules, calls);
    var log := Serial(rules, calls).log;
    assert log[i].source == e.source;
    assert FindRow(log, e.source) == Some(i);
  }

  // ---------------------------------------------------------------- crashes between credit and log row

  /** A report passes when its rule applies and pays something and the daily limit is not reached. */
  predicate Passes(rules: Rules, db: Db, e: Event, now: int) {
    && RuleApplies(rules, e.key) && rules[e.key].amount != 0
    && !LimitReached(rules[e.key], CountSince(db.log, e.user, e.key, now - DAY_MS))
  }

  /** A retry logs a credited but unlogged event exactly when it passes like a first report; it never credits again. */
  lemma RetryLogsExactly(rules: Rules, db: Db, e: Event, now: int)
    requires FindRow(db.log, e.source).None? && FindCredit(db.ledger, RewardKey(e.source)).Some?
    ensures var k := FindCredit(db.ledger, RewardKey(e.source)).value;
            var after := Handle(rules, db, e, now).0;
            && after.ledger == db.ledger
            && (after.log == db.log + [CreditedRow(e, k, now)] <==> Passes(rules, db, e, now) && !EntryLogged(db.log, k))
            && (after.log == db.log + [DeniedRow(e, now)]
                <==> !RuleApplies(rules, e.key) || LimitReached(rules[e.key], CountSince(db.log, e.user, e.key, now - DAY_MS)))
  {
    assert RewardKey(e.source) != "";
    var k := FindCredit(db.ledger, RewardKey(e.source)).value;
    assert (db.log + [CreditedRow(e, k, now)])[|db.log|] != (db.log + [DeniedRow(e, now)])[|db.log|];
    assert |db.log + [CreditedRow(e, k, now)]| == |db.log + [DeniedRow(e, now)]| == |db.log| + 1;
  }

  /** A call that runs whole, or a report whose process dies after the credit and before the log row. */
  datatype Try = Done(call: Call) | Crashed(e: Event, now: int)

  function Attempt(rules: Rules, db: Db, t: Try): Db {
    match t
    case Done(call) => Perform(rules, db, call)
    case Crashed(e, now) => Db(Handle(rules, db, e, now).0.ledger, db.log)
  }

  function Attempts(rules: Rules, tries: seq<Try>): Db {
    if tries == [] then Db([], []) else Attempt(rules, Attempts(rules, tries[..|tries| - 1]), tries[|tries| - 1])
  }

  /** The events credited by a crashed report and not logged or denied since, with the users they were credited to. */
  function Open(rules: Rules, tries: seq<Try>): map<string, nat> {
    if tries == [] then map[]
    else
      var before, t := tries[..|tries| - 1], tries[|tries| - 1];
      OpenAfter(rules, Attempts(rules, before), Open(rules, before), t)
  }

  /** A report writes a row: it is denied, or it passes. Only a rule that pays nothing leaves the event undecided. */
  predicate Decides(rules: Rules, db: Db, e: Event, now: int) {
    && FindRow(db.log, e.source).None?
    && (Passes(rules, db, e, now) || !RuleApplies(rules, e.key)
        || LimitReached(rules[e.key], CountSince(db.log, e.user, e.key, now - DAY_MS)))
  }

  /** A crashed report credits: its event has neither row nor entry, and it passes. */
  predicate CreditsOnly(rules: Rules, db: Db, e: Event, now: int) {
    FindRow(db.log, e.source).None? && FindCredit(db.ledger, RewardKey(e.source)).None? && Passes(rules, db, e, now)
  }

  function OpenAfter(rules: Rules, db: Db, open: map<string, nat>, t: Try): map<string, nat> {
    match t
    case Crashed(e, now) => if CreditsOnly(rules, db, e, now) then open[e.source := e.user] else open
    case Done(call) =>
      if call.Report? && Decides(rules, db, call.event, call.now) then open - {call.event.source} else open
  }

  /** Some event left open by a crash was decided by a report that did not pass, or was another user's. */
  predicate Lost(rules: Rules, tries: seq<Try>) {
    tries != [] &&
    var before, t := tries[..|tries| - 1], tries[|tries| - 1];
    Lost(rules, before) || LosesNow(rules, Attempts(rules, before), Open(rules, before), t)
  }

  predicate LosesNow(rules: Rules, db: Db, open: map<string, nat>, t: Try) {
    && t.Done? && t.call.Report? && t.call.event.source in open && Decides(rules, db, t.call.event, t.call.now)
    && !(Passes(rules, db, t.call.event, t.call.now) && t.call.event.user == open[t.call.event.source])
  }

  /** Entry `k` and row `i` are of the same event. */
  predicate Pair(db: Db, i: nat, k: nat)
    requires i < |db.log| && k < |db.ledger|
  {
    db.ledger[k].source == Some(RewardKey(db.log[i].source))
  }

  ghost predicate PairsRecord(db: Db) {
    forall i, k | 0 <= i < |db.log| && 0 <= k < |db.ledger| && Pair(db, i, k) :: Records(db, i, k)
  }

  ghost predicate RowsOk(db: Db) {
    forall i | 0 <= i < |db.log| ::
      if db.log[i].denied then db.log[i].entry == None
      else db.log[i].entry.Some? && db.log[i].entry.value < |db.ledger| && Pair(db, i, db.log[i].entry.value)
  }

  function SourceOf(c: Credit): string
    requires IsReward(c)
  {
    c.source.value[|PREFIX|..]
  }

  /** Exactly the open events have an entry and no row. */
  ghost predicate OpenOk(db: Db, open: map<string, nat>) {
    && (forall k | 0 <= k < |db.ledger| && IsReward(db.ledger[k]) ::
          FindRow(db.log, SourceOf(db.ledger[k])).Some? || SourceOf(db.ledger[k]) in open)
    && (forall source | source in open :: FindRow(db.log, source).None? && HasCredit(db.ledger, source, open[source]))
  }

  predicate HasCredit(ledger: Ledger, source: string, user: nat) {
    var k := FindCredit(ledger, RewardKey(source));
    k.Some? && ledger[k.value].user == user
  }

  ghost predicate CrashInv(db: Db, open: map<string, nat>, lost: bool) {
    UniqueSources(db) && RowsOk(db) && OpenOk(db, open) && (lost <==> !PairsRecord(db))
  }

  lemma KeyOfSource(c: Credit)
    requires IsReward(c)
    ensures c.source == Some(RewardKey(SourceOf(c)))
  {
    assert c.source.value == PREFIX + c.source.value[|PREFIX|..];
  }

  lemma SourceOfKey(c: Credit, source: string)
    requires c.source == Some(RewardKey(source))
    ensures IsReward(c) && SourceOf(c) == source
  {
  }

  lemma OpenBreaksMatch(db: Db, open: map<string, nat>, source: string)
    requires OpenOk(db, open) && source in open
    ensures !Matched(db)
  {
    var k := FindCredit(db.ledger, RewardKey(source)).value;
    SourceOfKey(db.ledger[k], source);
    forall i | 0 <= i < |db.log| ensures !Records(db, i, k) {
      RewardKeyInjective(db.log[i].source, source);
    }
  }

  /** The bijection holds exactly when nothing is open and every pair of entry and row agrees. */
  lemma MatchedIffSettled(db: Db, open: map<string, nat>, lost: bool)
    requires CrashInv(db, open, lost)
    ensures Matched(db) <==> open == map[] && !lost
  {
    if open == map[] && !lost {
      forall k | 0 <= k < |db.ledger| && IsReward(db.ledger[k]) ensures exists i | 0 <= i < |db.log| :: Records(db, i, k) {
        KeyOfSource(db.ledger[k]);
        var i := FindRow(db.log, SourceOf(db.ledger[k])).value;
        assert Pair(db, i, k);
      }
    }
    if Matched(db) {
      if source :| source in open {
        OpenBreaksMatch(db, open, source);
      }
      forall i, k | 0 <= i < |db.log| && 0 <= k < |db.ledger| && Pair(db, i, k) ensures Records(db, i, k) {
        SourceOfKey(db.ledger[k], db.log[i].source);
        var j :| 0 <= j < |db.log| && Records(db, j, k);
        RewardKeyInjective(db.log[i].source, db.log[j].source);
      }
    }
  }

  lemma FindRowOfAppend(log: Log, row: LogRow, source: string)
    ensures FindRow(log + [row], source) == if row.source == source then Some(|log|) else FindRow(log, source)
  {
    assert (log + [row])[..|log|] == log;
  }

  lemma FindCreditOfAppend(ledger: Ledger, c: Credit, source: string)
    ensures FindCredit(ledger + [c], source) == if c.source == Some(source) then Some(|ledger|) else FindCredit(ledger, source)
  {
    assert (ledger + [c])[..|ledger|] == ledger;
  }

  /** An event without a row has an entry exactly when it is open. */
  lemma UnloggedIsOpen(db: Db, open: map<string, nat>, source: string)
    requires OpenOk(db, open) && FindRow(db.log, source).None?
    ensures source in open <==> FindCredit(db.ledger, RewardKey(source)).Some?
  {
    var k := FindCredit(db.ledger, RewardKey(source));
    if k.Some? {
      SourceOfKey(db.ledger[k.value], source);
    }
  }

  lemma AppendedPairs(db: Db, c: Credit)
    requires forall i | 0 <= i < |db.log| :: c.source != Some(RewardKey(db.log[i].source))
    ensures PairsRecord(db.(ledger := db.ledger + [c])) <==> PairsRecord(db)
  {
    var after := db.(ledger := db.ledger + [c]);
    if PairsRecord(after) {
      forall i, k | 0 <= i < |db.log| && 0 <= k < |db.ledger| && Pair(db, i, k) ensures Records(db, i, k) {
        assert Pair(after, i, k) && Records(after, i, k);
      }
    }
    if PairsRecord(db) {
      forall i, k | 0 <= i < |after.log| && 0 <= k < |after.ledger| && Pair(after, i, k) ensures Records(after, i, k) {
        assert k < |db.ledger| && Pair(db, i, k);
      }
    }
  }

  lemma AppendedRowPairs(db: Db, row: LogRow)
    ensures PairsRecord(db.(log := db.log + [row]))
       <==> PairsRecord(db) && forall k | 0 <= k < |db.ledger| && db.ledger[k].source == Some(RewardKey(row.source)) ::
              Records(db.(log := db.log + [row]), |db.log|, k)
  {
    var after := db.(log := db.log + [row]);
    assert after.log[|db.log|] == row;
    if PairsRecord(after) {
      forall i, k | 0 <= i < |db.log| && 0 <= k < |db.ledger| && Pair(db, i, k) ensures Records(db, i, k) {
        assert Pair(after, i, k) && Records(after, i, k);
      }
      forall k | 0 <= k < |db.ledger| && db.ledger[k].source == Some(RewardKey(row.source)) ensures Records(after, |db.log|, k) {
        assert Pair(after, |db.log|, k);
      }
    } else {
      var i, k :| 0 <= i < |after.log| && 0 <= k < |db.ledger| && Pair(after, i, k) && !Records(after, i, k);
      assert i < |db.log| ==> Pair(db, i, k) && !Records(db, i, k);
    }
  }

  /** An entry that belongs to no event changes nothing here. */
  lemma OtherCreditSettles(db: Db, open: map<string, nat>, lost: bool, c: Credit)
    requires CrashInv(db, open, lost) && !IsReward(c)
    requires c.source.Some? ==> FindCredit(db.ledger, c.source.value).None?
    ensures CrashInv(db.(ledger := db.ledger + [c]), open, lost)
  {
    var after := db.(ledger := db.ledger + [c]);
    forall i | 0 <= i < |db.log| ensures c.source != Some(RewardKey(db.log[i].source)) {
      assert IsRewardKey(RewardKey(db.log[i].source));
    }
    AppendedPairs(db, c);
    forall source | source in open ensures HasCredit(after.ledger, source, open[source]) {
      assert HasCredit(db.ledger, source, open[source]) && IsRewardKey(RewardKey(source));
      FindCreditOfAppend(db.ledger, c, RewardKey(source));
    }
    forall k | 0 <= k < |after.ledger| && IsReward(after.ledger[k])
      ensures FindRow(db.log, SourceOf(after.ledger[k])).Some? || SourceOf(after.ledger[k]) in open
    {
      assert k < |db.ledger| && after.ledger[k] == db.ledger[k];
    }
    assert PairsRecord(after) <==> PairsRecord(db);
    assert RowsOk(after) by {
      assert forall i | 0 <= i < |db.log| && !db.log[i].denied :: Pair(db, i, db.log[i].entry.value);
    }
  }

  /** A credit whose log row is still to come opens its event. */
  lemma CreditOpens(db: Db, open: map<string, nat>, lost: bool, user: nat, amount: int, source: string)
    requires CrashInv(db, open, lost) && FindRow(db.log, source).None? && FindCredit(db.ledger, RewardKey(source)).None?
    ensures CrashInv(db.(ledger := db.ledger + [Credit(user, amount, Some(RewardKey(source)))]), open[source := user], lost)
  {
    var c := Credit(user, amount, Some(RewardKey(source)));
    var after := db.(ledger := db.ledger + [c]);
    forall i | 0 <= i < |db.log| ensures c.source != Some(RewardKey(db.log[i].source)) {
      RewardKeyInjective(db.log[i].source, source);
    }
    AppendedPairs(db, c);
    CreditKeepsOpen(db, open, c, source);
  }

  lemma CreditKeepsOpen(db: Db, open: map<string, nat>, c: Credit, source: string)
    requires OpenOk(db, open) && FindRow(db.log, source).None? && c.source == Some(RewardKey(source))
    ensures OpenOk(db.(ledger := db.ledger + [c]), open[source := c.user])
  {
    var after, more := db.(ledger := db.ledger + [c]), open[source := c.user];
    SourceOfKey(c, source);
    forall other | other in more ensures FindRow(db.log, other).None? && HasCredit(after.ledger, other, more[other]) {
      FindCreditOfAppend(db.ledger, c, RewardKey(other));
      RewardKeyInjective(other, source);
      assert other != source ==> HasCredit(db.ledger, other, open[other]);
    }
    forall k | 0 <= k < |after.ledger| && IsReward(after.ledger[k])
      ensures FindRow(db.log, SourceOf(after.ledger[k])).Some? || SourceOf(after.ledger[k]) in more
    {
      if k < |db.ledger| {
        assert after.ledger[k] == db.ledger[k];
      }
    }
  }

  lemma RowClosesOpen(db: Db, open: map<string, nat>, row: LogRow)
    requires OpenOk(db, open)
    ensures OpenOk(db.(log := db.log + [row]), open - {row.source})
  {
    var after := db.(log := db.log + [row]);
    forall source | source in open - {row.source} ensures FindRow(after.log, source).None? {
      FindRowOfAppend(db.log, row, source);
    }
    forall k | 0 <= k < |db.ledger| && IsReward(db.ledger[k])
      ensures FindRow(after.log, SourceOf(db.ledger[k])).Some? || SourceOf(db.ledger[k]) in open - {row.source}
    {
      FindRowOfAppend(db.log, row, SourceOf(db.ledger[k]));
    }
  }

  lemma RowKeepsTables(db: Db, row: LogRow)
    requires UniqueSources(db) && RowsOk(db) && FindRow(db.log, row.source).None?
    requires if row.denied then row.entry == None
             else row.entry.Some? && row.entry.value < |db.ledger| && db.ledger[row.entry.value].source == Some(RewardKey(row.source))
    ensures UniqueSources(db.(log := db.log + [row])) && RowsOk(db.(log := db.log + [row]))
  {
    var after := db.(log := db.log + [row]);
    assert forall i | 0 <= i < |db.log| :: after.log[i] == db.log[i];
  }

  /** A denial closes its event, and loses the credit if there was one. */
  lemma DenialCloses(db: Db, open: map<string, nat>, lost: bool, e: Event, now: int)
    requires CrashInv(db, open, lost) && FindRow(db.log, e.source).None?
    ensures CrashInv(db.(log := db.log + [DeniedRow(e, now)]), open - {e.source}, lost || e.source in open)
  {
    var row := DeniedRow(e, now);
    RowKeepsTables(db, row);
    RowClosesOpen(db, open, row);
    AppendedRowPairs(db, row);
    UnloggedIsOpen(db, open, e.source);
    var k := FindCredit(db.ledger, RewardKey(e.source));
    assert k.Some? ==> !Records(db.(log := db.log + [row]), |db.log|, k.value);
  }

  /** A log row for an entry closes its event, and loses the credit if it went to somebody else. */
  lemma LoggingCloses(db: Db, open: map<string, nat>, lost: bool, e: Event, k: nat, now: int)
    requires CrashInv(db, open, lost) && FindRow(db.log, e.source).None? && FindCredit(db.ledger, RewardKey(e.source)) == Some(k)
    ensures CrashInv(db.(log := db.log + [CreditedRow(e, k, now)]), open - {e.source}, lost || db.ledger[k].user != e.user)
  {
    var row := CreditedRow(e, k, now);
    var after := db.(log := db.log + [row]);
    RowKeepsTables(db, row);
    RowClosesOpen(db, open, row);
    AppendedRowPairs(db, row);
    assert forall j | 0 <= j < |db.ledger| && db.ledger[j].source == Some(RewardKey(e.source)) :: j == k;
    assert after.log[|db.log|] == row;
    assert Records(after, |db.log|, k) <==> db.ledger[k].user == e.user;
  }

  /** What a report does that its event has not been decided for. */
  lemma HandleCases(rules: Rules, db: Db, e: Event, now: int)
    requires UniqueSources(db) && RowsOk(db) && FindRow(db.log, e.source).None?
    ensures var after := Handle(rules, db, e, now).0;
            var known := FindCredit(db.ledger, RewardKey(e.source));
            if Passes(rules, db, e, now) then
              var k := if known.Some? then known.value else |db.ledger|;
              && after.log == db.log + [CreditedRow(e, k, now)]
              && after.ledger == (if known.Some? then db.ledger
                                  else db.ledger + [Credit(e.user, rules[e.key].amount, Some(RewardKey(e.source)))])
            else after == if Decides(rules, db, e, now) then db.(log := db.log + [DeniedRow(e, now)]) else db
  {
    var known := FindCredit(db.ledger, RewardKey(e.source));
    var k := if known.Some? then known.value else |db.ledger|;
    assert RewardKey(e.source) != "";
    forall i | 0 <= i < |db.log| ensures db.log[i].entry != Some(k) {
      if db.log[i].entry == Some(k) {
        RewardKeyInjective(db.log[i].source, e.source);
      }
    }
    assert !EntryLogged(db.log, k);
  }

  lemma RetrySettles(db: Db, open: map<string, nat>, lost: bool, e: Event, now: int)
    requires CrashInv(db, open, lost) && FindRow(db.log, e.source).None? && FindCredit(db.ledger, RewardKey(e.source)).Some?
    ensures e.source in open
    ensures var k := FindCredit(db.ledger, RewardKey(e.source)).value;
            CrashInv(db.(log := db.log + [CreditedRow(e, k, now)]), open - {e.source}, lost || e.user != open[e.source])
  {
    var k := FindCredit(db.ledger, RewardKey(e.source)).value;
    UnloggedIsOpen(db, open, e.source);
    assert HasCredit(db.ledger, e.source, open[e.source]);
    LoggingCloses(db, open, lost, e, k, now);
  }

  lemma FirstReportSettles(db: Db, open: map<string, nat>, lost: bool, e: Event, amount: int, now: int)
    requires CrashInv(db, open, lost) && FindRow(db.log, e.source).None? && FindCredit(db.ledger, RewardKey(e.source)).None?
    ensures e.source !in open
    ensures CrashInv(Db(db.ledger + [Credit(e.user, amount, Some(RewardKey(e.source)))],
                        db.log + [CreditedRow(e, |db.ledger|, now)]), open - {e.source}, lost)
  {
    var c := Credit(e.user, amount, Some(RewardKey(e.source)));
    UnloggedIsOpen(db, open, e.source);
    CreditOpens(db, open, lost, e.user, amount, e.source);
    FindCreditOfAppend(db.ledger, c, RewardKey(e.source));
    LoggingCloses(db.(ledger := db.ledger + [c]), open[e.source := e.user], lost, e, |db.ledger|, now);
    assert open[e.source := e.user] - {e.source} == open - {e.source};
  }

  lemma PassingReportSettles(rules: Rules, db: Db, open: map<string, nat>, lost: bool, e: Event, now: int)
    requires CrashInv(db, open, lost) && FindRow(db.log, e.source).None? && Passes(rules, db, e, now)
    ensures var after := Handle(rules, db, e, now).0;
            CrashInv(after, open - {e.source}, lost || (e.source in open && e.user != open[e.source]))
  {
    HandleCases(rules, db, e, now);
    if FindCredit(db.ledger, RewardKey(e.source)).Some? {
      RetrySettles(db, open, lost, e, now);
    } else {
      FirstReportSettles(db, open, lost, e, rules[e.key].amount, now);
    }
  }

  lemma ReportSettles(rules: Rules, db: Db, open: map<string, nat>, lost: bool, e: Event, now: int)
    requires CrashInv(db, open, lost)
    ensures var t := Done(Report(e, now));
            CrashInv(Attempt(rules, db, t), OpenAfter(rules, db, open, t), lost || LosesNow(rules, db, open, t))
  {
    if FindRow(db.log, e.source).None? {
      if Passes(rules, db, e, now) {
        PassingReportSettles(rules, db, open, lost, e, now);
      } else {
        HandleCases(rules, db, e, now);
        DenialCloses(db, open, lost, e, now);
      }
    }
  }

  lemma CrashSettles(rules: Rules, db: Db, open: map<string, nat>, lost: bool, e: Event, now: int)
    requires CrashInv(db, open, lost)
    ensures CrashInv(Attempt(rules, db, Crashed(e, now)), OpenAfter(rules, db, open, Crashed(e, now)), lost)
  {
    if FindRow(db.log, e.source).None? {
      HandleCases(rules, db, e, now);
      if Passes(rules, db, e, now) && FindCredit(db.ledger, RewardKey(e.source)).None? {
        CreditOpens(db, open, lost, e.user, rules[e.key].amount, e.source);
      }
    }
  }

  lemma AttemptSettles(rules: Rules, db: Db, open: map<string, nat>, lost: bool, t: Try)
    requires CrashInv(db, open, lost)
    ensures CrashInv(Attempt(rules, db, t), OpenAfter(rules, db, open, t), lost || LosesNow(rules, db, open, t))
  {
    match t
    case Crashed(e, now) => CrashSettles(rules, db, open, lost, e, now);
    case Done(call) =>
      match call {
        case Report(e, now) => ReportSettles(rules, db, open, lost, e, now);
        case OtherCredit(user, amount, source) =>
          if Attempt(rules, db, t) != db {
            OtherCreditSettles(db, open, lost, Credit(user, amount, source));
          }
      }
  }

  lemma {:induction false} AttemptsSettle(rules: Rules, tries: seq<Try>)
    ensures CrashInv(Attempts(rules, tries), Open(rules, tries), Lost(rules, tries))
  {
    if tries != [] {
      var before := tries[..|tries| - 1];
      AttemptsSettle(rules, before);
      AttemptSettles(rules, Attempts(rules, before), Open(rules, before), Lost(rules, before), tries[|tries| - 1]);
    }
  }

  /**
   * Over every run with crashes and retries: rows that were not denied and reward entries are in
   * bijection exactly when each event a crash left open was reported again, and the first report
   * that decided it was by its own user, under a rule that applied and below the daily limit.
   */
  lemma CrashedLogMatchesLedger(rules: Rules, tries: seq<Try>)
    ensures Matched(Attempts(rules, tries)) <==> Open(rules, tries) == map[] && !Lost(rules, tries)
  {
    AttemptsSettle(rules, tries);
    MatchedIffSettled(Attempts(rules, tries), Open(rules, tries), Lost(rules, tries));
  }

  // ---------------------------------------------------------------- the daily limit

  /** The credited events of one user and kind, as window entries of weight one. */
  function Entries(log: Log, user: nat, key: string): seq<Entry> {
    if log == [] then []
    else
      var last := log[|log| - 1];
      Entries(log[..|log| - 1], user, key) + if CountsFor(last, user, key) then [Entry(last.createdAt, 1.0)] else []
  }

  function CountBetween(log: Log, user: nat, key: string, from: int, to: int): nat {
    if log == [] then 0
    else
      var last := log[|log| - 1];
      CountBetween(log[..|log| - 1], user, key, from, to)
      + if CountsFor(last, user, key) && from <= last.createdAt <= to then 1 else 0
  }

  lemma EntriesOfAppend(log: Log, row: LogRow, user: nat, key: string)
    ensures Entries(log + [row], user, key)
         == Entries(log, user, key) + if CountsFor(row, user, key) then [Entry(row.createdAt, 1.0)] else []
  {
    assert (log + [row])[..|log|] == log;
  }

  lemma {:induction false} EntriesSince(log: Log, user: nat, key: string, from: int)
    ensures Since(Entries(log, user, key), from) == CountSince(log, user, key, from) as real
  {
    if log != [] {
      var before, last := log[..|log| - 1], log[|log| - 1];
      EntriesSince(before, user, key, from);
      var entries := Entries(before, user, key);
      if CountsFor(last, user, key) {
        SinceOfAppend(entries, Entry(last.createdAt, 1.0), from);
      } else {
        assert Entries(log, user, key) == entries;
      }
    }
  }

  lemma {:induction false} EntriesBetween(log: Log, user: nat, key: string, from: int, to: int)
    ensures Between(Entries(log, user, key), from, to) == CountBetween(log, user, key, from, to) as real
  {
    if log != [] {
      var before, last := log[..|log| - 1], log[|log| - 1];
      EntriesBetween(before, user, key, from, to);
      var entries := Entries(before, user, key);
      if CountsFor(last, user, key) {
        BetweenOfAppend(entries, Entry(last.createdAt, 1.0), from, to);
      } else {
        assert Entries(log, user, key) == entries;
      }
    }
  }

  lemma {:induction false} EntriesOfRows(log: Log, user: nat, key: string, latest: int)
    requires forall i | 0 <= i < |log| :: log[i].createdAt <= latest
    ensures forall i | 0 <= i < |Entries(log, user, key)| ::
              Entries(log, user, key)[i].time <= latest && Entries(log, user, key)[i].weight == 1.0
  {
    if log != [] {
      EntriesOfRows(log[..|log| - 1], user, key, latest);
    }
  }

  function Clock(call: Call, before: int): int {
    if call.Report? then call.now else before
  }

  /** The clock of the last report; it never goes back. */
  function LastClock(calls: seq<Call>): int {
    if calls == [] then 0 else Clock(calls[|calls| - 1], LastClock(calls[..|calls| - 1]))
  }

  predicate InOrder(calls: seq<Call>) {
    calls != [] ==> InOrder(calls[..|calls| - 1]) && LastClock(calls[..|calls| - 1]) <= LastClock(calls)
  }

  /** The limit as the window's cap; a negative limit lets nothing through, like zero. */
  function Limit(rule: Rule): real
    requires rule.maxPerDay.Some?
  {
    if rule.maxPerDay.value < 0 then 0.0 else rule.maxPerDay.value as real
  }

  predicate Timed(log: Log, latest: int) {
    forall i | 0 <= i < |log| :: log[i].createdAt <= latest
  }

  lemma PerformIsAdmitted(rules: Rules, db: Db, call: Call, user: nat, key: string, latest: int)
    requires key in rules && rules[key].maxPerDay.Some?
    requires Timed(db.log, latest) && latest <= Clock(call, latest)
    requires Admitted(Entries(db.log, user, key), Limit(rules[key]))
    ensures Timed(Perform(rules, db, call).log, Clock(call, latest))
    ensures Admitted(Entries(Perform(rules, db, call).log, user, key), Limit(rules[key]))
  {
    var after := Perform(rules, db, call);
    if after.log != db.log {
      var row := after.log[|db.log|];
      assert after.log == db.log + [row];
      EntriesOfAppend(db.log, row, user, key);
      if CountsFor(row, user, key) {
        EntriesOfRows(db.log, user, key, latest);
        EntriesSince(db.log, user, key, call.now - DAY_MS);
        AppendAdmitted(Entries(db.log, user, key), Entry(call.now, 1.0), Limit(rules[key]));
      } else {
        assert Entries(db.log, user, key) + [] == Entries(db.log, user, key);
      }
    }
  }

  lemma {:induction false} SerialIsAdmitted(rules: Rules, calls: seq<Call>, user: nat, key: string)
    requires key in rules && rules[key].maxPerDay.Some? && InOrder(calls)
    ensures Timed(Serial(rules, calls).log, LastClock(calls))
    ensures Admitted(Entries(Serial(rules, calls).log, user, key), Limit(rules[key]))
  {
    if calls != [] {
      var before := calls[..|calls| - 1];
      SerialIsAdmitted(rules, before, user, key);
      PerformIsAdmitted(rules, Serial(rules, before), calls[|calls| - 1], user, key, LastClock(before));
    }
  }

  /** In no closed day, wherever it starts, is a user credited for more events of a kind than its limit. */
  lemma DailyLimitHolds(rules: Rules, calls: seq<Call>, user: nat, key: string, from: int)
    requires key in rules && rules[key].maxPerDay.Some? && InOrder(calls)
    ensures CountBetween(Serial(rules, calls).log, user, key, from, from + DAY_MS) as real <= Limit(rules[key])
  {
    var db := Serial(rules, calls);
    SerialIsAdmitted(rules, calls, user, key);
    EntriesOfRows(db.log, user, key, LastClock(calls));
    EntriesBetween(db.log, user, key, from, from + DAY_MS);
    EveryWindowWithinCap(Entries(db.log, user, key), Limit(rules[key]), from);
  }

  // ---------------------------------------------------------------- interleaved calls and crashes

  /** A report in flight, named after the database operation it does next. */
  datatype Flight =
    | ReadingRule(e: Event)
    | Counting(e: Event, rule: Rule)
    | Crediting(e: Event, rule: Rule)
    | Logging(row: LogRow)

  /** `reported` is every event a call ever started with. */
  datatype State = State(db: Db, flights: map<nat, Flight>, reported: set<Event>)

  /** A retry is another `Begin`; a crash forgets the call and leaves the tables as they are. */
  datatype Happening = Begin(c: nat, e: Event) | Next(c: nat, now: int) | Crash(c: nat) | Other(user: nat, amount: int, source: Option<string>)

  function Advance(rules: Rules, db: Db, f: Flight, now: int): (Db, Option<Flight>) {
    match f
    case ReadingRule(e) =>
      (db, if !RuleApplies(rules, e.key) then Some(Logging(DeniedRow(e, now)))
           else if rules[e.key].maxPerDay.Some? then Some(Counting(e, rules[e.key]))
           else Some(Crediting(e, rules[e.key])))
    case Counting(e, rule) =>
      (db, if LimitReached(rule, CountSince(db.log, e.user, e.key, now - DAY_MS)) then Some(Logging(DeniedRow(e, now)))
           else Some(Crediting(e, rule)))
    case Crediting(e, rule) =>
      var (ledger, entry) := CreditOnce(db.ledger, e.user, rule.amount, Some(RewardKey(e.source)));
      (db.(ledger := ledger), if entry.Some? then Some(Logging(CreditedRow(e, entry.value, now))) else None)
    case Logging(row) => (db.(log := LogOnce(db.log, row.(createdAt := now))), None)
  }

  function Step(rules: Rules, s: State, h: Happening): State {
    match h
    case Begin(c, e) =>
      if c in s.flights then s
      else if FindRow(s.db.log, e.source).Some? then s.(reported := s.reported + {e})
      else s.(flights := s.flights[c := ReadingRule(e)], reported := s.reported + {e})
    case Next(c, now) =>
      if c !in s.flights then s
      else
        var (db, rest) := Advance(rules, s.db, s.flights[c], now);
        s.(db := db, flights := if rest.Some? then s.flights[c := rest.value] else s.flights - {c})
    case Crash(c) => s.(flights := s.flights - {c})
    case Other(user, amount, source) => s.(db := Perform(rules, s.db, OtherCredit(user, amount, source)))
  }

  function Run(rules: Rules, s: State, hs: seq<Happening>): State
    decreases hs
  {
    if hs == [] then s else Run(rules, Step(rules, s, hs[0]), hs[1..])
  }

  const START := State(Db([], []), map[], {})

  /** An entry under a reward key pays what the rule of some reported event with that source says, to its user. */
  ghost predicate Earned(rules: Rules, reported: set<Event>, c: Credit) {
    exists e | e in reported ::
      RuleApplies(rules, e.key) && c == Credit(e.user, rules[e.key].amount, Some(RewardKey(e.source)))
  }

  /** A row that names an entry names the one its source was credited with. */
  predicate Backed(ledger: Ledger, row: LogRow) {
    row.entry.Some? ==> row.entry.value < |ledger| && ledger[row.entry.value].source == Some(RewardKey(row.source))
  }

  predicate FlightOk(rules: Rules, s: State, f: Flight) {
    match f
    case ReadingRule(e) => e in s.reported
    case Counting(e, rule) => e in s.reported && RuleApplies(rules, e.key) && rule == rules[e.key]
    case Crediting(e, rule) => e in s.reported && RuleApplies(rules, e.key) && rule == rules[e.key]
    case Logging(row) => Backed(s.db.ledger, row)
  }

  ghost predicate Safe(rules: Rules, s: State) {
    && UniqueSources(s.db)
    && (forall k | 0 <= k < |s.db.ledger| && IsReward(s.db.ledger[k]) :: Earned(rules, s.reported, s.db.ledger[k]))
    && (forall i | 0 <= i < |s.db.log| :: Backed(s.db.ledger, s.db.log[i]))
    && (forall c | c in s.flights :: FlightOk(rules, s, s.flights[c]))
  }

  lemma EarnedGrows(rules: Rules, small: set<Event>, big: set<Event>, c: Credit)
    requires small <= big && Earned(rules, small, c)
    ensures Earned(rules, big, c)
  {
    var e :| e in small && RuleApplies(rules, e.key) && c == Credit(e.user, rules[e.key].amount, Some(RewardKey(e.source)));
    assert e in big;
  }

  lemma BeginKeepsSafe(rules: Rules, s: State, c: nat, e: Event)
    requires Safe(rules, s)
    ensures Safe(rules, Step(rules, s, Begin(c, e)))
  {
    var t := Step(rules, s, Begin(c, e));
    forall k | 0 <= k < |t.db.ledger| && IsReward(t.db.ledger[k]) ensures Earned(rules, t.reported, t.db.ledger[k]) {
      EarnedGrows(rules, s.reported, t.reported, s.db.ledger[k]);
    }
  }

  lemma NextKeepsSafe(rules: Rules, s: State, c: nat, now: int)
    requires Safe(rules, s)
    ensures Safe(rules, Step(rules, s, Next(c, now)))
  {
    if c in s.flights {
      var f := s.flights[c];
      assert FlightOk(rules, s, f);
      if f.Crediting? {
        assert Earned(rules, s.reported, Credit(f.e.user, f.rule.amount, Some(RewardKey(f.e.source))));
      }
    }
  }

  lemma OtherKeepsSafe(rules: Rules, s: State, user: nat, amount: int, source: Option<string>)
    requires Safe(rules, s)
    ensures Safe(rules, Step(rules, s, Other(user, amount, source)))
  {
  }

  lemma {:induction false} RunKeepsSafe(rules: Rules, s: State, hs: seq<Happening>)
    requires Safe(rules, s)
    ensures Safe(rules, Run(rules, s, hs))
    decreases hs
  {
    if hs != [] {
      match hs[0] {
        case Begin(c, e) => BeginKeepsSafe(rules, s, c, e);
        case Next(c, now) => NextKeepsSafe(rules, s, c, now);
        case Crash(_) =>
        case Other(user, amount, source) => OtherKeepsSafe(rules, s, user, amount, source);
      }
      RunKeepsSafe(rules, Step(rules, s, hs[0]), hs[1..]);
    }
  }

  /**
   * Whatever interleaves, crashes and is retried: no two entries share a source, and every entry
   * under a reward key is owed to a reported event, its user and its rule.
   */
  lemma CreditedAtMostOnce(rules: Rules, hs: seq<Happening>, j: nat, k: nat)
    requires j < k < |Run(rules, START, hs).db.ledger|
    ensures var s := Run(rules, START, hs);
            && (s.db.ledger[j].source.Some? ==> s.db.ledger[j].source != s.db.ledger[k].source)
            && (IsReward(s.db.ledger[k]) ==> Earned(rules, s.reported, s.db.ledger[k]))
  {
    RunKeepsSafe(rules, START, hs);
  }

  /** What each source paid the user. */
  function Paid(ledger: Ledger, user: nat): map<string, int> {
    if ledger == [] then map[]
    else
      var before, last := Paid(ledger[..|ledger| - 1], user), ledger[|ledger| - 1];
      if last.user == user && IsReward(last) then before[last.source.value := last.amount] else before
  }

  ghost function Sum(pay: map<string, int>): int {
    if pay == map[] then 0
    else
      var k :| k in pay;
      pay[k] + Sum(pay - {k})
  }

  lemma {:induction false} SumOfUpdate(pay: map<string, int>, k: string, v: int)
    requires k !in pay
    ensures Sum(pay[k := v]) == Sum(pay) + v
  {
    var more := pay[k := v];
    assert k in more;
    var j :| j in more && Sum(more) == more[j] + Sum(more - {j});
    if j == k {
      assert more - {j} == pay;
    } else {
      assert more - {j} == (pay - {j})[k := v];
      SumOfUpdate(pay - {j}, k, v);
      assert pay == (pay - {j})[j := pay[j]];
      SumOfUpdate(pay - {j}, j, pay[j]);
    }
  }

  lemma {:induction false} PaidSourcesAreOld(ledger: Ledger, user: nat, source: string)
    requires source in Paid(ledger, user)
    ensures exists k | 0 <= k < |ledger| :: ledger[k].source == Some(source)
  {
    var before := ledger[..|ledger| - 1];
    if source in Paid(before, user) {
      PaidSourcesAreOld(before, user, source);
      var k :| 0 <= k < |before| && before[k].source == Some(source);
      assert ledger[k].source == Some(source);
    } else {
      assert ledger[|ledger| - 1].source == Some(source);
    }
  }

  lemma {:induction false} BalanceIsSumOfSources(ledger: Ledger, user: nat)
    requires UniqueSources(Db(ledger, []))
    ensures RewardBalance(ledger, user) == Sum(Paid(ledger, user))
  {
    if ledger != [] {
      var before, last := ledger[..|ledger| - 1], ledger[|ledger| - 1];
      BalanceIsSumOfSources(before, user);
      if last.user == user && IsReward(last) {
        if last.source.value in Paid(before, user) {
          PaidSourcesAreOld(before, user, last.source.value);
        }
        SumOfUpdate(Paid(before, user), last.source.value, last.amount);
      }
    }
  }

  /** The user's entries that no event earned. */
  function OtherCredits(ledger: Ledger, user: nat): int {
    if ledger == [] then 0
    else
      var last := ledger[|ledger| - 1];
      OtherCredits(ledger[..|ledger| - 1], user) + if last.user == user && !IsReward(last) then last.amount else 0
  }

  lemma {:induction false} BalanceSplits(ledger: Ledger, user: nat)
    ensures Balance(ledger, user) == RewardBalance(ledger, user) + OtherCredits(ledger, user)
  {
    if ledger != [] {
      BalanceSplits(ledger[..|ledger| - 1], user);
    }
  }

  /** After any interleaving, crashes included, a user's balance counts every credited source once, beside the credits made elsewhere. */
  lemma BalanceCountsEachSourceOnce(rules: Rules, hs: seq<Happening>, user: nat)
    ensures var ledger := Run(rules, START, hs).db.ledger;
            && RewardBalance(ledger, user) == Sum(Paid(ledger, user))
            && Balance(ledger, user) == Sum(Paid(ledger, user)) + OtherCredits(ledger, user)
  {
    var ledger := Run(rules, START, hs).db.ledger;
    RunKeepsSafe(rules, START, hs);
    BalanceIsSumOfSources(ledger, user);
    BalanceSplits(ledger, user);
  }

  // ---------------------------------------------------------------- uninterrupted and crashed calls

  lemma RunCons(rules: Rules, s: State, h: Happening, after: seq<Happening>)
    ensures Run(rules, s, [h] + after) == Run(rules, Step(rules, s, h), after)
  {
    assert ([h] + after)[1..] == after;
  }

  /** A report's events when nobody interrupts it; steps after its last one do nothing. */
  function ReportEvents(c: nat, e: Event, now: int, after: seq<Happening>): seq<Happening> {
    var n := Next(c, now);
    [Begin(c, e)] + ([n] + ([n] + ([n] + ([n] + after))))
  }

  /** A report nobody interrupts is the service's whole call. */
  lemma HandleRun(rules: Rules, s: State, c: nat, e: Event, now: int, after: seq<Happening>)
    requires c !in s.flights
    ensures Run(rules, s, ReportEvents(c, e, now, after))
         == Run(rules, State(Handle(rules, s.db, e, now).0, s.flights, s.reported + {e}), after)
  {
    var n := Next(c, now);
    var s1 := Step(rules, s, Begin(c, e));
    var s2 := Step(rules, s1, n);
    var s3 := Step(rules, s2, n);
    var s4 := Step(rules, s3, n);
    RunCons(rules, s, Begin(c, e), [n] + ([n] + ([n] + ([n] + after))));
    RunCons(rules, s1, n, [n] + ([n] + ([n] + after)));
    RunCons(rules, s2, n, [n] + ([n] + after));
    RunCons(rules, s3, n, [n] + after);
    RunCons(rules, s4, n, after);
    HandleSteps(rules, s, c, e, now);
  }

  lemma HandleSteps(rules: Rules, s: State, c: nat, e: Event, now: int)
    requires c !in s.flights
    ensures var n := Next(c, now);
            var s2 := Step(rules, Step(rules, s, Begin(c, e)), n);
            Step(rules, Step(rules, Step(rules, s2, n), n), n)
            == State(Handle(rules, s.db, e, now).0, s.flights, s.reported + {e})
  {
    var n := Next(c, now);
    var t := s.(reported := s.reported + {e});
    var s1 := Step(rules, s, Begin(c, e));
    if FindRow(s.db.log, e.source).None? {
      var s2 := Step(rules, s1, n);
      if RuleApplies(rules, e.key) {
        var rule := rules[e.key];
        if rule.maxPerDay.Some? {
          assert s2 == t.(flights := t.flights[c := Counting(e, rule)]);
          var s3 := Step(rules, s2, n);
          if LimitReached(rule, CountSince(s.db.log, e.user, e.key, now - DAY_MS)) {
            assert s3 == t.(flights := t.flights[c := Logging(DeniedRow(e, now))]);
            LogStep(rules, t, c, DeniedRow(e, now), now);
          } else {
            assert s3 == t.(flights := t.flights[c := Crediting(e, rule)]);
            CreditSteps(rules, t, c, e, rule, now);
          }
        } else {
          assert s2 == t.(flights := t.flights[c := Crediting(e, rule)]);
          CreditSteps(rules, t, c, e, rule, now);
        }
      } else {
        assert s2 == t.(flights := t.flights[c := Logging(DeniedRow(e, now))]);
        LogStep(rules, t, c, DeniedRow(e, now), now);
      }
    }
  }

  /** The last step of a call, and the steps after it, which do nothing. */
  lemma LogStep(rules: Rules, t: State, c: nat, row: LogRow, now: int)
    requires c !in t.flights && row.createdAt == now
    ensures var n := Next(c, now);
            var end := Step(rules, t.(flights := t.flights[c := Logging(row)]), n);
            end == t.(db := t.db.(log := LogOnce(t.db.log, row))) && Step(rules, end, n) == end
  {
    assert t.flights[c := Logging(row)] - {c} == t.flights;
  }

  lemma CreditSteps(rules: Rules, t: State, c: nat, e: Event, rule: Rule, now: int)
    requires c !in t.flights
    ensures var n := Next(c, now);
            var (ledger, entry) := CreditOnce(t.db.ledger, e.user, rule.amount, Some(RewardKey(e.source)));
            var db := if entry.None? then t.db else Db(ledger, LogOnce(t.db.log, CreditedRow(e, entry.value, now)));
            var end := Step(rules, Step(rules, t.(flights := t.flights[c := Crediting(e, rule)]), n), n);
            end == t.(db := db) && Step(rules, end, n) == end
  {
    var n := Next(c, now);
    var s1 := t.(flights := t.flights[c := Crediting(e, rule)]);
    var s2 := Step(rules, s1, n);
    var (ledger, entry) := CreditOnce(t.db.ledger, e.user, rule.amount, Some(RewardKey(e.source)));
    assert t.flights[c := Crediting(e, rule)] - {c} == t.flights;
    if entry.Some? {
      var u := t.(db := t.db.(ledger := ledger));
      assert s2 == u.(flights := u.flights[c := Logging(CreditedRow(e, entry.value, now))]);
      LogStep(rules, u, c, CreditedRow(e, entry.value, now), now);
    }
  }

  /** A limited report whose process dies after its credit; an unlimited one has no counting step. */
  function CrashEvents(c: nat, e: Event, limited: bool, now: int, after: seq<Happening>): seq<Happening> {
    var n := Next(c, now);
    [Begin(c, e)] + ([n] + (if limited then [n] + ([n] + ([Crash(c)] + after)) else [n] + ([Crash(c)] + after)))
  }

  /** Dying between the credit and the log row is what `Crashed` does to the tables. */
  lemma CrashRun(rules: Rules, s: State, c: nat, e: Event, now: int, after: seq<Happening>)
    requires c !in s.flights && FindRow(s.db.log, e.source).None? && Passes(rules, s.db, e, now)
    ensures Run(rules, s, CrashEvents(c, e, rules[e.key].maxPerDay.Some?, now, after))
         == Run(rules, State(Attempt(rules, s.db, Crashed(e, now)), s.flights, s.reported + {e}), after)
  {
    var n, rule := Next(c, now), rules[e.key];
    var t := s.(reported := s.reported + {e});
    var s1 := Step(rules, s, Begin(c, e));
    var s2 := Step(rules, s1, n);
    var crediting := t.(flights := t.flights[c := Crediting(e, rule)]);
    CrashAfterCredit(rules, t, c, e, now, after);
    if rule.maxPerDay.Some? {
      RunCons(rules, s, Begin(c, e), [n] + ([n] + ([n] + ([Crash(c)] + after))));
      RunCons(rules, s1, n, [n] + ([n] + ([Crash(c)] + after)));
      RunCons(rules, s2, n, [n] + ([Crash(c)] + after));
      assert s2 == t.(flights := t.flights[c := Counting(e, rule)]);
      assert Step(rules, s2, n) == crediting;
    } else {
      RunCons(rules, s, Begin(c, e), [n] + ([n] + ([Crash(c)] + after)));
      RunCons(rules, s1, n, [n] + ([Crash(c)] + after));
      assert s2 == crediting;
    }
  }

  lemma CrashAfterCredit(rules: Rules, t: State, c: nat, e: Event, now: int, after: seq<Happening>)
    requires c !in t.flights && FindRow(t.db.log, e.source).None? && Passes(rules, t.db, e, now)
    ensures Run(rules, t.(flights := t.flights[c := Crediting(e, rules[e.key])]), [Next(c, now)] + ([Crash(c)] + after))
         == Run(rules, t.(db := Attempt(rules, t.db, Crashed(e, now))), after)
  {
    var n := Next(c, now);
    var s3 := t.(flights := t.flights[c := Crediting(e, rules[e.key])]);
    var s4 := Step(rules, s3, n);
    RunCons(rules, s3, n, [Crash(c)] + after);
    RunCons(rules, s4, Crash(c), after);
    assert RewardKey(e.source) != "";
    assert s4.flights - {c} == t.flights;
  }

  lemma StepOnlyAppends(rules: Rules, s: State, h: Happening)
    ensures s.db.ledger <= Step(rules, s, h).db.ledger && s.db.log <= Step(rules, s, h).db.log
  {
  }

  lemma {:induction false} RunOnlyAppends(rules: Rules, s: State, hs: seq<Happening>)
    ensures s.db.ledger <= Run(rules, s, hs).db.ledger && s.db.log <= Run(rules, s, hs).db.log
    decreases hs
  {
    if hs != [] {
      StepOnlyAppends(rules, s, hs[0]);
      RunOnlyAppends(rules, Step(rules, s, hs[0]), hs[1..]);
    }
  }

  /** An entry whose event has a row that does not name it is never logged, whatever is reported afterwards. */
  lemma LossIsPermanent(rules: Rules, s: State, hs: seq<Happening>, i: nat, k: nat)
    requires Safe(rules, s) && i < |s.db.log| && k < |s.db.ledger|
    requires s.db.ledger[k].source == Some(RewardKey(s.db.log[i].source)) && s.db.log[i].entry != Some(k)
    ensures !EntryLogged(Run(rules, s, hs).db.log, k)
  {
    RunKeepsSafe(rules, s, hs);
    RunOnlyAppends(rules, s, hs);
    var db := Run(rules, s, hs).db;
    assert db.log[i] == s.db.log[i] && db.ledger[k] == s.db.ledger[k];
    forall j | 0 <= j < |db.log| ensures db.log[j].entry != Some(k) {
      if db.log[j].entry == Some(k) {
        assert Backed(db.ledger, db.log[j]);
        RewardKeyInjective(db.log[j].source, db.log[i].source);
      }
    }
  }

  /**
   * With a limit of one a day: `a` is credited and its process dies, `b` of the same user and kind
   * is credited and logged, and the retry of `a` is denied. Its entry is never logged any more.
   */
  lemma RetryTooLate(rules: Rules, a: Event, b: Event, now: int, more: seq<Happening>)
    requires RuleApplies(rules, a.key) && rules[a.key].maxPerDay == Some(1) && rules[a.key].amount != 0
    requires a.user == b.user && a.key == b.key && a.source != b.source
    ensures var c := a.user;
            var hs := CrashEvents(c, a, true, now, ReportEvents(c, b, now, ReportEvents(c, a, now, more)));
            var s := State(Db([Credit(a.user, rules[a.key].amount, Some(RewardKey(a.source))),
                               Credit(b.user, rules[b.key].amount, Some(RewardKey(b.source)))],
                              [CreditedRow(b, 1, now), DeniedRow(a, now)]), map[], {a, b});
            Run(rules, START, hs) == Run(rules, s, more) && !EntryLogged(Run(rules, START, hs).db.log, 0)
  {
    var c := a.user;
    var db1 := Attempt(rules, START.db, Crashed(a, now));
    var db2 := Handle(rules, db1, b, now).0;
    var db3 := Handle(rules, db2, a, now).0;
    TwoCredits(rules, a, b, now);
    CrashRun(rules, START, c, a, now, ReportEvents(c, b, now, ReportEvents(c, a, now, more)));
    HandleRun(rules, State(db1, map[], {} + {a}), c, b, now, ReportEvents(c, a, now, more));
    HandleRun(rules, State(db2, map[], {} + {a} + {b}), c, a, now, more);
    assert {} + {a} + {b} + {a} == {a, b};
    var s := State(db3, map[], {a, b});
    RunKeepsSafe(rules, START, CrashEvents(c, a, true, now, ReportEvents(c, b, now, ReportEvents(c, a, now, []))));
    CrashRun(rules, START, c, a, now, ReportEvents(c, b, now, ReportEvents(c, a, now, [])));
    HandleRun(rules, State(db1, map[], {} + {a}), c, b, now, ReportEvents(c, a, now, []));
    HandleRun(rules, State(db2, map[], {} + {a} + {b}), c, a, now, []);
    LossIsPermanent(rules, s, more, 1, 0);
  }

  lemma TwoCredits(rules: Rules, a: Event, b: Event, now: int)
    requires RuleApplies(rules, a.key) && rules[a.key].maxPerDay == Some(1) && rules[a.key].amount != 0
    requires a.user == b.user && a.key == b.key && a.source != b.source
    ensures Passes(rules, START.db, a, now)
    ensures var ca := Credit(a.user, rules[a.key].amount, Some(RewardKey(a.source)));
            var cb := Credit(b.user, rules[b.key].amount, Some(RewardKey(b.source)));
            var db1 := Attempt(rules, START.db, Crashed(a, now));
            var db2 := Handle(rules, db1, b, now).0;
            && db1 == Db([ca], []) && db2 == Db([ca, cb], [CreditedRow(b, 1, now)])
            && Handle(rules, db2, a, now).0 == Db([ca, cb], [CreditedRow(b, 1, now), DeniedRow(a, now)])
  {
    var ca := Credit(a.user, rules[a.key].amount, Some(RewardKey(a.source)));
    var cb := Credit(b.user, rules[b.key].amount, Some(RewardKey(b.source)));
    RewardKeyInjective(a.source, b.source);
    FindCreditOfAppend([], ca, RewardKey(b.source));
    FindRowOfAppend([], CreditedRow(b, 1, now), a.source);
    assert [] + [ca] == [ca] && [ca] + [cb] == [ca, cb];
    assert [] + [CreditedRow(b, 1, now)] == [CreditedRow(b, 1, now)];
    assert [CreditedRow(b, 1, now)] + [DeniedRow(a, now)] == [CreditedRow(b, 1, now), DeniedRow(a, now)];
    var row := CreditedRow(b, 1, now);
    assert [row][..0] == [];
    assert CountSince([row], a.user, a.key, now - DAY_MS) == 1;
  }

  // ---------------------------------------------------------------- overlapping reports without crashes

  predicate NoCrash(hs: seq<Happening>) {
    forall i | 0 <= i < |hs| :: !hs[i].Crash?
  }

  /** A denied row has no entry; any other names an entry of its event. */
  predicate RowShape(ledger: Ledger, row: LogRow) {
    if row.denied then row.entry == None
    else row.entry.Some? && row.entry.value < |ledger| && ledger[row.entry.value].source == Some(RewardKey(row.source))
  }

  predicate WillLog(f: Flight, k: nat) {
    f.Logging? && f.row.entry == Some(k)
  }

  ghost predicate LogHeld(s: State, k: nat) {
    exists c :: c in s.flights && WillLog(s.flights[c], k)
  }

  predicate HasRow(db: Db, k: nat)
    requires k < |db.ledger|
  {
    IsReward(db.ledger[k]) ==> FindRow(db.log, SourceOf(db.ledger[k])).Some?
  }

  /** Every credited event has a row, or a call that is about to log it. */
  ghost predicate Settling(s: State) {
    && UniqueSources(s.db)
    && (forall i | 0 <= i < |s.db.log| :: RowShape(s.db.ledger, s.db.log[i]))
    && (forall c | c in s.flights && s.flights[c].Logging? :: RowShape(s.db.ledger, s.flights[c].row))
    && (forall k | 0 <= k < |s.db.ledger| :: HasRow(s.db, k) || LogHeld(s, k))
  }

  lemma HeldStays(s: State, t: State, c: nat, k: nat)
    requires LogHeld(s, k) && (c in s.flights ==> !WillLog(s.flights[c], k))
    requires forall d | d in s.flights && d != c :: d in t.flights && t.flights[d] == s.flights[d]
    ensures LogHeld(t, k)
  {
    var d :| d in s.flights && WillLog(s.flights[d], k);
    assert d in t.flights && WillLog(t.flights[d], k);
  }

  /** A step that touches neither table and no call that is about to log an entry. */
  lemma QuietStepSettles(s: State, t: State, c: nat)
    requires Settling(s) && t.db == s.db
    requires forall d | d in s.flights && d != c :: d in t.flights && t.flights[d] == s.flights[d]
    requires forall d | d in t.flights && d != c :: d in s.flights
    requires c in s.flights ==> !s.flights[c].Logging?
    requires c in t.flights && t.flights[c].Logging? ==> RowShape(t.db.ledger, t.flights[c].row)
    ensures Settling(t)
  {
    forall k | 0 <= k < |t.db.ledger| ensures HasRow(t.db, k) || LogHeld(t, k) {
      if LogHeld(s, k) {
        HeldStays(s, t, c, k);
      }
    }
  }

  lemma CreditingSettles(rules: Rules, s: State, c: nat, now: int)
    requires Settling(s) && c in s.flights && s.flights[c].Crediting?
    ensures Settling(Step(rules, s, Next(c, now)))
  {
    var t := Step(rules, s, Next(c, now));
    assert RewardKey(s.flights[c].e.source) != "";
    forall k | 0 <= k < |t.db.ledger| ensures HasRow(t.db, k) || LogHeld(t, k) {
      if k < |s.db.ledger| {
        assert t.db.ledger[k] == s.db.ledger[k] && (HasRow(s.db, k) || LogHeld(s, k));
        if LogHeld(s, k) {
          HeldStays(s, t, c, k);
        }
      } else {
        assert c in t.flights && WillLog(t.flights[c], k);
      }
    }
  }

  /** After a log write, written or dropped, the event has a row. */
  lemma LoggedHasRow(db: Db, row: LogRow)
    requires forall i | 0 <= i < |db.log| :: RowShape(db.ledger, db.log[i])
    requires RowShape(db.ledger, row)
    ensures FindRow(LogOnce(db.log, row), row.source).Some?
    ensures FindRow(db.log, row.source).None? ==> LogOnce(db.log, row) == db.log + [row]
  {
    FindRowOfAppend(db.log, row, row.source);
    if row.entry.Some? && EntryLogged(db.log, row.entry.value) {
      var i :| 0 <= i < |db.log| && db.log[i].entry == Some(row.entry.value);
      RewardKeyInjective(db.log[i].source, row.source);
    }
  }

  lemma LogKeepsRows(log: Log, row: LogRow, source: string)
    requires FindRow(log, source).Some?
    ensures FindRow(LogOnce(log, row), source).Some?
  {
    FindRowOfAppend(log, row, source);
  }

  lemma LoggingSettles(rules: Rules, s: State, c: nat, now: int)
    requires Settling(s) && c in s.flights && s.flights[c].Logging?
    ensures Settling(Step(rules, s, Next(c, now)))
  {
    var t := Step(rules, s, Next(c, now));
    var row := s.flights[c].row.(createdAt := now);
    LoggedHasRow(s.db, row);
    forall k | 0 <= k < |t.db.ledger| ensures HasRow(t.db, k) || LogHeld(t, k) {
      if HasRow(s.db, k) {
        if IsReward(s.db.ledger[k]) {
          LogKeepsRows(s.db.log, row, SourceOf(s.db.ledger[k]));
        }
      } else if WillLog(s.flights[c], k) {
        SourceOfKey(s.db.ledger[k], row.source);
      } else {
        HeldStays(s, t, c, k);
      }
    }
  }

  lemma OtherSettles(rules: Rules, s: State, user: nat, amount: int, source: Option<string>)
    requires Settling(s)
    ensures Settling(Step(rules, s, Other(user, amount, source)))
  {
    var t := Step(rules, s, Other(user, amount, source));
    forall k | 0 <= k < |t.db.ledger| ensures HasRow(t.db, k) || LogHeld(t, k) {
      if k < |s.db.ledger| && LogHeld(s, k) {
        var c :| c in s.flights && WillLog(s.flights[c], k);
        assert c in t.flights && WillLog(t.flights[c], k);
      }
    }
  }

  lemma StepSettles(rules: Rules, s: State, h: Happening)
    requires Settling(s) && !h.Crash?
    ensures Settling(Step(rules, s, h))
  {
    match h
    case Begin(c, e) =>
      if Step(rules, s, h).flights != s.flights {
        QuietStepSettles(s, Step(rules, s, h), c);
      }
    case Next(c, now) =>
      if c in s.flights {
        if s.flights[c].Crediting? {
          CreditingSettles(rules, s, c, now);
        } else if s.flights[c].Logging? {
          LoggingSettles(rules, s, c, now);
        } else {
          QuietStepSettles(s, Step(rules, s, h), c);
        }
      }
    case Other(user, amount, source) => OtherSettles(rules, s, user, amount, source);
  }

  lemma {:induction false} RunSettles(rules: Rules, s: State, hs: seq<Happening>)
    requires Settling(s) && NoCrash(hs)
    ensures Settling(Run(rules, s, hs))
    decreases hs
  {
    if hs != [] {
      StepSettles(rules, s, hs[0]);
      RunSettles(rules, Step(rules, s, hs[0]), hs[1..]);
    }
  }

  /** No event was credited by one call and denied by another, or reported for two users. */
  ghost predicate NoConflict(db: Db) {
    forall i, k | 0 <= i < |db.log| && 0 <= k < |db.ledger| && Pair(db, i, k) ::
      !db.log[i].denied && db.log[i].user == db.ledger[k].user
  }

  lemma PairsRecordIffNoConflict(db: Db)
    requires UniqueSources(db) && forall i | 0 <= i < |db.log| :: RowShape(db.ledger, db.log[i])
    ensures PairsRecord(db) <==> NoConflict(db)
  {
    forall i, k | 0 <= i < |db.log| && 0 <= k < |db.ledger| && Pair(db, i, k)
      ensures Records(db, i, k) <==> !db.log[i].denied && db.log[i].user == db.ledger[k].user
    {
      assert RowShape(db.ledger, db.log[i]);
    }
  }

  /**
   * However reports interleave without a crash: once all have returned, rows that were not denied
   * and reward entries are in bijection exactly when no event was both credited and denied, or
   * credited to another user than the one logged.
   */
  lemma InterleavedLogMatchesLedger(rules: Rules, hs: seq<Happening>)
    requires NoCrash(hs)
    ensures var end := Run(rules, START, hs);
            end.flights == map[] ==> (Matched(end.db) <==> NoConflict(end.db))
  {
    RunSettles(rules, START, hs);
    var end := Run(rules, START, hs);
    if end.flights == map[] {
      SettledMatches(end);
    }
  }

  lemma SettledMatches(s: State)
    requires Settling(s) && s.flights == map[]
    ensures Matched(s.db) <==> NoConflict(s.db)
  {
    var db := s.db;
    forall i | 0 <= i < |db.log|
      ensures if db.log[i].denied then db.log[i].entry == None
              else db.log[i].entry.Some? && db.log[i].entry.value < |db.ledger| && Pair(db, i, db.log[i].entry.value)
    {
      assert RowShape(db.ledger, db.log[i]);
    }
    forall k | 0 <= k < |db.ledger| && IsReward(db.ledger[k]) ensures FindRow(db.log, SourceOf(db.ledger[k])).Some? {
      assert HasRow(db, k);
    }
    PairsRecordIffNoConflict(db);
    MatchedIffSettled(db, map[], !PairsRecord(db));
  }

  /** Two calls report `a`, and `b` of the same user and kind is reported while the first is about to log. */
  function OverlapEvents(c: nat, d: nat, f: nat, a: Event, b: Event, now: int): seq<Happening> {
    var n, m := Next(c, now), Next(d, now);
    [Begin(c, a)] + ([n] + ([n] + ([n] + ([Begin(d, a)] + ([m] + ReportEvents(f, b, now, [m] + ([m] + ([n] + []))))))))
  }

  /** A limited report up to its counting step. */
  lemma CallCounts(rules: Rules, s: State, c: nat, e: Event, now: int, after: seq<Happening>)
    requires c !in s.flights && FindRow(s.db.log, e.source).None? && RuleApplies(rules, e.key) && rules[e.key].maxPerDay.Some?
    ensures Run(rules, s, [Begin(c, e)] + ([Next(c, now)] + after))
         == Run(rules, State(s.db, s.flights[c := Counting(e, rules[e.key])], s.reported + {e}), after)
  {
    var n := Next(c, now);
    var s1 := Step(rules, s, Begin(c, e));
    RunCons(rules, s, Begin(c, e), [n] + after);
    RunCons(rules, s1, n, after);
    assert s1.flights[c := Counting(e, rules[e.key])] == s.flights[c := Counting(e, rules[e.key])];
  }

  /** A limited report from its counting step up to its log write. */
  lemma CallCredits(rules: Rules, s: State, c: nat, e: Event, now: int, after: seq<Happening>)
    requires Passes(rules, s.db, e, now) && c in s.flights && s.flights[c] == Counting(e, rules[e.key])
    requires FindCredit(s.db.ledger, RewardKey(e.source)).None?
    ensures var db := s.db.(ledger := s.db.ledger + [Credit(e.user, rules[e.key].amount, Some(RewardKey(e.source)))]);
            Run(rules, s, [Next(c, now)] + ([Next(c, now)] + after))
            == Run(rules, s.(db := db, flights := s.flights[c := Logging(CreditedRow(e, |s.db.ledger|, now))]), after)
  {
    var n := Next(c, now);
    var s1 := s.(flights := s.flights[c := Crediting(e, rules[e.key])]);
    RunCons(rules, s, n, [n] + after);
    RunCons(rules, s1, n, after);
    assert Step(rules, s, n) == s1;
    CreditStep(rules, s1, c, e, now);
    assert s1.flights[c := Logging(CreditedRow(e, |s.db.ledger|, now))] == s.flights[c := Logging(CreditedRow(e, |s.db.ledger|, now))];
  }

  lemma CreditStep(rules: Rules, s: State, c: nat, e: Event, now: int)
    requires Passes(rules, s.db, e, now) && c in s.flights && s.flights[c] == Crediting(e, rules[e.key])
    requires FindCredit(s.db.ledger, RewardKey(e.source)).None?
    ensures Step(rules, s, Next(c, now))
         == s.(db := s.db.(ledger := s.db.ledger + [Credit(e.user, rules[e.key].amount, Some(RewardKey(e.source)))]),
               flights := s.flights[c := Logging(CreditedRow(e, |s.db.ledger|, now))])
  {
  }

  lemma OverlapBefore(rules: Rules, c: nat, d: nat, a: Event, now: int, after: seq<Happening>)
    requires Passes(rules, START.db, a, now) && rules[a.key].maxPerDay.Some? && c != d
    ensures var n, m := Next(c, now), Next(d, now);
            var credited := Db([Credit(a.user, rules[a.key].amount, Some(RewardKey(a.source)))], []);
            var held := map[c := Logging(CreditedRow(a, 0, now)), d := Counting(a, rules[a.key])];
            Run(rules, START, [Begin(c, a)] + ([n] + ([n] + ([n] + ([Begin(d, a)] + ([m] + after))))))
            == Run(rules, State(credited, held, {a}), after)
  {
    var n, m := Next(c, now), Next(d, now);
    var credit := Credit(a.user, rules[a.key].amount, Some(RewardKey(a.source)));
    var s2 := State(START.db, map[c := Counting(a, rules[a.key])], {a});
    var s4 := State(Db([credit], []), map[c := Logging(CreditedRow(a, 0, now))], {a});
    assert {} + {a} == {a} && {a} + {a} == {a} && [] + [credit] == [credit];
    CallCounts(rules, START, c, a, now, [n] + ([n] + ([Begin(d, a)] + ([m] + after))));
    assert START.flights[c := Counting(a, rules[a.key])] == s2.flights;
    CallCredits(rules, s2, c, a, now, [Begin(d, a)] + ([m] + after));
    assert s2.flights[c := Logging(CreditedRow(a, 0, now))] == s4.flights;
    CallCounts(rules, s4, d, a, now, after);
  }

  /** With a limit of one a day the second call is denied and logs first: `a` is credited and denied, without any crash. */
  lemma OverlapDeniesCredited(rules: Rules, c: nat, d: nat, f: nat, a: Event, b: Event, now: int)
    requires RuleApplies(rules, a.key) && rules[a.key].maxPerDay == Some(1) && rules[a.key].amount != 0
    requires a.user == b.user && a.key == b.key && a.source != b.source && c != d && c != f && d != f
    ensures var end := Run(rules, START, OverlapEvents(c, d, f, a, b, now));
            && end.flights == map[]
            && end.db == Db([Credit(a.user, rules[a.key].amount, Some(RewardKey(a.source))),
                             Credit(b.user, rules[b.key].amount, Some(RewardKey(b.source)))],
                            [CreditedRow(b, 1, now), DeniedRow(a, now)])
            && !NoConflict(end.db)
  {
    var n, m := Next(c, now), Next(d, now);
    var ca := Credit(a.user, rules[a.key].amount, Some(RewardKey(a.source)));
    var cb := Credit(b.user, rules[b.key].amount, Some(RewardKey(b.source)));
    var last := [m] + ([m] + ([n] + []));
    var s2 := State(Db([ca], []), map[c := Logging(CreditedRow(a, 0, now)), d := Counting(a, rules[a.key])], {a});
    var s3 := State(Db([ca, cb], [CreditedRow(b, 1, now)]), s2.flights, {a} + {b});
    TwoCredits(rules, a, b, now);
    OverlapBefore(rules, c, d, a, now, ReportEvents(f, b, now, last));
    HandleRun(rules, s2, f, b, now, last);
    OverlapAfter(rules, s3, c, d, a, now);
    CreditedAndDenied([ca, cb], CreditedRow(b, 1, now), DeniedRow(a, now));
  }

  lemma CreditedAndDenied(ledger: Ledger, first: LogRow, denied: LogRow)
    requires |ledger| > 0 && ledger[0].source == Some(RewardKey(denied.source)) && denied.denied
    ensures [first] + [denied] == [first, denied] && !NoConflict(Db(ledger, [first, denied]))
  {
    assert Pair(Db(ledger, [first, denied]), 1, 0);
  }

  lemma OverlapAfter(rules: Rules, s: State, c: nat, d: nat, a: Event, now: int)
    requires RuleApplies(rules, a.key) && rules[a.key].maxPerDay == Some(1) && c != d
    requires s.flights == map[c := Logging(CreditedRow(a, 0, now)), d := Counting(a, rules[a.key])]
    requires |s.db.log| == 1 && CountsFor(s.db.log[0], a.user, a.key) && s.db.log[0].createdAt == now && s.db.log[0].source != a.source
    ensures var n, m := Next(c, now), Next(d, now);
            Run(rules, s, [m] + ([m] + ([n] + []))) == s.(db := s.db.(log := s.db.log + [DeniedRow(a, now)]), flights := map[])
  {
    var n, m := Next(c, now), Next(d, now);
    var held := Logging(CreditedRow(a, 0, now));
    var s1 := s.(flights := map[c := held, d := Logging(DeniedRow(a, now))]);
    var s2 := s.(db := s.db.(log := s.db.log + [DeniedRow(a, now)]), flights := map[c := held]);
    RunCons(rules, s, m, [m] + ([n] + []));
    RunCons(rules, s1, m, [n] + []);
    RunCons(rules, s2, n, []);
    assert s.db.log[..0] == [] && CountSince(s.db.log, a.user, a.key, now - DAY_MS) == 1;
    assert Step(rules, s, m) == s1;
    assert s1.flights - {d} == map[c := held];
    assert FindRow(s.db.log, a.source).None?;
    assert Step(rules, s1, m) == s2;
    FindRowOfAppend(s.db.log, DeniedRow(a, now), a.source);
    assert s2.flights - {c} == map[];
  }

  /** The event a call in flight is about. */
  function FlightSource(f: Flight): string {
    match f
    case ReadingRule(e) => e.source
    case Counting(e, _) => e.source
    case Crediting(e, _) => e.source
    case Logging(row) => row.source
  }

  /** No two calls in flight report the same event. */
  predicate Alone(flights: map<nat, Flight>) {
    forall c, d | c in flights && d in flights && c != d :: FlightSource(flights[c]) != FlightSource(flights[d])
  }

  predicate AloneThroughout(rules: Rules, s: State, hs: seq<Happening>)
    decreases hs
  {
    Alone(s.flights) && (hs != [] ==> AloneThroughout(rules, Step(rules, s, hs[0]), hs[1..]))
  }

  /** The event of a call has no row yet, and an entry only if the call is about to log it, for its user. */
  predicate Undecided(db: Db, f: Flight) {
    && FindRow(db.log, FlightSource(f)).None?
    && match FindCredit(db.ledger, RewardKey(FlightSource(f)))
       case None => true
       case Some(k) => f.Logging? && f.row.entry == Some(k) && !f.row.denied && db.ledger[k].user == f.row.user
  }

  ghost predicate Orderly(s: State) {
    Settling(s) && PairsRecord(s.db) && forall c | c in s.flights :: Undecided(s.db, s.flights[c])
  }

  /** A second call of an event whose entry a call is about to log would overlap that call. */
  lemma HeldOverlaps(s: State, c: nat, e: Event, k: nat)
    requires Settling(s) && c !in s.flights && LogHeld(s, k) && k < |s.db.ledger|
    requires s.db.ledger[k].source == Some(RewardKey(e.source))
    ensures !Alone(s.flights[c := ReadingRule(e)])
  {
    var more := s.flights[c := ReadingRule(e)];
    var d :| d in s.flights && WillLog(s.flights[d], k);
    assert RowShape(s.db.ledger, s.flights[d].row);
    RewardKeyInjective(s.flights[d].row.source, e.source);
    assert d in more && c in more && c != d && FlightSource(more[c]) == FlightSource(more[d]);
  }

  lemma AloneBegins(rules: Rules, s: State, c: nat, e: Event)
    requires Orderly(s) && Alone(Step(rules, s, Begin(c, e)).flights)
    ensures Orderly(Step(rules, s, Begin(c, e)))
  {
    var t := Step(rules, s, Begin(c, e));
    StepSettles(rules, s, Begin(c, e));
    if t.flights != s.flights {
      var k := FindCredit(s.db.ledger, RewardKey(e.source));
      if k.Some? {
        SourceOfKey(s.db.ledger[k.value], e.source);
        EntryIsHeld(s, k.value, e.source);
        HeldOverlaps(s, c, e, k.value);
      }
    }
  }

  lemma EntryIsHeld(s: State, k: nat, source: string)
    requires Settling(s) && k < |s.db.ledger| && IsReward(s.db.ledger[k]) && SourceOf(s.db.ledger[k]) == source
    requires FindRow(s.db.log, source).None?
    ensures LogHeld(s, k)
  {
    assert HasRow(s.db, k) || LogHeld(s, k);
  }

  lemma OthersStayUndecided(s: State, t: State, c: nat, d: nat)
    requires Alone(s.flights) && c in s.flights && d in s.flights && d != c && Undecided(s.db, s.flights[d])
    requires t.db.ledger == s.db.ledger || (|t.db.ledger| == |s.db.ledger| + 1 && s.db.ledger == t.db.ledger[..|s.db.ledger|]
             && t.db.ledger[|s.db.ledger|].source == Some(RewardKey(FlightSource(s.flights[c]))))
    requires t.db.log == s.db.log || (|t.db.log| == |s.db.log| + 1 && s.db.log == t.db.log[..|s.db.log|]
             && t.db.log[|s.db.log|].source == FlightSource(s.flights[c]))
    ensures Undecided(t.db, s.flights[d])
  {
    RewardKeyInjective(FlightSource(s.flights[c]), FlightSource(s.flights[d]));
  }

  lemma AloneCredits(rules: Rules, s: State, c: nat, now: int)
    requires Orderly(s) && Alone(s.flights) && c in s.flights && s.flights[c].Crediting?
    ensures Orderly(Step(rules, s, Next(c, now)))
  {
    var t, e, amount := Step(rules, s, Next(c, now)), s.flights[c].e, s.flights[c].rule.amount;
    CreditingSettles(rules, s, c, now);
    assert Undecided(s.db, s.flights[c]);
    if amount != 0 {
      var credit := Credit(e.user, amount, Some(RewardKey(e.source)));
      forall i | 0 <= i < |s.db.log| ensures credit.source != Some(RewardKey(s.db.log[i].source)) {
        RewardKeyInjective(s.db.log[i].source, e.source);
      }
      AppendedPairs(s.db, credit);
      FindCreditOfAppend(s.db.ledger, credit, RewardKey(e.source));
      assert t.db.ledger == s.db.ledger + [credit];
    }
    forall d | d in t.flights ensures Undecided(t.db, t.flights[d]) {
      if d != c {
        OthersStayUndecided(s, t, c, d);
      }
    }
  }

  lemma AloneLogs(rules: Rules, s: State, c: nat, now: int)
    requires Orderly(s) && Alone(s.flights) && c in s.flights && s.flights[c].Logging?
    ensures Orderly(Step(rules, s, Next(c, now)))
  {
    var t, row := Step(rules, s, Next(c, now)), s.flights[c].row.(createdAt := now);
    LoggingSettles(rules, s, c, now);
    assert Undecided(s.db, s.flights[c]);
    LoggedHasRow(s.db, row);
    AppendedRowPairs(s.db, row);
    assert t.db == s.db.(log := s.db.log + [row]);
    RecordOfLogged(s.db, row);
    forall d | d in t.flights ensures Undecided(t.db, t.flights[d]) {
      OthersStayUndecided(s, t, c, d);
    }
  }

  /** The new row of an undecided event records whatever entry it has. */
  lemma RecordOfLogged(db: Db, row: LogRow)
    requires UniqueSources(db) && Undecided(db, Logging(row))
    ensures forall k | 0 <= k < |db.ledger| && db.ledger[k].source == Some(RewardKey(row.source)) ::
              Records(db.(log := db.log + [row]), |db.log|, k)
  {
    var after := db.(log := db.log + [row]);
    assert after.log[|db.log|] == row;
    forall k | 0 <= k < |db.ledger| && db.ledger[k].source == Some(RewardKey(row.source)) ensures Records(after, |db.log|, k) {
      assert FindCredit(db.ledger, RewardKey(row.source)) == Some(k);
    }
  }

  lemma AloneOther(rules: Rules, s: State, user: nat, amount: int, source: Option<string>)
    requires Orderly(s)
    ensures Orderly(Step(rules, s, Other(user, amount, source)))
  {
    var t := Step(rules, s, Other(user, amount, source));
    OtherSettles(rules, s, user, amount, source);
    if t.db != s.db {
      var c := Credit(user, amount, source);
      forall i | 0 <= i < |s.db.log| ensures c.source != Some(RewardKey(s.db.log[i].source)) {
        assert IsRewardKey(RewardKey(s.db.log[i].source));
      }
      AppendedPairs(s.db, c);
      forall d | d in t.flights ensures Undecided(t.db, t.flights[d]) {
        assert Undecided(s.db, s.flights[d]) && IsRewardKey(RewardKey(FlightSource(s.flights[d])));
        FindCreditOfAppend(s.db.ledger, c, RewardKey(FlightSource(s.flights[d])));
      }
    }
  }

  lemma AloneReads(rules: Rules, s: State, c: nat, now: int)
    requires Orderly(s) && c in s.flights && !s.flights[c].Crediting? && !s.flights[c].Logging?
    ensures Orderly(Step(rules, s, Next(c, now)))
  {
    assert Undecided(s.db, s.flights[c]);
    StepSettles(rules, s, Next(c, now));
  }

  lemma AloneStep(rules: Rules, s: State, h: Happening)
    requires Orderly(s) && Alone(s.flights) && Alone(Step(rules, s, h).flights) && !h.Crash?
    ensures Orderly(Step(rules, s, h))
  {
    match h
    case Begin(c, e) => AloneBegins(rules, s, c, e);
    case Next(c, now) =>
      if c in s.flights {
        if s.flights[c].Crediting? {
          AloneCredits(rules, s, c, now);
        } else if s.flights[c].Logging? {
          AloneLogs(rules, s, c, now);
        } else {
          AloneReads(rules, s, c, now);
        }
      }
    case Other(user, amount, source) => AloneOther(rules, s, user, amount, source);
  }

  lemma {:induction false} AloneRun(rules: Rules, s: State, hs: seq<Happening>)
    requires Orderly(s) && AloneThroughout(rules, s, hs) && NoCrash(hs)
    ensures Orderly(Run(rules, s, hs))
    decreases hs
  {
    if hs != [] {
      AloneStep(rules, s, hs[0]);
      AloneRun(rules, Step(rules, s, hs[0]), hs[1..]);
    }
  }

  /** Without crashes, and as long as reports of one event do not overlap, the bijection survives any interleaving. */
  lemma AloneKeepsBijection(rules: Rules, hs: seq<Happening>)
    requires NoCrash(hs) && AloneThroughout(rules, START, hs)
    ensures var end := Run(rules, START, hs);
            end.flights == map[] ==> Matched(end.db) && NoConflict(end.db)
  {
    AloneRun(rules, START, hs);
    var end := Run(rules, START, hs);
    if end.flights == map[] {
      SettledMatches(end);
      PairsRecordIffNoConflict(end.db);
    }
  }
}
