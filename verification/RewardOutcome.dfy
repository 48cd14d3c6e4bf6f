/**
 * What a report is answered, in terms of the fields of the tables alone, and that the calls made
 * for other users have no say in it.
 */
module RewardOutcome {
  import opened Wrappers
  import opened SlidingWindow
  import opened RewardEngine

  // ---------------------------------------------------------------- the answer, field by field

  predicate Hit(row: LogRow, user: nat, key: string, from: int, to: Option<int>) {
    row.user == user && row.key == key && !row.denied && from <= row.createdAt && (to.Some? ==> row.createdAt <= to.value)
  }

  /** The rows counted, as a set of positions. */
  ghost function Hits(log: Log, user: nat, key: string, from: int, to: Option<int>): set<nat> {
    set i: nat | i < |log| && Hit(log[i], user, key, from, to)
  }

  lemma HitsOfAppend(log: Log, row: LogRow, user: nat, key: string, from: int, to: Option<int>)
    ensures Hits(log + [row], user, key, from, to)
         == Hits(log, user, key, from, to) + if Hit(row, user, key, from, to) then {|log|} else {}
  {
    assert forall i: nat | i < |log| :: (log + [row])[i] == log[i];
  }

  lemma {:induction false} CountsAreHits(log: Log, user: nat, key: string, from: int, to: int)
    ensures CountSince(log, user, key, from) == |Hits(log, user, key, from, None)|
    ensures CountBetween(log, user, key, from, to) == |Hits(log, user, key, from, Some(to))|
  {
    if log != [] {
      var before, last := log[..|log| - 1], log[|log| - 1];
      CountsAreHits(before, user, key, from, to);
      assert log == before + [last];
      HitsOfAppend(before, last, user, key, from, None);
      HitsOfAppend(before, last, user, key, from, Some(to));
    }
  }

  /** The count behind the daily limit is the number of rows of this user and key that were not denied and are recent. */
  lemma CountIsCardinality(log: Log, user: nat, key: string, from: int)
    ensures CountSince(log, user, key, from)
         == |set i: nat | i < |log| && log[i].user == user && log[i].key == key && !log[i].denied && from <= log[i].createdAt|
  {
    CountsAreHits(log, user, key, from, from);
    assert (set i: nat | i < |log| && log[i].user == user && log[i].key == key && !log[i].denied && from <= log[i].createdAt)
        == Hits(log, user, key, from, None);
  }

  /** The same for a closed window. */
  lemma WindowIsCardinality(log: Log, user: nat, key: string, from: int, to: int)
    ensures CountBetween(log, user, key, from, to)
         == |set i: nat | i < |log| && log[i].user == user && log[i].key == key && !log[i].denied && from <= log[i].createdAt <= to|
  {
    CountsAreHits(log, user, key, from, to);
    assert (set i: nat | i < |log| && log[i].user == user && log[i].key == key && !log[i].denied && from <= log[i].createdAt <= to)
        == Hits(log, user, key, from, Some(to));
  }

  /** What a report does to the tables a run of whole calls leaves, in the terms of `Passes` and `Decides`. */
  lemma ReportCases(rules: Rules, db: Db, e: Event, now: int)
    requires Inv(rules, db) && FindRow(db.log, e.source).None?
    ensures var (after, outcome) := Handle(rules, db, e, now);
            if Passes(rules, db, e, now) then
              && outcome == Credited(rules[e.key].amount, |db.ledger|)
              && after == Db(db.ledger + [Credit(e.user, rules[e.key].amount, Some(RewardKey(e.source)))],
                             db.log + [CreditedRow(e, |db.ledger|, now)])
            else if Decides(rules, db, e, now) then outcome == Denied && after == db.(log := db.log + [DeniedRow(e, now)])
            else outcome == Failed && after == db
  {
    NoEntryYet(db, e.source);
    assert forall i | 0 <= i < |db.log| && !db.log[i].denied :: Records(db, i, db.log[i].entry.value);
    HandleCases(rules, db, e, now);
  }

  /**
   * The answer to an event that has no row, after any run: denied exactly when its rule is missing
   * or disabled or its user has had the rule's number of such events within the last 24 hours;
   * failed when the rule pays nothing; credited otherwise, once in each table.
   */
  lemma OutcomeExactly(rules: Rules, calls: seq<Call>, e: Event, now: int)
    requires forall i | 0 <= i < |Serial(rules, calls).log| :: Serial(rules, calls).log[i].source != e.source
    ensures var db := Serial(rules, calls);
            var (after, outcome) := Handle(rules, db, e, now);
            var recent := set i: nat | i < |db.log| && db.log[i].user == e.user && db.log[i].key == e.key
                                       && !db.log[i].denied && now - 86_400_000 <= db.log[i].createdAt;
            if e.key !in rules || !rules[e.key].enabled
               || (rules[e.key].maxPerDay.Some? && |recent| >= rules[e.key].maxPerDay.value) then
              && outcome == Denied && after.ledger == db.ledger
              && after.log == db.log + [LogRow(e.key, e.user, e.source, true, None, now)]
            else if rules[e.key].amount == 0 then outcome == Failed && after == db
            else
              && outcome == Credited(rules[e.key].amount, |db.ledger|)
              && after.ledger == db.ledger + [Credit(e.user, rules[e.key].amount, Some("economy-event:" + e.source))]
              && after.log == db.log + [LogRow(e.key, e.user, e.source, false, Some(|db.ledger|), now)]
  {
    var db := Serial(rules, calls);
    SerialKeepsInv(rules, calls);
    ReportCases(rules, db, e, now);
    CountIsCardinality(db.log, e.user, e.key, now - 86_400_000);
  }

  /** In no 24 hours, wherever they start, does the log hold more credited events of a user and kind than the rule allows. */
  lemma CreditedRowsPerDay(rules: Rules, calls: seq<Call>, user: nat, key: string, from: int)
    requires key in rules && rules[key].maxPerDay.Some? && InOrder(calls)
    ensures var log := Serial(rules, calls).log;
            var credited := set i: nat | i < |log| && log[i].user == user && log[i].key == key && !log[i].denied
                                         && from <= log[i].createdAt <= from + 86_400_000;
            |credited| <= if rules[key].maxPerDay.value < 0 then 0 else rules[key].maxPerDay.value
  {
    DailyLimitHolds(rules, calls, user, key, from);
    WindowIsCardinality(Serial(rules, calls).log, user, key, from, from + 86_400_000);
  }

  /** A credit of nothing is refused, one whose source has an entry finds it, unless the source is empty, and any other is appended. */
  lemma CreditExactly(ledger: Ledger, user: nat, amount: int, source: Option<string>)
    ensures var (after, entry) := CreditOnce(ledger, user, amount, source);
            if amount == 0 then after == ledger && entry == None
            else if source.Some? && exists k | 0 <= k < |ledger| :: ledger[k].source == source then
              && after == ledger
              && (if source.value == "" then entry == None else entry.Some? && entry.value < |ledger| && ledger[entry.value].source == source)
            else after == ledger + [Credit(user, amount, source)] && entry == Some(|ledger|)
  {
  }

  /** A credit made elsewhere goes through that, under a key of its own. */
  lemma OtherCreditExactly(rules: Rules, db: Db, user: nat, amount: int, source: Option<string>)
    ensures Perform(rules, db, OtherCredit(user, amount, source))
         == if source.Some? && "economy-event:" <= source.value then db
            else Db(CreditOnce(db.ledger, user, amount, source).0, db.log)
  {
  }

  // ---------------------------------------------------------------- other users

  function UserOf(call: Call): nat {
    match call
    case Report(e, _) => e.user
    case OtherCredit(user, _, _) => user
  }

  /** The calls made for one user, in order. */
  function Own(calls: seq<Call>, user: nat): seq<Call> {
    if calls == [] then []
    else
      var last := calls[|calls| - 1];
      Own(calls[..|calls| - 1], user) + if UserOf(last) == user then [last] else []
  }

  /** Nobody else reports an event with a source of this user's. */
  predicate Apart(calls: seq<Call>, user: nat) {
    forall i, j | 0 <= i < |calls| && 0 <= j < |calls| && calls[i].Report? && calls[j].Report?
                  && calls[i].event.user == user && calls[j].event.user != user ::
      calls[i].event.source != calls[j].event.source
  }

  /** The user's rows, without the positions of their ledger entries. */
  function RowsOf(log: Log, user: nat): Log {
    if log == [] then []
    else
      var last := log[|log| - 1];
      RowsOf(log[..|log| - 1], user) + if last.user == user then [last.(entry := None)] else []
  }

  lemma RowsOfAppend(log: Log, row: LogRow, user: nat)
    ensures RowsOf(log + [row], user) == RowsOf(log, user) + if row.user == user then [row.(entry := None)] else []
  {
    assert (log + [row])[..|log|] == log;
  }

  lemma SerialOfAppend(rules: Rules, calls: seq<Call>, call: Call)
    ensures Serial(rules, calls + [call]) == Perform(rules, Serial(rules, calls), call)
  {
    assert (calls + [call])[..|calls|] == calls;
  }

  lemma {:induction false} CountOfRows(log: Log, user: nat, key: string, from: int)
    ensures CountSince(RowsOf(log, user), user, key, from) == CountSince(log, user, key, from)
  {
    if log != [] {
      var before, last := log[..|log| - 1], log[|log| - 1];
      CountOfRows(before, user, key, from);
      if last.user == user {
        var rows := RowsOf(before, user);
        assert (rows + [last.(entry := None)])[..|rows|] == rows;
      } else {
        assert RowsOf(log, user) == RowsOf(before, user);
      }
    }
  }

  predicate SourceIn(log: Log, user: nat, source: string) {
    exists i | 0 <= i < |log| :: log[i].user == user && log[i].source == source
  }

  lemma {:induction false} SourceOfRows(log: Log, user: nat, source: string)
    ensures SourceIn(RowsOf(log, user), user, source) <==> SourceIn(log, user, source)
  {
    if log != [] {
      var before, last := log[..|log| - 1], log[|log| - 1];
      SourceOfRows(before, user, source);
      assert log == before + [last];
      SourceOfAppend(before, last, user, source);
      if last.user == user {
        SourceOfAppend(RowsOf(before, user), last.(entry := None), user, source);
      } else {
        assert RowsOf(log, user) == RowsOf(before, user);
      }
    }
  }

  lemma SourceOfAppend(log: Log, row: LogRow, user: nat, source: string)
    ensures SourceIn(log + [row], user, source) <==> SourceIn(log, user, source) || (row.user == user && row.source == source)
  {
    if SourceIn(log, user, source) {
      var i :| 0 <= i < |log| && log[i].user == user && log[i].source == source;
      assert (log + [row])[i] == log[i];
    }
    assert (log + [row])[|log|] == row;
  }

  /** A call adds no row but one of its own event. */
  lemma PerformAddsOwnRow(rules: Rules, db: Db, call: Call)
    ensures var after := Perform(rules, db, call);
            after.log == db.log
            || (call.Report? && |after.log| == |db.log| + 1 && after.log == db.log + [after.log[|db.log|]]
                && after.log[|db.log|].user == call.event.user && after.log[|db.log|].source == call.event.source)
  {
  }

  lemma {:induction false} RowsWereReported(rules: Rules, calls: seq<Call>, i: nat) returns (n: nat)
    requires i < |Serial(rules, calls).log|
    ensures n < |calls| && calls[n].Report? && calls[n].event.user == Serial(rules, calls).log[i].user
    ensures calls[n].event.source == Serial(rules, calls).log[i].source
  {
    var before := calls[..|calls| - 1];
    PerformAddsOwnRow(rules, Serial(rules, before), calls[|calls| - 1]);
    if i < |Serial(rules, before).log| {
      n := RowsWereReported(rules, before, i);
    } else {
      n := |calls| - 1;
    }
  }

  lemma {:induction false} OwnIsOwn(calls: seq<Call>, user: nat)
    ensures forall i | 0 <= i < |Own(calls, user)| :: UserOf(Own(calls, user)[i]) == user
  {
    if calls != [] {
      OwnIsOwn(calls[..|calls| - 1], user);
    }
  }

  /** If all rows with the event's source are its own user's, it is known exactly when the user's rows have it. */
  lemma KnownToOwner(log: Log, e: Event)
    requires forall i | 0 <= i < |log| && log[i].source == e.source :: log[i].user == e.user
    ensures FindRow(log, e.source).Some? <==> SourceIn(RowsOf(log, e.user), e.user, e.source)
  {
    SourceOfRows(log, e.user, e.source);
  }

  /** The two answers are the same but for the positions they name. */
  predicate SameAnswer(a: Outcome, b: Outcome) {
    match a
    case Credited(amount, _) => b.Credited? && b.amount == amount
    case Denied => b.Denied?
    case AlreadyProcessed(_) => b.AlreadyProcessed?
    case Failed => b.Failed?
  }

  /** Two logs with the same rows of the user give the same answer and grow by the same row. */
  lemma SameRowsSameAnswer(rules: Rules, a: Db, b: Db, e: Event, now: int)
    requires Inv(rules, a) && Inv(rules, b) && RowsOf(a.log, e.user) == RowsOf(b.log, e.user)
    requires forall i | 0 <= i < |a.log| && a.log[i].source == e.source :: a.log[i].user == e.user
    requires forall i | 0 <= i < |b.log| && b.log[i].source == e.source :: b.log[i].user == e.user
    ensures SameAnswer(Handle(rules, a, e, now).1, Handle(rules, b, e, now).1)
    ensures RowsOf(Handle(rules, a, e, now).0.log, e.user) == RowsOf(Handle(rules, b, e, now).0.log, e.user)
  {
    KnownToOwner(a.log, e);
    KnownToOwner(b.log, e);
    if FindRow(a.log, e.source).None? {
      ReportCases(rules, a, e, now);
      ReportCases(rules, b, e, now);
      CountOfRows(a.log, e.user, e.key, now - DAY_MS);
      CountOfRows(b.log, e.user, e.key, now - DAY_MS);
      RowsOfAppend(a.log, DeniedRow(e, now), e.user);
      RowsOfAppend(b.log, DeniedRow(e, now), e.user);
      RowsOfAppend(a.log, CreditedRow(e, |a.ledger|, now), e.user);
      RowsOfAppend(b.log, CreditedRow(e, |b.ledger|, now), e.user);
    }
  }

  /** After a run, every row with a source of the user's is the user's own. */
  lemma SourcesAreOwn(rules: Rules, calls: seq<Call>, e: Event)
    requires forall j | 0 <= j < |calls| && calls[j].Report? && calls[j].event.source == e.source :: calls[j].event.user == e.user
    ensures forall i | 0 <= i < |Serial(rules, calls).log| && Serial(rules, calls).log[i].source == e.source ::
              Serial(rules, calls).log[i].user == e.user
  {
    forall i | 0 <= i < |Serial(rules, calls).log| && Serial(rules, calls).log[i].source == e.source
      ensures Serial(rules, calls).log[i].user == e.user
    {
      var n := RowsWereReported(rules, calls, i);
    }
  }

  lemma OwnSourcesAreOwn(rules: Rules, calls: seq<Call>, e: Event)
    ensures forall i | 0 <= i < |Serial(rules, Own(calls, e.user)).log| :: Serial(rules, Own(calls, e.user)).log[i].user == e.user
  {
    OwnIsOwn(calls, e.user);
    forall i | 0 <= i < |Serial(rules, Own(calls, e.user)).log| ensures Serial(rules, Own(calls, e.user)).log[i].user == e.user {
      var n := RowsWereReported(rules, Own(calls, e.user), i);
    }
  }

  lemma {:induction false} OthersAddNothing(rules: Rules, calls: seq<Call>, user: nat)
    requires Apart(calls, user)
    ensures RowsOf(Serial(rules, calls).log, user) == RowsOf(Serial(rules, Own(calls, user)).log, user)
  {
    if calls != [] {
      var before, last := calls[..|calls| - 1], calls[|calls| - 1];
      var full, own := Serial(rules, before), Serial(rules, Own(before, user));
      OthersAddNothing(rules, before, user);
      PerformAddsOwnRow(rules, full, last);
      if UserOf(last) == user {
        SerialOfAppend(rules, Own(before, user), last);
        if last.Report? {
          SerialKeepsInv(rules, before);
          SerialKeepsInv(rules, Own(before, user));
          SourcesAreOwn(rules, before, last.event);
          OwnSourcesAreOwn(rules, before, last.event);
          SameRowsSameAnswer(rules, full, own, last.event, last.now);
        }
      } else {
        assert Own(calls, user) == Own(before, user);
        var after := Serial(rules, calls);
        if after.log != full.log {
          RowsOfAppend(full.log, after.log[|full.log|], user);
        }
      }
    }
  }

  /**
   * Drop every call made for other users from a run: each report of this user is answered the same,
   * as long as no two users report the same source.
   */
  lemma OthersDoNotMatter(rules: Rules, calls: seq<Call>, n: nat)
    requires n < |calls| && calls[n].Report? && Apart(calls, calls[n].event.user)
    ensures var Report(e, now) := calls[n];
            SameAnswer(Handle(rules, Serial(rules, calls[..n]), e, now).1,
                       Handle(rules, Serial(rules, Own(calls[..n], e.user)), e, now).1)
  {
    var Report(e, now) := calls[n];
    var before := calls[..n];
    SerialKeepsInv(rules, before);
    SerialKeepsInv(rules, Own(before, e.user));
    OthersAddNothing(rules, before, e.user);
    SourcesAreOwn(rules, before, e);
    OwnSourcesAreOwn(rules, before, e);
    SameRowsSameAnswer(rules, Serial(rules, before), Serial(rules, Own(before, e.user)), e, now);
  }
}
