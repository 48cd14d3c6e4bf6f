/**
 * The ecosystem event log and its cursor-paged feed. Rows are in insertion order; the feed reads
 * them by creation time, then id. Ids are compared by the database, so a number stands for an id's
 * rank in that order.
 */
module EventFeed {
  import opened Wrappers
  import Rewards = RewardEngine

  datatype Event = Event(id: nat, createdAt: int, eventType: string, user: nat, source: string)

  datatype Page = Page(events: seq<Event>, next: Option<nat>)

  datatype Error = UnknownEventType | NoLastEvent

  type Table = seq<Event>

  const DEFAULT_PAGE := 100
  const MAX_PAGE := 500

  // ---------------------------------------------------------------- the order of the feed

  predicate Before(a: Event, b: Event) {
    a.createdAt < b.createdAt || (a.createdAt == b.createdAt && a.id < b.id)
  }

  predicate Ordered(rows: seq<Event>) {
    forall i, j | 0 <= i < j < |rows| :: Before(rows[i], rows[j])
  }

  predicate UniqueIds(table: Table) {
    forall i, j | 0 <= i < j < |table| :: table[i].id != table[j].id
  }

  predicate Matches(e: Event, filter: Option<string>) {
    filter.Some? ==> e.eventType == filter.value
  }

  function InsertRow(e: Event, rows: seq<Event>): (r: seq<Event>)
    ensures forall x :: x in r <==> x == e || x in rows
  {
    if rows == [] then [e]
    else if Before(e, rows[0]) then [e] + rows
    else [rows[0]] + InsertRow(e, rows[1..])
  }

  /** The `where` and `orderBy` of the query. */
  function Listing(table: Table, filter: Option<string>): (rows: seq<Event>)
    ensures forall x :: x in rows <==> x in table && Matches(x, filter)
  {
    if table == [] then []
    else
      var rows := Listing(table[..|table| - 1], filter);
      var e := table[|table| - 1];
      assert table == table[..|table| - 1] + [e];
      if Matches(e, filter) then InsertRow(e, rows) else rows
  }

  lemma {:induction false} InsertKeepsOrdered(e: Event, rows: seq<Event>)
    requires Ordered(rows) && forall i | 0 <= i < |rows| :: rows[i].id != e.id
    ensures Ordered(InsertRow(e, rows))
  {
    if rows != [] && !Before(e, rows[0]) {
      InsertKeepsOrdered(e, rows[1..]);
      var r := InsertRow(e, rows[1..]);
      forall j | 0 <= j < |r| ensures Before(rows[0], r[j]) {
        assert r[j] in r;
        if r[j] != e {
          var k :| 0 <= k < |rows[1..]| && rows[1..][k] == r[j];
          assert rows[k + 1] == r[j];
        }
      }
    }
  }

  lemma {:induction false} ListingIsOrdered(table: Table, filter: Option<string>)
    requires UniqueIds(table)
    ensures Ordered(Listing(table, filter))
  {
    if table != [] {
      var before, e := table[..|table| - 1], table[|table| - 1];
      ListingIsOrdered(before, filter);
      var rows := Listing(before, filter);
      forall i | 0 <= i < |rows| ensures rows[i].id != e.id {
        assert rows[i] in before;
        var k :| 0 <= k < |before| && before[k] == rows[i];
        assert table[k].id != e.id;
      }
      InsertKeepsOrdered(e, rows);
    }
  }

  /** A set of events has one ordered list. */
  lemma {:induction false} OrderedListUnique(xs: seq<Event>, ys: seq<Event>)
    requires Ordered(xs) && Ordered(ys) && forall x :: x in xs <==> x in ys
    ensures xs == ys
  {
    assert xs != [] ==> xs[0] in ys;
    assert ys != [] ==> ys[0] in xs;
    if xs != [] {
      forall x ensures x in xs[1..] <==> x in ys[1..] {
        TailElements(xs, x);
        TailElements(ys, x);
      }
      OrderedListUnique(xs[1..], ys[1..]);
      assert xs == [xs[0]] + xs[1..];
      assert ys == [ys[0]] + ys[1..];
    }
  }

  lemma TailElements(xs: seq<Event>, x: Event)
    requires Ordered(xs) && xs != []
    ensures x in xs[1..] <==> x in xs && x != xs[0]
  {
    assert xs == [xs[0]] + xs[1..];
    if x in xs[1..] {
      var k :| 0 <= k < |xs[1..]| && xs[1..][k] == x;
      assert Before(xs[0], xs[k + 1]);
    }
  }

  // ---------------------------------------------------------------- one page

  function FindEvent(table: Table, id: nat): (e: Option<Event>)
    ensures e.Some? ==> e.value in table && e.value.id == id
    ensures e.None? ==> forall x | x in table :: x.id != id
  {
    if table == [] then None
    else
      assert table == [table[0]] + table[1..];
      if table[0].id == id then Some(table[0]) else FindEvent(table[1..], id)
  }

  /** The rows at the cursor row's position or after it. */
  function AtOrAfter(rows: seq<Event>, mark: Event): seq<Event> {
    if rows == [] then [] else if Before(rows[0], mark) then AtOrAfter(rows[1..], mark) else rows
  }

  function Drop1(rows: seq<Event>): seq<Event> {
    if rows == [] then [] else rows[1..]
  }

  /** `cursor` and `skip: 1`; a cursor that names no row selects nothing. */
  function Window(table: Table, cursor: Option<nat>, filter: Option<string>): seq<Event> {
    match cursor
    case None => Listing(table, filter)
    case Some(id) =>
      var mark := FindEvent(table, id);
      if mark.None? then [] else Drop1(AtOrAfter(Listing(table, filter), mark.value))
  }

  function PageSize(take: Option<nat>): nat {
    var n := if take.Some? then take.value else DEFAULT_PAGE;
    if n < MAX_PAGE then n else MAX_PAGE
  }

  function Take(rows: seq<Event>, n: nat): seq<Event> {
    if |rows| <= n then rows else rows[..n]
  }

  /** A page of size zero is full, and reading its last event fails. */
  function ListSince(table: Table, cursor: Option<nat>, take: Option<nat>, filter: Option<string>): Result<Page, Error> {
    var events := Take(Window(table, cursor, filter), PageSize(take));
    if |events| != PageSize(take) then Ok(Page(events, None))
    else if events == [] then Err(NoLastEvent)
    else Ok(Page(events, Some(events[|events| - 1].id)))
  }

  // ---------------------------------------------------------------- reporting

  function FindSource(table: Table, source: string): (e: Option<Event>)
    ensures e.Some? ==> e.value in table && e.value.source == source
    ensures e.None? ==> forall x | x in table :: x.source != source
  {
    if table == [] then None
    else
      assert table == [table[0]] + table[1..];
      if table[0].source == source then Some(table[0]) else FindSource(table[1..], source)
  }

  predicate UniqueSources(table: Table) {
    forall i, j | 0 <= i < j < |table| :: table[i].source != table[j].source
  }

  const REWARD_PREFIX := "ecosystem-event:"

  /** What the reward engine is told about a new row: the same user and kind, under a source of its own. */
  function Forwarded(row: Event): Rewards.Event {
    Rewards.Event(row.eventType, row.user, REWARD_PREFIX + row.source)
  }

  /** The log and the reward tables after a report that is of a registered type. */
  function Reported(rules: Rewards.Rules, table: Table, rewards: Rewards.Db, row: Event, now: int): (Table, Rewards.Db) {
    if FindSource(table, row.source).Some? then (table, rewards)
    else (table + [row], Rewards.Handle(rules, rewards, Forwarded(row), now).0)
  }

  class EcosystemEventService {
    const catalog: set<string>
    const rules: Rewards.Rules
    var table: Table
    var rewards: Rewards.Db

    constructor (catalog: set<string>, rules: Rewards.Rules)
      ensures this.catalog == catalog && this.rules == rules && table == [] && rewards == Rewards.Db([], [])
    {
      this.catalog := catalog;
      this.rules := rules;
      table := [];
      rewards := Rewards.Db([], []);
    }

    /**
     * Logs an event once per source and forwards a new one to the reward engine, whose failure is
     * swallowed. `row` is the new row, with the id and time the database gives it.
     */
    method Report(row: Event, now: int) returns (r: Result<Event, Error>)
      modifies this`table, this`rewards
      ensures r.Err? <==> row.eventType !in catalog
      ensures r.Err? ==> table == old(table) && rewards == old(rewards) && r.error == UnknownEventType
      ensures r.Ok? ==> (table, rewards) == Reported(rules, old(table), old(rewards), row, now)
      ensures r.Ok? ==> r.value in table && r.value.source == row.source
      ensures r.Ok? && FindSource(old(table), row.source).None? ==> r.value == row
    {
      if row.eventType !in catalog {
        return Err(UnknownEventType);
      }
      var original := FindSource(table, row.source);
      if original.Some? {
        return Ok(original.value);
      }
      table := table + [row];
      var (credited, _) := Rewards.Handle(rules, rewards, Forwarded(row), now);
      rewards := credited;
      r := Ok(row);
    }
  }

  /** The tables after a run of reports of registered types, each at its own time. */
  function Reports(rules: Rewards.Rules, rows: seq<(Event, int)>): (Table, Rewards.Db) {
    if rows == [] then ([], Rewards.Db([], []))
    else
      var (table, rewards) := Reports(rules, rows[..|rows| - 1]);
      Reported(rules, table, rewards, rows[|rows| - 1].0, rows[|rows| - 1].1)
  }

  /** What the reward engine was told over the run, in order. */
  function Told(rules: Rewards.Rules, rows: seq<(Event, int)>): seq<Rewards.Call> {
    if rows == [] then []
    else
      var (row, now) := rows[|rows| - 1];
      Told(rules, rows[..|rows| - 1])
      + if FindSource(Reports(rules, rows[..|rows| - 1]).0, row.source).Some? then [] else [Rewards.Report(Forwarded(row), now)]
  }

  /** Call `k` told the reward engine about row `k`. */
  predicate TellsRows(table: Table, told: seq<Rewards.Call>) {
    |told| == |table| && forall k | 0 <= k < |told| :: told[k].Report? && told[k].event == Forwarded(table[k])
  }

  lemma NewSource(table: Table, row: Event)
    requires UniqueSources(table) && FindSource(table, row.source).None?
    ensures UniqueSources(table + [row])
  {
    assert forall i | 0 <= i < |table| :: table[i] in table;
  }

  lemma RunTold(rules: Rewards.Rules, calls: seq<Rewards.Call>, row: Event, now: int)
    ensures Rewards.Serial(rules, calls + [Rewards.Report(Forwarded(row), now)])
         == Rewards.Handle(rules, Rewards.Serial(rules, calls), Forwarded(row), now).0
  {
    var more := calls + [Rewards.Report(Forwarded(row), now)];
    assert more[..|calls|] == calls;
  }

  /** Over every run of reports: one row per source, and one call of the reward engine for each row, so its own guarantees apply. */
  lemma {:induction false} ReportedOnce(rules: Rewards.Rules, rows: seq<(Event, int)>)
    ensures UniqueSources(Reports(rules, rows).0) && TellsRows(Reports(rules, rows).0, Told(rules, rows))
    ensures Reports(rules, rows).1 == Rewards.Serial(rules, Told(rules, rows))
  {
    if rows != [] {
      var before := rows[..|rows| - 1];
      var (row, now) := rows[|rows| - 1];
      var table := Reports(rules, before).0;
      ReportedOnce(rules, before);
      if FindSource(table, row.source).None? {
        NewSource(table, row);
        RunTold(rules, Told(rules, before), row, now);
      } else {
        assert Told(rules, before) + [] == Told(rules, before);
      }
    }
  }

  // ---------------------------------------------------------------- a consumer polling a growing log

  /** `missed` records the matching events that were logged behind the consumer's position. */
  datatype State = State(table: Table, delivered: seq<Event>, missed: set<Event>)

  datatype Happening = Logged(e: Event) | Poll(take: Option<nat>)

  const START := State([], [], {})

  /** The consumer resumes from the last event it was handed, which is `nextCursor` of every full page. */
  function Cursor(s: State): Option<nat> {
    if s.delivered == [] then None else Some(s.delivered[|s.delivered| - 1].id)
  }

  predicate Ahead(s: State, e: Event) {
    s.delivered == [] || Before(s.delivered[|s.delivered| - 1], e)
  }

  function Step(s: State, h: Happening, filter: Option<string>): State {
    match h
    case Logged(e) =>
      if FindEvent(s.table, e.id).Some? then s
      else s.(table := s.table + [e], missed := s.missed + if Matches(e, filter) && !Ahead(s, e) then {e} else {})
    case Poll(take) =>
      var r := ListSince(s.table, Cursor(s), take, filter);
      if r.Err? then s else s.(delivered := s.delivered + r.value.events)
  }

  function Run(s: State, hs: seq<Happening>, filter: Option<string>): State
    decreases hs
  {
    if hs == [] then s else Run(Step(s, hs[0], filter), hs[1..], filter)
  }

  /** What is still to come. */
  function Pending(s: State, filter: Option<string>): seq<Event> {
    Window(s.table, Cursor(s), filter)
  }

  ghost predicate Known(s: State, filter: Option<string>) {
    && (forall i | 0 <= i < |s.delivered| :: s.delivered[i] in s.table && Matches(s.delivered[i], filter))
    && (forall e | e in s.missed :: e in s.table && Matches(e, filter) && !Ahead(s, e) && e !in s.delivered)
  }

  /** Every matching event the consumer has passed was either handed out or logged too late. */
  ghost predicate Accounted(s: State, filter: Option<string>) {
    forall e | e in s.table && Matches(e, filter) && !Ahead(s, e) :: e in s.delivered || e in s.missed
  }

  ghost predicate Inv(s: State, filter: Option<string>) {
    UniqueIds(s.table) && Ordered(s.delivered) && Known(s, filter) && Accounted(s, filter)
  }

  lemma FindRow(table: Table, e: Event)
    requires UniqueIds(table) && e in table
    ensures FindEvent(table, e.id) == Some(e)
  {
    var i :| 0 <= i < |table| && table[i] == e;
    var found := FindEvent(table, e.id).value;
    var j :| 0 <= j < |table| && table[j] == found;
  }

  lemma {:induction false} SkipToMark(rows: seq<Event>, mark: Event)
    requires Ordered(rows) && mark in rows
    ensures Ordered(Drop1(AtOrAfter(rows, mark)))
    ensures forall e :: e in Drop1(AtOrAfter(rows, mark)) <==> e in rows && Before(mark, e)
  {
    assert rows == [rows[0]] + rows[1..];
    if Before(rows[0], mark) {
      SkipToMark(rows[1..], mark);
    } else {
      assert rows[0] == mark;
      forall e ensures e in rows[1..] <==> e in rows && Before(mark, e) {
        TailElements(rows, e);
      }
    }
  }

  /** What is pending, in order, is every matching event ahead of the consumer. */
  lemma PendingIsAhead(s: State, filter: Option<string>)
    requires Inv(s, filter)
    ensures Ordered(Pending(s, filter))
    ensures forall e :: e in Pending(s, filter) <==> e in s.table && Matches(e, filter) && Ahead(s, e)
  {
    ListingIsOrdered(s.table, filter);
    if s.delivered != [] {
      var mark := s.delivered[|s.delivered| - 1];
      FindRow(s.table, mark);
      SkipToMark(Listing(s.table, filter), mark);
    }
  }

  predicate AllAhead(s: State, page: seq<Event>) {
    forall i | 0 <= i < |page| :: Ahead(s, page[i])
  }

  lemma OrderedConcat(s: State, page: seq<Event>)
    requires Ordered(s.delivered) && Ordered(page) && AllAhead(s, page)
    ensures Ordered(s.delivered + page)
  {
    forall i, j | 0 <= i < |s.delivered| && 0 <= j < |page| ensures Before(s.delivered[i], page[j]) {
      assert Ahead(s, page[j]);
    }
  }

  lemma PagePassesItself(s: State, page: seq<Event>, e: Event)
    requires page != [] && AllAhead(s, page) && !Ahead(s, e)
    ensures !Ahead(s.(delivered := s.delivered + page), e) && e !in page
  {
    assert Ahead(s, page[|page| - 1]);
    assert (s.delivered + page)[|s.delivered + page| - 1] == page[|page| - 1];
  }

  lemma HandOut(s: State, filter: Option<string>, n: nat)
    requires Inv(s, filter) && 0 < n <= |Pending(s, filter)|
    ensures Inv(s.(delivered := s.delivered + Pending(s, filter)[..n]), filter)
  {
    PendingIsAhead(s, filter);
    var pending := Pending(s, filter);
    var page := pending[..n];
    var t := s.(delivered := s.delivered + page);
    forall i | 0 <= i < n ensures page[i] in s.table && Matches(page[i], filter) && Ahead(s, page[i]) {
      assert pending[i] in pending;
    }
    OrderedConcat(s, page);
    forall e | !Ahead(s, e) ensures !Ahead(t, e) && e !in page {
      PagePassesItself(s, page, e);
    }
    assert Known(t, filter);
    forall e | e in s.table && Matches(e, filter) && !Ahead(t, e) ensures e in t.delivered || e in t.missed {
      if Ahead(s, e) {
        PassedIsOnPage(s, pending, n, e);
      }
    }
  }

  lemma PassedIsOnPage(s: State, pending: seq<Event>, n: nat, e: Event)
    requires Ordered(pending) && e in pending && 0 < n <= |pending|
    requires !Ahead(s.(delivered := s.delivered + pending[..n]), e)
    ensures e in pending[..n]
  {
    var d := s.delivered + pending[..n];
    assert d[|d| - 1] == pending[n - 1];
    var k :| 0 <= k < |pending| && pending[k] == e;
    assert pending[..n][n - 1] == pending[n - 1];
    if k < n {
      assert pending[..n][k] == e;
    }
  }

  lemma LoggedKeepsInv(s: State, e: Event, filter: Option<string>)
    requires Inv(s, filter)
    ensures Inv(Step(s, Logged(e), filter), filter)
  {
    var t := Step(s, Logged(e), filter);
    if FindEvent(s.table, e.id).None? {
      assert forall i | 0 <= i < |s.table| :: s.table[i] in s.table;
      assert e !in s.table;
    }
  }

  lemma StepKeepsInv(s: State, h: Happening, filter: Option<string>)
    requires Inv(s, filter)
    ensures Inv(Step(s, h, filter), filter)
  {
    match h
    case Logged(e) => LoggedKeepsInv(s, e, filter);
    case Poll(take) =>
      var pending := Pending(s, filter);
      var n := if |pending| <= PageSize(take) then |pending| else PageSize(take);
      assert pending[..|pending|] == pending;
      if n > 0 {
        HandOut(s, filter, n);
      } else {
        assert s.delivered + [] == s.delivered;
      }
  }

  lemma {:induction false} RunKeepsInv(s: State, hs: seq<Happening>, filter: Option<string>)
    requires Inv(s, filter)
    ensures Inv(Run(s, hs, filter), filter)
    decreases hs
  {
    if hs != [] {
      StepKeepsInv(s, hs[0], filter);
      RunKeepsInv(Step(s, hs[0], filter), hs[1..], filter);
    }
  }

  /**
   * Over every run of logging and polling, whatever the page sizes: events are handed out in order,
   * so each at most once, and an event the consumer has passed was handed out exactly when it was
   * not logged behind the consumer.
   */
  lemma DeliveredExactly(hs: seq<Happening>, filter: Option<string>, e: Event)
    ensures var s := Run(START, hs, filter);
            Ordered(s.delivered) && (e in s.delivered <==> e in s.table && Matches(e, filter) && !Ahead(s, e) && e !in s.missed)
  {
    RunKeepsInv(START, hs, filter);
    var s := Run(START, hs, filter);
    if e in s.delivered {
      var i :| 0 <= i < |s.delivered| && s.delivered[i] == e;
      assert !Ahead(s, e);
    }
  }

  /** What a poll takes from what is pending. */
  function Taken(s: State, take: Option<nat>, filter: Option<string>): (n: nat)
    ensures n <= |Pending(s, filter)|
  {
    var pending := |Pending(s, filter)|;
    if pending <= PageSize(take) then pending else PageSize(take)
  }

  lemma RestIsPending(s: State, n: nat, filter: Option<string>)
    requires Inv(s, filter) && 0 < n <= |Pending(s, filter)|
    ensures Pending(s.(delivered := s.delivered + Pending(s, filter)[..n]), filter) == Pending(s, filter)[n..]
  {
    var pending := Pending(s, filter);
    var t := s.(delivered := s.delivered + pending[..n]);
    HandOut(s, filter, n);
    PendingIsAhead(s, filter);
    PendingIsAhead(t, filter);
    RestIsAhead(s, pending, n, Pending(t, filter), filter);
  }

  lemma RestIsAhead(s: State, pending: seq<Event>, n: nat, later: seq<Event>, filter: Option<string>)
    requires Ordered(pending) && Ordered(later) && 0 < n <= |pending|
    requires forall e :: e in pending <==> e in s.table && Matches(e, filter) && Ahead(s, e)
    requires var t := s.(delivered := s.delivered + pending[..n]);
             forall e :: e in later <==> e in s.table && Matches(e, filter) && Ahead(t, e)
    ensures later == pending[n..]
  {
    var d := s.delivered + pending[..n];
    assert d[|d| - 1] == pending[n - 1];
    assert pending[n - 1] in pending;
    forall e ensures e in later <==> e in pending[n..] {
      LaterElements(pending, n, e);
      StillAhead(s, pending[n - 1], e);
    }
    OrderedListUnique(later, pending[n..]);
  }

  lemma StillAhead(s: State, passed: Event, e: Event)
    ensures Ahead(s, passed) && Before(passed, e) ==> Ahead(s, e)
  {
  }

  lemma PollEffect(s: State, take: Option<nat>, filter: Option<string>)
    ensures Step(s, Poll(take), filter) == s.(delivered := s.delivered + Pending(s, filter)[..Taken(s, take, filter)])
  {
    var pending := Pending(s, filter);
    assert pending[..|pending|] == pending;
    assert s.delivered + [] == s.delivered;
  }

  /** A poll hands out the front of what is pending and leaves the rest; `nextCursor` is where the consumer resumes. */
  lemma PollHandsOut(s: State, take: Option<nat>, filter: Option<string>)
    requires Inv(s, filter)
    ensures var page := ListSince(s.table, Cursor(s), take, filter);
            page.Ok? && page.value.next.Some? ==> page.value.next == Cursor(Step(s, Poll(take), filter))
    ensures Step(s, Poll(take), filter) == s.(delivered := s.delivered + Pending(s, filter)[..Taken(s, take, filter)])
    ensures Pending(Step(s, Poll(take), filter), filter) == Pending(s, filter)[Taken(s, take, filter)..]
  {
    PollEffect(s, take, filter);
    if Taken(s, take, filter) > 0 {
      RestIsPending(s, Taken(s, take, filter), filter);
    } else {
      assert s.delivered + [] == s.delivered;
    }
  }

  lemma LaterElements(rows: seq<Event>, n: nat, e: Event)
    requires Ordered(rows) && 0 < n <= |rows|
    ensures e in rows[n..] <==> e in rows && Before(rows[n - 1], e)
  {
    if e in rows[n..] {
      var k :| 0 <= k < |rows[n..]| && rows[n..][k] == e;
      assert rows[n + k] == e;
    }
    if e in rows && Before(rows[n - 1], e) {
      var k :| 0 <= k < |rows| && rows[k] == e;
      assert rows[n..][k - n] == e;
    }
  }

  function Polls(takes: seq<Option<nat>>): seq<Happening> {
    if takes == [] then [] else [Poll(takes[0])] + Polls(takes[1..])
  }

  predicate RealPages(takes: seq<Option<nat>>) {
    forall i | 0 <= i < |takes| :: takes[i] != Some(0)
  }

  /** While nothing is logged, polls with any page sizes but zero use up what is pending, a row or more each. */
  lemma {:induction false} PollsCatchUp(s: State, takes: seq<Option<nat>>, filter: Option<string>)
    requires Inv(s, filter) && RealPages(takes) && |takes| >= |Pending(s, filter)|
    ensures Run(s, Polls(takes), filter) == s.(delivered := s.delivered + Pending(s, filter))
    decreases takes
  {
    if takes == [] {
      assert s.delivered + Pending(s, filter) == s.delivered;
    } else {
      var t := Step(s, Poll(takes[0]), filter);
      PollHandsOut(s, takes[0], filter);
      PollProgress(s, takes, filter);
      StepKeepsInv(s, Poll(takes[0]), filter);
      PollsCatchUp(t, takes[1..], filter);
      RunPolls(s, takes, filter);
      Rejoin(s.delivered, Pending(s, filter), Taken(s, takes[0], filter));
    }
  }

  lemma PollProgress(s: State, takes: seq<Option<nat>>, filter: Option<string>)
    requires takes != [] && RealPages(takes) && |takes| >= |Pending(s, filter)|
    ensures |takes[1..]| >= |Pending(s, filter)[Taken(s, takes[0], filter)..]| && RealPages(takes[1..])
  {
    assert takes[0] != Some(0);
  }

  lemma Rejoin(delivered: seq<Event>, pending: seq<Event>, n: nat)
    requires n <= |pending|
    ensures (delivered + pending[..n]) + pending[n..] == delivered + pending
  {
  }

  lemma RunPolls(s: State, takes: seq<Option<nat>>, filter: Option<string>)
    requires takes != []
    ensures Run(s, Polls(takes), filter) == Run(Step(s, Poll(takes[0]), filter), Polls(takes[1..]), filter)
  {
    assert Polls(takes)[1..] == Polls(takes[1..]);
  }

  /** Reading a quiet log from the start yields the filtered log in order, each event once, then an empty last page. */
  lemma QuietLogIsDelivered(table: Table, takes: seq<Option<nat>>, filter: Option<string>, last: Option<nat>)
    requires UniqueIds(table) && RealPages(takes) && |takes| >= |Listing(table, filter)| && last != Some(0)
    ensures var end := Run(State(table, [], {}), Polls(takes), filter);
            && end.delivered == Listing(table, filter) && Ordered(end.delivered)
            && ListSince(table, Cursor(end), last, filter) == Ok(Page([], None))
  {
    var s := State(table, [], {});
    PollsCatchUp(s, takes, filter);
    ListingIsOrdered(table, filter);
    assert [] + Listing(table, filter) == Listing(table, filter);
    var end := Run(s, Polls(takes), filter);
    RunKeepsInv(s, Polls(takes), filter);
    NothingPending(end, filter);
  }

  lemma NothingPending(s: State, filter: Option<string>)
    requires Inv(s, filter) && s.delivered == Listing(s.table, filter)
    ensures Pending(s, filter) == []
  {
    if Pending(s, filter) != [] {
      DeliveredIsNotPending(s, filter, Pending(s, filter)[0]);
    }
  }

  lemma DeliveredIsNotPending(s: State, filter: Option<string>, e: Event)
    requires Inv(s, filter) && s.delivered == Listing(s.table, filter)
    ensures e !in Pending(s, filter)
  {
    PendingIsAhead(s, filter);
    if e in s.table && Matches(e, filter) {
      assert e in s.delivered;
      DeliveredIsBehind(s, e);
    }
  }

  lemma DeliveredIsBehind(s: State, e: Event)
    requires Ordered(s.delivered) && e in s.delivered
    ensures !Ahead(s, e)
  {
    var i :| 0 <= i < |s.delivered| && s.delivered[i] == e;
  }

  /**
   * A consumer told that nothing follows has the whole filtered log, in order, exactly when no
   * matching event was ever logged behind it.
   */
  lemma CaughtUpHasAll(hs: seq<Happening>, take: Option<nat>, filter: Option<string>)
    ensures var s := Run(START, hs, filter);
            var page := ListSince(s.table, Cursor(s), take, filter);
            var end := Step(s, Poll(take), filter);
            page.Ok? && page.value.next.None? ==> (end.delivered == Listing(end.table, filter) <==> end.missed == {})
  {
    var s := Run(START, hs, filter);
    var page, end := ListSince(s.table, Cursor(s), take, filter), Step(s, Poll(take), filter);
    RunKeepsInv(START, hs, filter);
    if page.Ok? && page.value.next.None? {
      PollHandsOut(s, take, filter);
      StepKeepsInv(s, Poll(take), filter);
      EverythingPassed(end, filter);
    }
  }

  lemma EverythingPassed(s: State, filter: Option<string>)
    requires Inv(s, filter) && Pending(s, filter) == []
    ensures s.delivered == Listing(s.table, filter) <==> s.missed == {}
  {
    PendingIsAhead(s, filter);
    ListingIsOrdered(s.table, filter);
    if s.missed == {} {
      OrderedListUnique(s.delivered, Listing(s.table, filter));
    } else {
      var e :| e in s.missed;
      assert e in Listing(s.table, filter) && e !in s.delivered;
    }
  }

  /** Every event logged during the run sorts after the consumer's position at that moment. */
  predicate LoggedAhead(s: State, hs: seq<Happening>, filter: Option<string>)
    decreases hs
  {
    hs == [] || ((hs[0].Logged? ==> Ahead(s, hs[0].e)) && LoggedAhead(Step(s, hs[0], filter), hs[1..], filter))
  }

  lemma {:induction false} NothingMissed(s: State, hs: seq<Happening>, filter: Option<string>)
    requires LoggedAhead(s, hs, filter)
    ensures Run(s, hs, filter).missed == s.missed
    decreases hs
  {
    if hs != [] {
      NothingMissed(Step(s, hs[0], filter), hs[1..], filter);
    }
  }

  /** Following the feed of a log that only grows ahead of the consumer misses nothing and repeats nothing. */
  lemma GrowingLogIsDelivered(hs: seq<Happening>, take: Option<nat>, filter: Option<string>)
    requires LoggedAhead(START, hs, filter)
    ensures var s := Run(START, hs, filter);
            var page := ListSince(s.table, Cursor(s), take, filter);
            page.Ok? && page.value.next.None? ==> Step(s, Poll(take), filter).delivered == Listing(s.table, filter)
  {
    NothingMissed(START, hs, filter);
    CaughtUpHasAll(hs, take, filter);
  }

  /** A cursor taken from another filter loses the next matching event, if there is one. */
  lemma ForeignCursor(table: Table, mark: Event, filter: Option<string>)
    requires UniqueIds(table) && mark in table
    ensures (forall e | e in Listing(table, filter) && Before(mark, e) :: e in Window(table, Some(mark.id), filter))
       <==> Matches(mark, filter) || forall e | e in Listing(table, filter) :: !Before(mark, e)
  {
    FindRow(table, mark);
    ListingIsOrdered(table, filter);
    var rows := Listing(table, filter);
    if Matches(mark, filter) {
      SkipToMark(rows, mark);
    } else {
      forall i | 0 <= i < |rows| ensures rows[i].id != mark.id {
        FindRow(table, rows[i]);
      }
      SkipPastMark(rows, mark);
      var rest := AtOrAfter(rows, mark);
      if rest != [] {
        TailElements(rest, rest[0]);
        assert rest[0] in rest;
      }
    }
  }

  lemma {:induction false} SkipPastMark(rows: seq<Event>, mark: Event)
    requires Ordered(rows) && forall i | 0 <= i < |rows| :: rows[i].id != mark.id
    ensures Ordered(AtOrAfter(rows, mark))
    ensures forall e :: e in AtOrAfter(rows, mark) <==> e in rows && Before(mark, e)
  {
    if rows != [] {
      assert rows == [rows[0]] + rows[1..];
      if Before(rows[0], mark) {
        SkipPastMark(rows[1..], mark);
      } else {
        assert forall i | 0 <= i < |rows| :: Before(mark, rows[i]);
      }
    }
  }

  // ---------------------------------------------------------------- the feed and the log, field by field

  /** A listing holds the rows of the type asked for, or all of them, from the oldest on; rows of the same moment by their id. */
  lemma ListingExactly(table: Table, filter: Option<string>)
    requires UniqueIds(table)
    ensures forall x :: x in Listing(table, filter) <==> x in table && (filter.Some? ==> x.eventType == filter.value)
    ensures var rows := Listing(table, filter);
            forall i, j | 0 <= i < j < |rows| ::
              rows[i].createdAt < rows[j].createdAt || (rows[i].createdAt == rows[j].createdAt && rows[i].id < rows[j].id)
  {
    ListingIsOrdered(table, filter);
    var rows := Listing(table, filter);
    forall i, j | 0 <= i < j < |rows|
      ensures rows[i].createdAt < rows[j].createdAt || (rows[i].createdAt == rows[j].createdAt && rows[i].id < rows[j].id)
    {
      assert Before(rows[i], rows[j]);
    }
  }

  /** What a cursor selects: everything, nothing if it names no row, or the matching rows after its own row. */
  lemma WindowExactly(table: Table, cursor: Option<nat>, filter: Option<string>, e: Event)
    requires UniqueIds(table)
    ensures cursor == None ==> Window(table, cursor, filter) == Listing(table, filter)
    ensures cursor.Some? && (forall x | x in table :: x.id != cursor.value) ==> Window(table, cursor, filter) == []
    ensures forall mark | cursor.Some? && mark in table && mark.id == cursor.value && (filter.Some? ==> mark.eventType == filter.value) ::
              (e in Window(table, cursor, filter)
               <==> && e in table && (filter.Some? ==> e.eventType == filter.value)
                    && (mark.createdAt < e.createdAt || (mark.createdAt == e.createdAt && mark.id < e.id)))
  {
    ListingIsOrdered(table, filter);
    forall mark | cursor.Some? && mark in table && mark.id == cursor.value && (filter.Some? ==> mark.eventType == filter.value)
      ensures e in Window(table, cursor, filter)
         <==> && e in table && (filter.Some? ==> e.eventType == filter.value)
              && (mark.createdAt < e.createdAt || (mark.createdAt == e.createdAt && mark.id < e.id))
    {
      FindRow(table, mark);
      SkipToMark(Listing(table, filter), mark);
    }
  }

  /** A page is the front of what the cursor selects, a hundred rows unless asked otherwise and never above five hundred; a full one says where to go on. */
  lemma PageExactly(table: Table, cursor: Option<nat>, take: Option<nat>, filter: Option<string>)
    ensures var size := if take == None then 100 else if take.value > 500 then 500 else take.value;
            var selected, r := Window(table, cursor, filter), ListSince(table, cursor, take, filter);
            && (r.Err? <==> size == 0)
            && (r.Ok? ==>
                  && |r.value.events| == (if |selected| < size then |selected| else size)
                  && r.value.events == selected[..|r.value.events|]
                  && (r.value.next.Some? <==> |selected| >= size)
                  && (|selected| >= size ==> r.value.next == Some(selected[size - 1].id)))
  {
  }

  /** The reward engine is told the type, the user and the prefixed source of each row. */
  lemma ToldExactly(rules: Rewards.Rules, rows: seq<(Event, int)>, k: nat)
    requires k < |Reports(rules, rows).0|
    ensures var table, told := Reports(rules, rows).0, Told(rules, rows);
            && |told| == |table| && told[k].Report?
            && told[k].event == Rewards.Event(table[k].eventType, table[k].user, "ecosystem-event:" + table[k].source)
  {
    ReportedOnce(rules, rows);
  }

  lemma SourceOfAppend(table: Table, row: Event, source: string)
    ensures FindSource(table + [row], source).Some? <==> FindSource(table, source).Some? || row.source == source
  {
    var more := table + [row];
    assert row in more && forall x | x in table :: x in more;
    assert forall x | x in more :: x in table || x == row;
  }

  /** Row `row` was the `i`-th report, and the first of its source. */
  predicate FirstReport(rows: seq<(Event, int)>, i: nat, row: Event)
    requires i < |rows|
  {
    row == rows[i].0 && forall j | 0 <= j < i :: rows[j].0.source != row.source
  }

  predicate WasReported(rows: seq<(Event, int)>, row: Event) {
    exists i | 0 <= i < |rows| :: FirstReport(rows, i, row)
  }

  lemma ReportStays(rows: seq<(Event, int)>, more: (Event, int), row: Event)
    requires WasReported(rows, row)
    ensures WasReported(rows + [more], row)
  {
    var i :| 0 <= i < |rows| && FirstReport(rows, i, row);
    assert FirstReport(rows + [more], i, row);
  }

  lemma {:induction false} EverySourceIsLogged(rules: Rewards.Rules, rows: seq<(Event, int)>)
    ensures forall i | 0 <= i < |rows| :: FindSource(Reports(rules, rows).0, rows[i].0.source).Some?
  {
    if rows != [] {
      var before, row := rows[..|rows| - 1], rows[|rows| - 1].0;
      EverySourceIsLogged(rules, before);
      forall i | 0 <= i < |rows| ensures FindSource(Reports(rules, rows).0, rows[i].0.source).Some? {
        SourceOfAppend(Reports(rules, before).0, row, rows[i].0.source);
        assert i < |before| ==> before[i] == rows[i];
      }
    }
  }

  lemma {:induction false} RowsWereReported(rules: Rewards.Rules, rows: seq<(Event, int)>)
    ensures forall k | 0 <= k < |Reports(rules, rows).0| :: WasReported(rows, Reports(rules, rows).0[k])
  {
    if rows != [] {
      var before, last := rows[..|rows| - 1], rows[|rows| - 1];
      var was := Reports(rules, before).0;
      RowsWereReported(rules, before);
      EverySourceIsLogged(rules, before);
      assert before + [last] == rows;
      forall k | 0 <= k < |was| ensures WasReported(rows, was[k]) {
        ReportStays(before, last, was[k]);
      }
      if FindSource(was, last.0.source).None? {
        NotYetReported(rules, before, last.0.source);
        assert FirstReport(rows, |before|, last.0);
      }
    }
  }

  /** Every reported source has a row in the log. */
  lemma ReportedIsLogged(rules: Rewards.Rules, rows: seq<(Event, int)>, i: nat) returns (k: nat)
    requires i < |rows|
    ensures k < |Reports(rules, rows).0| && Reports(rules, rows).0[k].source == rows[i].0.source
  {
    EverySourceIsLogged(rules, rows);
    var table := Reports(rules, rows).0;
    k :| 0 <= k < |table| && table[k] == FindSource(table, rows[i].0.source).value;
  }

  /** A row of the log is the first report of its source. */
  lemma LoggedWasFirst(rules: Rewards.Rules, rows: seq<(Event, int)>, k: nat) returns (i: nat)
    requires k < |Reports(rules, rows).0|
    ensures i < |rows| && Reports(rules, rows).0[k] == rows[i].0
    ensures forall j | 0 <= j < i :: rows[j].0.source != rows[i].0.source
  {
    RowsWereReported(rules, rows);
    assert WasReported(rows, Reports(rules, rows).0[k]);
    i :| 0 <= i < |rows| && FirstReport(rows, i, Reports(rules, rows).0[k]);
  }

  lemma NotYetReported(rules: Rewards.Rules, rows: seq<(Event, int)>, source: string)
    requires forall i | 0 <= i < |rows| :: FindSource(Reports(rules, rows).0, rows[i].0.source).Some?
    requires FindSource(Reports(rules, rows).0, source).None?
    ensures forall j | 0 <= j < |rows| :: rows[j].0.source != source
  {
  }

  /** Logging appends the event to the log, unless its id is taken, and hands nothing out. */
  lemma LoggingExactly(s: State, e: Event, filter: Option<string>)
    ensures Step(s, Logged(e), filter).table == if exists x | x in s.table :: x.id == e.id then s.table else s.table + [e]
    ensures Step(s, Logged(e), filter).delivered == s.delivered
  {
  }
}
