/**
 * Bridge requests: the eligibility decision and the row that later decisions count. Decimals are
 * reals; a request keeps the time it was created at.
 */
module Bridge {
  import opened Wrappers
  import opened SlidingWindow

  datatype Policy = Policy(rate: real, minAmount: Option<real>, dailyCap: Option<real>, reserve: real, enabled: bool)

  datatype Status = Pending | Eligible | Ineligible | CoolingOff | Approved | Executed | Rejected

  datatype Request = Request(user: nat, direction: string, amount: real, quotedRate: real, status: Status,
                             createdAt: int, ref: string)

  datatype Refusal = NoPolicy | NotActive | BelowMinimum | OverDailyCap | ReserveTooLow

  datatype Decision = Accept | Refuse(why: Refusal)

  type Policies = map<string, Policy>

  const REF_ATTEMPTS := 5

  // ---------------------------------------------------------------- the decision

  /** Requests that count against the daily cap. */
  predicate Counts(r: Request, user: nat, direction: string) {
    r.user == user && r.direction == direction && r.status in {Eligible, Approved, Executed}
  }

  function UsedSince(rows: seq<Request>, user: nat, direction: string, from: int): real {
    if rows == [] then 0.0
    else
      var last := rows[|rows| - 1];
      UsedSince(rows[..|rows| - 1], user, direction, from)
      + if Counts(last, user, direction) && from <= last.createdAt then last.amount else 0.0
  }

  /**
   * `!reserve.lessThan(amount.dividedBy(rate))`. Dividing by a zero rate gives plus or minus
   * infinity, or not-a-number for a zero amount, which no number is less than.
   */
  predicate ReserveCovers(reserve: real, amount: real, rate: real) {
    if rate == 0.0 then amount <= 0.0 else reserve >= amount / rate
  }

  function Decide(p: Policy, used: real, amount: real): Decision {
    if !p.enabled then Refuse(NotActive)
    else if p.minAmount.Some? && amount < p.minAmount.value then Refuse(BelowMinimum)
    else if p.dailyCap.Some? && used + amount > p.dailyCap.value then Refuse(OverDailyCap)
    else if !ReserveCovers(p.reserve, amount, p.rate) then Refuse(ReserveTooLow)
    else Accept
  }

  function CheckEligibility(policies: Policies, rows: seq<Request>, user: nat, direction: string, amount: real, now: int)
    : Decision
  {
    if direction !in policies then Refuse(NoPolicy)
    else Decide(policies[direction], UsedSince(rows, user, direction, now - DAY_MS), amount)
  }

  /** The row `create` inserts. */
  function NewRequest(policies: Policies, rows: seq<Request>, user: nat, direction: string, amount: real, now: int,
                      ref: string): Request
  {
    var status := if CheckEligibility(policies, rows, user, direction, amount, now).Accept? then Eligible else Ineligible;
    var quotedRate := if direction in policies then policies[direction].rate else 0.0;
    Request(user, direction, amount, quotedRate, status, now, ref)
  }

  predicate RefTaken(rows: seq<Request>, ref: string) {
    exists i | 0 <= i < |rows| :: rows[i].ref == ref
  }

  /** The first free draw; the draw after the last attempt is used without looking. */
  function PickRef(rows: seq<Request>, draws: seq<string>): (ref: string)
    requires draws != []
    ensures ref in draws
    ensures (exists d | d in draws[..|draws| - 1] :: !RefTaken(rows, d)) ==> !RefTaken(rows, ref)
  {
    if |draws| == 1 || !RefTaken(rows, draws[0]) then draws[0]
    else
      assert draws[..|draws| - 1] == [draws[0]] + draws[1..][..|draws| - 2];
      PickRef(rows, draws[1..])
  }

  class BridgeRequestService {
    var policies: Policies
    var rows: seq<Request>

    /** `Err` is the unique-constraint error of the insert, when all six references were taken. */
    method Create(user: nat, direction: string, amount: real, now: int, draws: seq<string>) returns (r: Result<Request, ()>)
      requires |draws| == REF_ATTEMPTS + 1
      modifies this`rows
      ensures var ref := PickRef(old(rows), draws);
              if RefTaken(old(rows), ref) then r == Err(()) && rows == old(rows)
              else r == Ok(NewRequest(policies, old(rows), user, direction, amount, now, ref)) && rows == old(rows) + [r.value]
    {
      var quotedRate := 0.0;
      if direction in policies {
        quotedRate := policies[direction].rate;
      }
      var decision := CheckEligibility(policies, rows, user, direction, amount, now);
      var ref := draws[0];
      var attempt := 0;
      assert draws[0..] == draws;
      while attempt < REF_ATTEMPTS
        invariant 0 <= attempt <= REF_ATTEMPTS && ref == draws[attempt]
        invariant PickRef(rows, draws[attempt..]) == PickRef(rows, draws)
      {
        if !RefTaken(rows, ref) {
          break;
        }
        assert draws[attempt..][1..] == draws[attempt + 1..];
        attempt := attempt + 1;
        ref := draws[attempt];
      }
      assert ref == PickRef(rows, draws);
      if RefTaken(rows, ref) {
        return Err(());
      }
      var status := if decision.Accept? then Eligible else Ineligible;
      var row := Request(user, direction, amount, quotedRate, status, now, ref);
      rows := rows + [row];
      r := Ok(row);
    }
  }

  // ---------------------------------------------------------------- runs

  datatype Ask = Ask(user: nat, direction: string, amount: real, now: int, ref: string)

  function Take(policies: Policies, rows: seq<Request>, ask: Ask): seq<Request> {
    if RefTaken(rows, ask.ref) then rows
    else rows + [NewRequest(policies, rows, ask.user, ask.direction, ask.amount, ask.now, ask.ref)]
  }

  function Run(policies: Policies, asks: seq<Ask>): seq<Request> {
    if asks == [] then [] else Take(policies, Run(policies, asks[..|asks| - 1]), asks[|asks| - 1])
  }

  /** The clock never goes back. */
  predicate InOrder(asks: seq<Ask>) {
    forall i, j | 0 <= i < j < |asks| :: asks[i].now <= asks[j].now
  }

  /** The counting requests of one user in one direction, as entries of the window. */
  function Entries(rows: seq<Request>, user: nat, direction: string): (log: seq<Entry>) {
    if rows == [] then []
    else
      var last := rows[|rows| - 1];
      Entries(rows[..|rows| - 1], user, direction)
      + if Counts(last, user, direction) then [Entry(last.createdAt, last.amount)] else []
  }

  /** What a user's accepted requests in one direction add up to over [from, to]. */
  function Bridged(rows: seq<Request>, user: nat, direction: string, from: int, to: int): real {
    Between(Entries(rows, user, direction), from, to)
  }

  lemma {:induction false} EntriesSince(rows: seq<Request>, user: nat, direction: string, from: int)
    ensures Since(Entries(rows, user, direction), from) == UsedSince(rows, user, direction, from)
  {
    if rows != [] {
      var before := rows[..|rows| - 1];
      EntriesSince(before, user, direction, from);
      var log := Entries(rows, user, direction);
      if Counts(rows[|rows| - 1], user, direction) {
        assert log[..|log| - 1] == Entries(before, user, direction);
      } else {
        assert log == Entries(before, user, direction);
      }
    }
  }

  lemma EntriesOfAppend(rows: seq<Request>, r: Request, user: nat, direction: string)
    ensures Entries(rows + [r], user, direction)
         == Entries(rows, user, direction) + if Counts(r, user, direction) then [Entry(r.createdAt, r.amount)] else []
  {
    assert (rows + [r])[..|rows + [r]| - 1] == rows;
  }

  lemma {:induction false} EntryOfRow(rows: seq<Request>, user: nat, direction: string, i: nat)
    requires i < |Entries(rows, user, direction)|
    ensures exists k | 0 <= k < |rows| ::
              Counts(rows[k], user, direction)
              && Entries(rows, user, direction)[i] == Entry(rows[k].createdAt, rows[k].amount)
  {
    var before, last := rows[..|rows| - 1], rows[|rows| - 1];
    if i < |Entries(before, user, direction)| {
      EntryOfRow(before, user, direction, i);
      var k :| 0 <= k < |before| && Counts(before[k], user, direction)
               && Entries(before, user, direction)[i] == Entry(before[k].createdAt, before[k].amount);
      assert rows[k] == before[k];
    } else {
      assert Counts(last, user, direction);
    }
  }

  lemma {:induction false} RowOfAsk(policies: Policies, asks: seq<Ask>, k: nat)
    requires k < |Run(policies, asks)|
    ensures var r := Run(policies, asks)[k];
            exists j | 0 <= j < |asks| ::
              asks[j].user == r.user && asks[j].direction == r.direction && asks[j].amount == r.amount && asks[j].now == r.createdAt
  {
    var before := asks[..|asks| - 1];
    if k < |Run(policies, before)| {
      RowOfAsk(policies, before, k);
      var r := Run(policies, before)[k];
      assert Run(policies, asks)[k] == r;
      var j :| 0 <= j < |before| && before[j].user == r.user && before[j].direction == r.direction
               && before[j].amount == r.amount && before[j].now == r.createdAt;
      assert asks[j] == before[j];
    }
  }

  lemma EntryOfAsk(policies: Policies, asks: seq<Ask>, user: nat, direction: string, i: nat)
    requires i < |Entries(Run(policies, asks), user, direction)|
    ensures exists j | 0 <= j < |asks| ::
              asks[j].user == user && asks[j].direction == direction
              && Entries(Run(policies, asks), user, direction)[i] == Entry(asks[j].now, asks[j].amount)
  {
    var rows := Run(policies, asks);
    EntryOfRow(rows, user, direction, i);
    var k :| 0 <= k < |rows| && Counts(rows[k], user, direction)
             && Entries(rows, user, direction)[i] == Entry(rows[k].createdAt, rows[k].amount);
    RowOfAsk(policies, asks, k);
  }

  lemma {:induction false} RunIsAdmitted(policies: Policies, asks: seq<Ask>, user: nat, direction: string)
    requires InOrder(asks)
    requires direction in policies && policies[direction].dailyCap.Some?
    ensures Admitted(Entries(Run(policies, asks), user, direction), policies[direction].dailyCap.value)
  {
    if asks != [] {
      var before, ask := asks[..|asks| - 1], asks[|asks| - 1];
      RunIsAdmitted(policies, before, user, direction);
      var rows := Run(policies, before);
      var log := Entries(rows, user, direction);
      forall i | 0 <= i < |log| ensures log[i].time <= ask.now {
        EntryOfAsk(policies, before, user, direction, i);
      }
      TakeFits(policies, rows, ask, user, direction);
      FittingIsAdmitted(rows, Run(policies, asks), ask.now, user, direction, policies[direction].dailyCap.value);
    }
  }

  /** What `Take` can append: nothing, or a row that fits under the cap if it counts. */
  lemma TakeFits(policies: Policies, rows: seq<Request>, ask: Ask, user: nat, direction: string)
    requires direction in policies && policies[direction].dailyCap.Some?
    ensures var after := Take(policies, rows, ask);
            after == rows || Fits(rows, after, ask.now, user, direction, policies[direction].dailyCap.value)
  {
  }

  predicate Fits(rows: seq<Request>, after: seq<Request>, now: int, user: nat, direction: string, cap: real) {
    && |after| == |rows| + 1 && after[..|rows|] == rows
    && var r := after[|rows|];
       r.createdAt == now
       && (Counts(r, user, direction) ==> UsedSince(rows, user, direction, now - DAY_MS) + r.amount <= cap)
  }

  lemma FittingIsAdmitted(rows: seq<Request>, after: seq<Request>, now: int, user: nat, direction: string, cap: real)
    requires Admitted(Entries(rows, user, direction), cap)
    requires forall i | 0 <= i < |Entries(rows, user, direction)| :: Entries(rows, user, direction)[i].time <= now
    requires after == rows || Fits(rows, after, now, user, direction, cap)
    ensures Admitted(Entries(after, user, direction), cap)
  {
    if after != rows {
      var log, r := Entries(rows, user, direction), after[|rows|];
      assert after == rows + [r];
      EntriesOfAppend(rows, r, user, direction);
      if Counts(r, user, direction) {
        EntriesSince(rows, user, direction, now - DAY_MS);
        AppendAdmitted(log, Entry(now, r.amount), cap);
      } else {
        assert log + [] == log;
      }
    }
  }

  predicate AsksNonNegative(asks: seq<Ask>, user: nat, direction: string) {
    forall k | 0 <= k < |asks| && asks[k].user == user && asks[k].direction == direction :: asks[k].amount >= 0.0
  }

  /** With non-negative amounts, no closed day sees a user bridge more than the daily cap. */
  lemma DailyCapHolds(policies: Policies, asks: seq<Ask>, user: nat, direction: string, from: int)
    requires InOrder(asks) && AsksNonNegative(asks, user, direction)
    requires direction in policies && policies[direction].dailyCap.Some? && policies[direction].dailyCap.value >= 0.0
    ensures Bridged(Run(policies, asks), user, direction, from, from + DAY_MS) <= policies[direction].dailyCap.value
  {
    RunIsAdmitted(policies, asks, user, direction);
    var log := Entries(Run(policies, asks), user, direction);
    forall i | 0 <= i < |log| ensures log[i].weight >= 0.0 {
      EntryOfAsk(policies, asks, user, direction, i);
    }
    EveryWindowWithinCap(log, policies[direction].dailyCap.value, from);
  }

  // ---------------------------------------------------------------- exactly which policies keep their cap

  /** Whatever is asked, with negative amounts allowed as the API does, no closed day exceeds the cap. */
  ghost predicate CapAlwaysHolds(p: Policy, direction: string)
    requires p.dailyCap.Some?
  {
    forall asks, user: nat, from | InOrder(asks) :: DayWithinCap(p, direction, asks, user, from)
  }

  predicate DayWithinCap(p: Policy, direction: string, asks: seq<Ask>, user: nat, from: int)
    requires p.dailyCap.Some?
  {
    Bridged(Run(map[direction := p], asks), user, direction, from, from + DAY_MS) <= p.dailyCap.value
  }

  /** The policy rules negative amounts out itself, or has nothing to pay positive ones from. */
  predicate CapSafe(p: Policy) {
    (p.minAmount.Some? && p.minAmount.value >= 0.0) || p.reserve <= 0.0
  }

  lemma {:induction false} CountedRowWasAccepted(p: Policy, direction: string, asks: seq<Ask>, user: nat, k: nat)
    requires k < |Run(map[direction := p], asks)|
    requires Counts(Run(map[direction := p], asks)[k], user, direction)
    ensures var amount := Run(map[direction := p], asks)[k].amount;
            (p.minAmount.Some? ==> amount >= p.minAmount.value) && ReserveCovers(p.reserve, amount, p.rate)
  {
    var before := asks[..|asks| - 1];
    if k < |Run(map[direction := p], before)| {
      assert Run(map[direction := p], asks)[k] == Run(map[direction := p], before)[k];
      CountedRowWasAccepted(p, direction, before, user, k);
    }
  }

  lemma CountedEntry(p: Policy, direction: string, asks: seq<Ask>, user: nat, i: nat)
    requires i < |Entries(Run(map[direction := p], asks), user, direction)|
    ensures var amount := Entries(Run(map[direction := p], asks), user, direction)[i].weight;
            (p.minAmount.Some? ==> amount >= p.minAmount.value) && ReserveCovers(p.reserve, amount, p.rate)
  {
    var rows := Run(map[direction := p], asks);
    EntryOfRow(rows, user, direction, i);
    var k :| 0 <= k < |rows| && Counts(rows[k], user, direction)
             && Entries(rows, user, direction)[i] == Entry(rows[k].createdAt, rows[k].amount);
    CountedRowWasAccepted(p, direction, asks, user, k);
  }

  lemma QuotientSign(amount: real, rate: real, reserve: real)
    requires rate > 0.0
    ensures amount / rate <= reserve <==> amount <= reserve * rate
  {
    QuotientIsBelow(amount / rate, rate, reserve);
    assert amount / rate * rate == amount;
  }

  lemma QuotientIsBelow(q: real, rate: real, reserve: real)
    requires rate > 0.0
    ensures q <= reserve <==> q * rate <= reserve * rate
  {
    if q <= reserve {
      MulMono(q, reserve, rate);
    } else {
      MulStrict(reserve, q, rate);
    }
  }

  lemma MulMono(x: real, y: real, z: real)
    requires x <= y && z >= 0.0
    ensures x * z <= y * z
  {
  }

  lemma MulStrict(x: real, y: real, z: real)
    requires x < y && z > 0.0
    ensures x * z < y * z
  {
  }

  lemma SafePolicyKeepsCap(p: Policy, direction: string, asks: seq<Ask>, user: nat, from: int)
    requires p.enabled && p.dailyCap.Some? && p.dailyCap.value >= 0.0 && p.rate > 0.0
    requires CapSafe(p) && InOrder(asks)
    ensures DayWithinCap(p, direction, asks, user, from)
  {
    var log := Entries(Run(map[direction := p], asks), user, direction);
    if p.reserve <= 0.0 {
      forall i | 0 <= i < |log| ensures log[i].weight <= 0.0 {
        CountedEntry(p, direction, asks, user, i);
        QuotientSign(log[i].weight, p.rate, p.reserve);
        MulMono(p.reserve, 0.0, p.rate);
      }
      NonPositiveBetween(log, from, from + DAY_MS);
    } else {
      RunIsAdmitted(map[direction := p], asks, user, direction);
      forall i | 0 <= i < |log| ensures log[i].weight >= 0.0 {
        CountedEntry(p, direction, asks, user, i);
      }
      EveryWindowWithinCap(log, p.dailyCap.value, from);
    }
  }

  lemma {:induction false} NonPositiveBetween(log: seq<Entry>, from: int, to: int)
    requires forall i | 0 <= i < |log| :: log[i].weight <= 0.0
    ensures Between(log, from, to) <= 0.0
  {
    if log != [] {
      NonPositiveBetween(log[..|log| - 1], from, to);
    }
  }

  /** One negative request at time 0, then `n` equal ones at time 1. */
  function Refill(direction: string, debit: real, piece: real, n: nat): (asks: seq<Ask>)
    ensures |asks| == n + 1 && InOrder(asks) && asks[n].now <= 1
  {
    if n == 0 then [Ask(0, direction, -debit, 0, "")]
    else Refill(direction, debit, piece, n - 1) + [Ask(0, direction, piece, 1, Mark(n))]
  }

  function Mark(n: nat): (ref: string)
    ensures |ref| == n
  {
    seq(n, _ => 'X')
  }

  /** What the first `n` equal requests leave: all accepted, and only they fall in the day that starts at time 1. */
  ghost predicate Refilled(rows: seq<Request>, direction: string, debit: real, piece: real, n: nat) {
    && (forall k | 0 <= k < |rows| :: |rows[k].ref| <= n)
    && UsedSince(rows, 0, direction, 1 - DAY_MS) == Times(n, piece) - debit
    && Bridged(rows, 0, direction, 1, 1 + DAY_MS) == Times(n, piece)
  }

  lemma UsedOfAppend(rows: seq<Request>, r: Request, user: nat, direction: string, from: int)
    requires Counts(r, user, direction)
    ensures UsedSince(rows + [r], user, direction, from)
         == UsedSince(rows, user, direction, from) + if from <= r.createdAt then r.amount else 0.0
  {
    assert (rows + [r])[..|rows|] == rows;
  }

  lemma BridgedOfAppend(rows: seq<Request>, r: Request, user: nat, direction: string, from: int, to: int)
    requires Counts(r, user, direction)
    ensures Bridged(rows + [r], user, direction, from, to)
         == Bridged(rows, user, direction, from, to) + if from <= r.createdAt <= to then r.amount else 0.0
  {
    EntriesOfAppend(rows, r, user, direction);
    BetweenOfAppend(Entries(rows, user, direction), Entry(r.createdAt, r.amount), from, to);
  }

  /** `n * x`, without multiplication. */
  function Times(n: nat, x: real): real {
    if n == 0 then 0.0 else Times(n - 1, x) + x
  }

  lemma {:induction false} TimesIsProduct(n: nat, x: real)
    ensures Times(n, x) == n as real * x
  {
    if n > 0 {
      TimesIsProduct(n - 1, x);
    }
  }

  lemma AcceptedIsAppended(p: Policy, direction: string, rows: seq<Request>, ask: Ask)
    requires ask.direction == direction && !RefTaken(rows, ask.ref)
    requires Decide(p, UsedSince(rows, ask.user, direction, ask.now - DAY_MS), ask.amount) == Accept
    ensures Take(map[direction := p], rows, ask)
         == rows + [Request(ask.user, direction, ask.amount, p.rate, Eligible, ask.now, ask.ref)]
  {
  }

  lemma AppendRefills(rows: seq<Request>, r: Request, direction: string, debit: real, piece: real, n: nat)
    requires r.user == 0 && r.direction == direction && r.status == Eligible && r.createdAt == 1
    requires r.amount == piece && |r.ref| == n && n > 0
    requires Refilled(rows, direction, debit, piece, n - 1)
    ensures forall k | 0 <= k < |rows + [r]| :: |(rows + [r])[k].ref| <= n
    ensures UsedSince(rows + [r], 0, direction, 1 - DAY_MS) == Times(n, piece) - debit
    ensures Bridged(rows + [r], 0, direction, 1, 1 + DAY_MS) == Times(n, piece)
  {
    UsedOfAppend(rows, r, 0, direction, 1 - DAY_MS);
    BridgedOfAppend(rows, r, 0, direction, 1, 1 + DAY_MS);
  }

  lemma RefillStart(p: Policy, direction: string, debit: real, piece: real)
    requires p.enabled && p.dailyCap.Some? && p.dailyCap.value >= 0.0 && debit > 0.0
    requires p.minAmount.Some? ==> p.minAmount.value <= -debit
    requires ReserveCovers(p.reserve, -debit, p.rate)
    ensures Refilled(Run(map[direction := p], Refill(direction, debit, piece, 0)), direction, debit, piece, 0)
  {
    var rows: seq<Request> := [];
    var r := NewRequest(map[direction := p], rows, 0, direction, -debit, 0, "");
    UsedOfAppend(rows, r, 0, direction, 1 - DAY_MS);
    BridgedOfAppend(rows, r, 0, direction, 1, 1 + DAY_MS);
    assert Refill(direction, debit, piece, 0)[..0] == [];
  }

  lemma {:induction false} RefillIsAccepted(p: Policy, direction: string, debit: real, piece: real, n: nat)
    requires p.enabled && p.dailyCap.Some? && p.dailyCap.value >= 0.0
    requires debit > 0.0 && piece >= 0.0
    requires ReserveCovers(p.reserve, -debit, p.rate) && ReserveCovers(p.reserve, piece, p.rate)
    requires p.minAmount.Some? ==> p.minAmount.value <= -debit
    requires Times(n, piece) <= p.dailyCap.value + debit
    ensures Refilled(Run(map[direction := p], Refill(direction, debit, piece, n)), direction, debit, piece, n)
  {
    if n == 0 {
      RefillStart(p, direction, debit, piece);
    } else {
      RefillIsAccepted(p, direction, debit, piece, n - 1);
      var asks := Refill(direction, debit, piece, n);
      assert asks[..n] == Refill(direction, debit, piece, n - 1);
      var rows := Run(map[direction := p], asks[..n]);
      RefillNext(p, direction, rows, debit, piece, n);
    }
  }

  lemma RefillNext(p: Policy, direction: string, rows: seq<Request>, debit: real, piece: real, n: nat)
    requires p.enabled && p.dailyCap.Some? && piece >= 0.0 && debit > 0.0 && n > 0
    requires ReserveCovers(p.reserve, piece, p.rate)
    requires p.minAmount.Some? ==> p.minAmount.value <= -debit
    requires Times(n, piece) <= p.dailyCap.value + debit
    requires Refilled(rows, direction, debit, piece, n - 1)
    ensures Refilled(Take(map[direction := p], rows, Ask(0, direction, piece, 1, Mark(n))), direction, debit, piece, n)
  {
    AcceptedIsAppended(p, direction, rows, Ask(0, direction, piece, 1, Mark(n)));
    AppendRefills(rows, Request(0, direction, piece, p.rate, Eligible, 1, Mark(n)), direction, debit, piece, n);
  }

  lemma UnsafePolicyBreaksCap(p: Policy, direction: string)
    requires p.enabled && p.dailyCap.Some? && p.dailyCap.value >= 0.0 && p.rate > 0.0
    requires !CapSafe(p)
    ensures !CapAlwaysHolds(p, direction)
  {
    var cap, most := p.dailyCap.value, p.reserve * p.rate;
    MulStrict(0.0, p.reserve, p.rate);
    var debit := if p.minAmount.Some? && -p.minAmount.value < most then -p.minAmount.value else most;
    var n := Pieces(cap + debit, most);
    var piece := (cap + debit) / n as real;
    assert n as real * piece == cap + debit;
    TimesIsProduct(n, piece);
    QuotientSign(piece, p.rate, p.reserve);
    QuotientSign(-debit, p.rate, p.reserve);
    RefillIsAccepted(p, direction, debit, piece, n);
    var asks := Refill(direction, debit, piece, n);
    assert !DayWithinCap(p, direction, asks, 0, 1);
  }

  /** Enough pieces that none is larger than `most`. */
  function Pieces(total: real, most: real): (n: nat)
    requires total > 0.0 && most > 0.0
    ensures n > 0 && total / n as real <= most
  {
    var n := (total / most).Floor + 1;
    assert total / most > 0.0;
    assert n as real >= total / most && n > 0;
    assert n as real * most >= total by {
      MulMono(total / most, n as real, most);
      assert total / most * most == total;
    }
    QuotientSign(total, n as real, most);
    n
  }

  /** For an active policy with a cap: no request pattern exceeds it in any day if and only if it is `CapSafe`. */
  lemma CapHoldsExactly(p: Policy, direction: string)
    requires p.enabled && p.dailyCap.Some? && p.dailyCap.value >= 0.0 && p.rate > 0.0
    ensures CapAlwaysHolds(p, direction) <==> CapSafe(p)
  {
    if CapSafe(p) {
      forall asks, user: nat, from | InOrder(asks) ensures DayWithinCap(p, direction, asks, user, from) {
        SafePolicyKeepsCap(p, direction, asks, user, from);
      }
    } else {
      UnsafePolicyBreaksCap(p, direction);
    }
  }

  // ---------------------------------------------------------------- the decision, field by field

  function Sum(xs: seq<real>): real {
    if xs == [] then 0.0 else Sum(xs[..|xs| - 1]) + xs[|xs| - 1]
  }

  lemma SumOfAppend(xs: seq<real>, x: real)
    ensures Sum(xs + [x]) == Sum(xs) + x
  {
    assert (xs + [x])[..|xs|] == xs;
  }

  /** What each row adds to a user's total in one direction over a window. */
  function Shares(rows: seq<Request>, user: nat, direction: string, from: int, to: Option<int>): (shares: seq<real>)
    ensures |shares| == |rows|
    ensures forall i | 0 <= i < |rows| ::
              shares[i] == if rows[i].user == user && rows[i].direction == direction
                              && (rows[i].status == Eligible || rows[i].status == Approved || rows[i].status == Executed)
                              && from <= rows[i].createdAt && (to.Some? ==> rows[i].createdAt <= to.value)
                           then rows[i].amount else 0.0
  {
    if rows == [] then []
    else
      var last := rows[|rows| - 1];
      var counts := last.user == user && last.direction == direction && last.status in {Eligible, Approved, Executed}
                    && from <= last.createdAt && (to.Some? ==> last.createdAt <= to.value);
      Shares(rows[..|rows| - 1], user, direction, from, to) + [if counts then last.amount else 0.0]
  }

  lemma {:induction false} UsedIsSum(rows: seq<Request>, user: nat, direction: string, from: int)
    ensures UsedSince(rows, user, direction, from) == Sum(Shares(rows, user, direction, from, None))
  {
    if rows != [] {
      var before := Shares(rows[..|rows| - 1], user, direction, from, None);
      UsedIsSum(rows[..|rows| - 1], user, direction, from);
      SumOfAppend(before, Shares(rows, user, direction, from, None)[|rows| - 1]);
    }
  }

  lemma {:induction false} BridgedIsSum(rows: seq<Request>, user: nat, direction: string, from: int, to: int)
    ensures Bridged(rows, user, direction, from, to) == Sum(Shares(rows, user, direction, from, Some(to)))
  {
    if rows != [] {
      var rest, last := rows[..|rows| - 1], rows[|rows| - 1];
      var before := Shares(rest, user, direction, from, Some(to));
      BridgedIsSum(rest, user, direction, from, to);
      SumOfAppend(before, Shares(rows, user, direction, from, Some(to))[|rest|]);
      assert rows == rest + [last];
      EntriesOfAppend(rest, last, user, direction);
      if Counts(last, user, direction) {
        BetweenOfAppend(Entries(rest, user, direction), Entry(last.createdAt, last.amount), from, to);
      } else {
        assert Entries(rest, user, direction) + [] == Entries(rest, user, direction);
      }
    }
  }

  /** `amount` units of the source draw `amount / rate` units of the reserve; this says without dividing whether it has them. */
  lemma ReserveExactly(reserve: real, amount: real, rate: real)
    ensures rate > 0.0 ==> (ReserveCovers(reserve, amount, rate) <==> amount <= reserve * rate)
    ensures rate < 0.0 ==> (ReserveCovers(reserve, amount, rate) <==> amount >= reserve * rate)
    ensures rate == 0.0 ==> (ReserveCovers(reserve, amount, rate) <==> amount <= 0.0)
  {
    if rate > 0.0 {
      QuotientSign(amount, rate, reserve);
    } else if rate < 0.0 {
      QuotientSign(-amount, -rate, reserve);
      assert amount / rate == (-amount) / (-rate);
    }
  }

  /**
   * A request is eligible exactly when its direction has an active policy, it is not below the
   * minimum, what the user was let bridge in the last 24 hours leaves room for it under the cap, and
   * the reserve has what it would draw. Its row repeats the request and quotes the policy's rate.
   */
  lemma EligibleExactly(policies: Policies, rows: seq<Request>, user: nat, direction: string, amount: real, now: int, ref: string)
    ensures var row := NewRequest(policies, rows, user, direction, amount, now, ref);
            && row == Request(user, direction, amount, if direction in policies then policies[direction].rate else 0.0, row.status, now, ref)
            && (row.status == Eligible || row.status == Ineligible)
            && (row.status == Eligible <==>
                  && direction in policies && policies[direction].enabled
                  && (policies[direction].minAmount.Some? ==> amount >= policies[direction].minAmount.value)
                  && (policies[direction].dailyCap.Some? ==>
                        Sum(Shares(rows, user, direction, now - 86_400_000, None)) + amount <= policies[direction].dailyCap.value)
                  && (if policies[direction].rate > 0.0 then amount <= policies[direction].reserve * policies[direction].rate
                      else if policies[direction].rate < 0.0 then amount >= policies[direction].reserve * policies[direction].rate
                      else amount <= 0.0))
  {
    UsedIsSum(rows, user, direction, now - 86_400_000);
    if direction in policies {
      ReserveExactly(policies[direction].reserve, amount, policies[direction].rate);
    }
  }

  /** The reason given is the first of the checks that fails. */
  lemma RefusedBecause(policies: Policies, rows: seq<Request>, user: nat, direction: string, amount: real, now: int)
    ensures var decision := CheckEligibility(policies, rows, user, direction, amount, now);
            && (decision == Refuse(NoPolicy) <==> direction !in policies)
            && (decision == Refuse(NotActive) <==> direction in policies && !policies[direction].enabled)
            && (decision == Refuse(BelowMinimum) <==>
                  && direction in policies && policies[direction].enabled
                  && policies[direction].minAmount.Some? && amount < policies[direction].minAmount.value)
            && (decision == Refuse(OverDailyCap) <==>
                  && direction in policies && policies[direction].enabled
                  && (policies[direction].minAmount.Some? ==> amount >= policies[direction].minAmount.value)
                  && policies[direction].dailyCap.Some?
                  && Sum(Shares(rows, user, direction, now - 86_400_000, None)) + amount > policies[direction].dailyCap.value)
  {
    UsedIsSum(rows, user, direction, now - 86_400_000);
  }

  /** With amounts that are not negative, what a user is let bridge in any 24 hours adds up to no more than the cap. */
  lemma AcceptedPerDay(policies: Policies, asks: seq<Ask>, user: nat, direction: string, from: int)
    requires InOrder(asks) && AsksNonNegative(asks, user, direction)
    requires direction in policies && policies[direction].dailyCap.Some? && policies[direction].dailyCap.value >= 0.0
    ensures Sum(Shares(Run(policies, asks), user, direction, from, Some(from + 86_400_000))) <= policies[direction].dailyCap.value
  {
    DailyCapHolds(policies, asks, user, direction, from);
    BridgedIsSum(Run(policies, asks), user, direction, from, from + 86_400_000);
  }
}
