/**
 * CRYNDY purchases: the presale site's webhook records each transaction once and walks it to the
 * stage it reports; summaries add purchases up by status. Purchases are in insertion order and a
 * purchase's id is its position.
 */
module Cryndy {
  import opened Wrappers

  datatype Status =
    | PaymentPending | PaymentConfirmed | UnderReview | Verified | Allocated
    | Locked | Available | DistributedOnChain | Cancelled | Refunded

  /** What was paid for a purchase, and how; only recorded. */
  datatype Payment = Payment(amountPaid: real, currency: string, packageName: Option<string>, paymentMethod: string)

  datatype Purchase = Purchase(
    reference: string, user: nat, transaction: string, payment: Payment, cryndy: real, bonus: real,
    status: Status, verifiedAt: Option<int>, allocatedAt: Option<int>)

  datatype Delivery = Delivery(
    transaction: string, ndyId: string, status: Status, payment: Payment, cryndy: real, bonus: Option<real>)

  datatype Receipt = Receipt(duplicate: bool, purchase: nat)

  datatype Error = UnknownNdyId | ReferenceTaken | NotVerifiable | NotAllocatable

  datatype Column = Reference | Transaction

  type Purchases = seq<Purchase>

  type Users = map<string, nat>

  const MAX_REFERENCE_ATTEMPTS := 5

  // ---------------------------------------------------------------- unique columns

  predicate ReferenceUsed(purchases: Purchases, reference: string) {
    exists i | 0 <= i < |purchases| :: purchases[i].reference == reference
  }

  function FindTransaction(purchases: Purchases, transaction: string): (k: Option<nat>)
    ensures k.Some? ==> k.value < |purchases| && purchases[k.value].transaction == transaction
    ensures k.None? ==> forall i | 0 <= i < |purchases| :: purchases[i].transaction != transaction
  {
    if purchases == [] then None
    else if purchases[|purchases| - 1].transaction == transaction then Some(|purchases| - 1)
    else FindTransaction(purchases[..|purchases| - 1], transaction)
  }

  /** The column an insert fails on, if it fails; the database may report either of two. */
  function Conflict(purchases: Purchases, reference: string, transaction: string, referenceFirst: bool): Option<Column> {
    var known := FindTransaction(purchases, transaction).Some?;
    if ReferenceUsed(purchases, reference) && (referenceFirst || !known) then Some(Reference)
    else if known then Some(Transaction)
    else None
  }

  // ---------------------------------------------------------------- whole calls

  function Stage(reported: Status): Status {
    if reported.Verified? || reported.Allocated? then reported else PaymentConfirmed
  }

  /** A new row at the stage its delivery reports. */
  function NewPurchase(d: Delivery, user: nat, reference: string, now: int): Purchase {
    Purchase(reference, user, d.transaction, d.payment, d.cryndy, if d.bonus.Some? then d.bonus.value else 0.0, Stage(d.status),
             if d.status.Verified? || d.status.Allocated? then Some(now) else None,
             if d.status.Allocated? then Some(now) else None)
  }

  /** The first attempt that does not fail on its reference; the candidates are random. */
  function Attempt(purchases: Purchases, transaction: string, references: seq<string>, referenceFirst: bool): (n: nat)
    ensures n <= |references|
    ensures n < |references| ==> Conflict(purchases, references[n], transaction, referenceFirst) != Some(Reference)
    ensures forall i | 0 <= i < n :: Conflict(purchases, references[i], transaction, referenceFirst) == Some(Reference)
  {
    if references == [] then 0
    else if Conflict(purchases, references[0], transaction, referenceFirst) != Some(Reference) then 0
    else 1 + Attempt(purchases, transaction, references[1..], referenceFirst)
  }

  function Webhook(users: Users, purchases: Purchases, d: Delivery, references: seq<string>, referenceFirst: bool, now: int)
    : (Purchases, Result<Receipt, Error>)
    requires |references| == MAX_REFERENCE_ATTEMPTS
  {
    if d.ndyId !in users then (purchases, Err(UnknownNdyId))
    else
      var n, known := Attempt(purchases, d.transaction, references, referenceFirst), FindTransaction(purchases, d.transaction);
      if n == |references| then (purchases, Err(ReferenceTaken))
      else if known.Some? then (purchases, Ok(Receipt(true, known.value)))
      else (purchases + [NewPurchase(d, users[d.ndyId], references[n], now)], Ok(Receipt(false, |purchases|)))
  }

  function MarkVerified(purchases: Purchases, id: nat, now: int): (Purchases, Result<Purchase, Error>) {
    if id >= |purchases| || !(purchases[id].status.PaymentConfirmed? || purchases[id].status.UnderReview?) then
      (purchases, Err(NotVerifiable))
    else
      var row := purchases[id].(status := Verified, verifiedAt := Some(now));
      (purchases[id := row], Ok(row))
  }

  function Allocate(purchases: Purchases, id: nat, now: int): (Purchases, Result<Purchase, Error>) {
    if id >= |purchases| || !purchases[id].status.Verified? then (purchases, Err(NotAllocatable))
    else
      var row := purchases[id].(status := Allocated, allocatedAt := Some(now));
      (purchases[id := row], Ok(row))
  }

  class CryndyService {
    const users: Users
    var purchases: Purchases

    constructor (users: Users)
      ensures this.users == users && purchases == []
    {
      this.users := users;
      purchases := [];
    }

    method CreatePurchase(user: nat, d: Delivery, references: seq<string>, referenceFirst: bool)
      returns (created: bool, id: Result<nat, Error>)
      requires |references| == MAX_REFERENCE_ATTEMPTS
      modifies this`purchases
      ensures var n := Attempt(old(purchases), d.transaction, references, referenceFirst);
              var known := FindTransaction(old(purchases), d.transaction);
              && (n == |references| ==> id == Err(ReferenceTaken))
              && (n < |references| && known.Some? ==> id == Ok(known.value))
              && (n < |references| && known.None? ==>
                    created && id == Ok(|old(purchases)|) && purchases == old(purchases) + [Confirmed(d, user, references[n])])
              && (created <==> n < |references| && known.None?)
              && (!created ==> purchases == old(purchases))
    {
      var attempt := 0;
      while attempt < MAX_REFERENCE_ATTEMPTS
        invariant attempt < MAX_REFERENCE_ATTEMPTS && purchases == old(purchases)
        invariant Attempt(purchases, d.transaction, references, referenceFirst)
               == attempt + Attempt(purchases, d.transaction, references[attempt..], referenceFirst)
      {
        var conflict := Conflict(purchases, references[attempt], d.transaction, referenceFirst);
        assert references[attempt..][1..] == references[attempt + 1..];
        if conflict == None {
          id := Ok(|purchases|);
          purchases := purchases + [Confirmed(d, user, references[attempt])];
          return true, id;
        }
        if conflict == Some(Reference) && attempt < MAX_REFERENCE_ATTEMPTS - 1 {
          attempt := attempt + 1;
          continue;
        }
        if conflict == Some(Transaction) {
          return false, Ok(FindTransaction(purchases, d.transaction).value);
        }
        return false, Err(ReferenceTaken);
      }
      assert false;
    }

    method HandlePurchaseWebhook(d: Delivery, references: seq<string>, referenceFirst: bool, now: int)
      returns (r: Result<Receipt, Error>)
      requires |references| == MAX_REFERENCE_ATTEMPTS
      modifies this`purchases
      ensures (purchases, r) == Webhook(users, old(purchases), d, references, referenceFirst, now)
    {
      if d.ndyId !in users {
        return Err(UnknownNdyId);
      }
      var created, id := CreatePurchase(users[d.ndyId], d, references, referenceFirst);
      var purchase :- id;
      if !created {
        return Ok(Receipt(true, purchase));
      }
      if d.status == Verified || d.status == Allocated {
        var verified := Verify(purchase, now);
        assert verified.Ok?;
      }
      if d.status == Allocated {
        var moved := AllocatePurchase(purchase, now);
        assert moved.Ok?;
      }
      assert purchases == old(purchases) + [purchases[purchase]];
      r := Ok(Receipt(false, purchase));
    }

    method Verify(id: nat, now: int) returns (r: Result<Purchase, Error>)
      modifies this`purchases
      ensures (purchases, r) == MarkVerified(old(purchases), id, now)
    {
      if id >= |purchases| || purchases[id].status !in {PaymentConfirmed, UnderReview} {
        return Err(NotVerifiable);
      }
      purchases := purchases[id := purchases[id].(status := Verified, verifiedAt := Some(now))];
      r := Ok(purchases[id]);
    }

    method AllocatePurchase(id: nat, now: int) returns (r: Result<Purchase, Error>)
      modifies this`purchases
      ensures (purchases, r) == Allocate(old(purchases), id, now)
    {
      if id >= |purchases| || purchases[id].status != Verified {
        return Err(NotAllocatable);
      }
      purchases := purchases[id := purchases[id].(status := Allocated, allocatedAt := Some(now))];
      r := Ok(purchases[id]);
    }
  }

  /** The row as inserted, before it is walked forward. */
  function Confirmed(d: Delivery, user: nat, reference: string): Purchase {
    Purchase(reference, user, d.transaction, d.payment, d.cryndy, if d.bonus.Some? then d.bonus.value else 0.0, PaymentConfirmed, None, None)
  }

  // ---------------------------------------------------------------- repeated deliveries

  datatype Arrival = Arrival(d: Delivery, references: seq<string>, referenceFirst: bool, now: int)

  function Deliver(users: Users, arrivals: seq<Arrival>): Purchases
    requires FiveCandidates(arrivals)
  {
    if arrivals == [] then []
    else
      var a := arrivals[|arrivals| - 1];
      Webhook(users, Deliver(users, arrivals[..|arrivals| - 1]), a.d, a.references, a.referenceFirst, a.now).0
  }

  predicate FiveCandidates(arrivals: seq<Arrival>) {
    forall i | 0 <= i < |arrivals| :: |arrivals[i].references| == MAX_REFERENCE_ATTEMPTS
  }

  predicate UniqueRows(purchases: Purchases) {
    forall i, j | 0 <= i < j < |purchases| ::
      purchases[i].transaction != purchases[j].transaction && purchases[i].reference != purchases[j].reference
  }

  /** A delivery adds its own row or nothing, and adds it exactly when it is not answered with an error or as a duplicate. */
  lemma WebhookAppends(users: Users, purchases: Purchases, a: Arrival)
    requires |a.references| == MAX_REFERENCE_ATTEMPTS
    ensures var (after, r) := Webhook(users, purchases, a.d, a.references, a.referenceFirst, a.now);
            if r.Ok? && !r.value.duplicate
            then a.d.ndyId in users && FindTransaction(purchases, a.d.transaction).None?
                 && exists n | 0 <= n < |a.references| :: !ReferenceUsed(purchases, a.references[n])
                      && after == purchases + [NewPurchase(a.d, users[a.d.ndyId], a.references[n], a.now)]
            else after == purchases
  {
    var n := Attempt(purchases, a.d.transaction, a.references, a.referenceFirst);
    if a.d.ndyId in users && n < |a.references| && FindTransaction(purchases, a.d.transaction).None? {
      assert !ReferenceUsed(purchases, a.references[n]);
    }
  }

  lemma {:induction false} RowsOnlyGrow(users: Users, arrivals: seq<Arrival>, n: nat)
    requires FiveCandidates(arrivals) && n <= |arrivals|
    ensures Deliver(users, arrivals[..n]) <= Deliver(users, arrivals)
  {
    if n == |arrivals| {
      assert arrivals[..n] == arrivals;
    } else {
      var before, a := arrivals[..|arrivals| - 1], arrivals[|arrivals| - 1];
      RowsOnlyGrow(users, before, n);
      assert before[..n] == arrivals[..n];
      WebhookAppends(users, Deliver(users, before), a);
    }
  }

  lemma NewRowIsUnique(purchases: Purchases, row: Purchase)
    requires UniqueRows(purchases) && FindTransaction(purchases, row.transaction).None? && !ReferenceUsed(purchases, row.reference)
    ensures UniqueRows(purchases + [row])
  {
  }

  lemma {:induction false} RowsAreUnique(users: Users, arrivals: seq<Arrival>)
    requires FiveCandidates(arrivals)
    ensures UniqueRows(Deliver(users, arrivals))
  {
    if arrivals != [] {
      var a, before := arrivals[|arrivals| - 1], Deliver(users, arrivals[..|arrivals| - 1]);
      RowsAreUnique(users, arrivals[..|arrivals| - 1]);
      WebhookAppends(users, before, a);
      if Deliver(users, arrivals) != before {
        var n :| 0 <= n < |a.references| && !ReferenceUsed(before, a.references[n])
                 && Deliver(users, arrivals) == before + [NewPurchase(a.d, users[a.d.ndyId], a.references[n], a.now)];
        NewRowIsUnique(before, NewPurchase(a.d, users[a.d.ndyId], a.references[n], a.now));
      }
    }
  }

  /** Row `k` is what arrival `i`, the first recorded one of its transaction, asked for. */
  predicate RecordedBy(users: Users, arrivals: seq<Arrival>, row: Purchase, i: nat)
    requires FiveCandidates(arrivals) && i < |arrivals|
  {
    var a := arrivals[i];
    && row.transaction == a.d.transaction && a.d.ndyId in users && row.user == users[a.d.ndyId]
    && row.payment == a.d.payment && row.cryndy == a.d.cryndy && row.bonus == (if a.d.bonus.None? then 0.0 else a.d.bonus.value)
    && (row.status == a.d.status <==> a.d.status in {PaymentConfirmed, Verified, Allocated})
    && (row.status != a.d.status ==> row.status == PaymentConfirmed)
    && (row.verifiedAt == if row.status in {Verified, Allocated} then Some(a.now) else None)
    && (row.allocatedAt == if row.status == Allocated then Some(a.now) else None)
    && row.reference in a.references
    && FindTransaction(Deliver(users, arrivals[..i]), a.d.transaction).None?
  }

  /**
   * Whatever is delivered how often: one row per transaction, with what its first recorded delivery
   * said, at the stage that reported if it is one of three and as a confirmed payment otherwise.
   */
  lemma {:induction false} OneRowPerTransaction(users: Users, arrivals: seq<Arrival>, k: nat)
    requires FiveCandidates(arrivals) && k < |Deliver(users, arrivals)|
    ensures UniqueRows(Deliver(users, arrivals))
    ensures exists i | 0 <= i < |arrivals| :: RecordedBy(users, arrivals, Deliver(users, arrivals)[k], i)
  {
    RowsAreUnique(users, arrivals);
    var m := |arrivals| - 1;
    var before, a := arrivals[..m], arrivals[m];
    WebhookAppends(users, Deliver(users, before), a);
    if k < |Deliver(users, before)| {
      OneRowPerTransaction(users, before, k);
      var i :| 0 <= i < |before| && RecordedBy(users, before, Deliver(users, before)[k], i);
      assert before[..i] == arrivals[..i];
      assert RecordedBy(users, arrivals, Deliver(users, arrivals)[k], i);
    } else {
      assert RecordedBy(users, arrivals, Deliver(users, arrivals)[k], m);
    }
  }

  /** A delivery for a known user with a free candidate reference is on record from then on. */
  lemma {:induction false} DeliveryIsRecorded(users: Users, arrivals: seq<Arrival>, i: nat)
    requires FiveCandidates(arrivals) && i < |arrivals| && arrivals[i].d.ndyId in users
    requires exists n | 0 <= n < MAX_REFERENCE_ATTEMPTS :: !ReferenceUsed(Deliver(users, arrivals[..i]), arrivals[i].references[n])
    ensures FindTransaction(Deliver(users, arrivals), arrivals[i].d.transaction).Some?
  {
    var before, a := Deliver(users, arrivals[..i]), arrivals[i];
    var after := Deliver(users, arrivals[..i + 1]);
    assert arrivals[..i + 1][..i] == arrivals[..i];
    RowsOnlyGrow(users, arrivals, i + 1);
    FreeReferenceIsFound(before, a);
    var k := FindTransaction(after, a.d.transaction).value;
    assert Deliver(users, arrivals)[k] == after[k];
  }

  lemma FreeReferenceIsFound(purchases: Purchases, a: Arrival)
    requires |a.references| == MAX_REFERENCE_ATTEMPTS
    requires exists n | 0 <= n < MAX_REFERENCE_ATTEMPTS :: !ReferenceUsed(purchases, a.references[n])
    ensures Attempt(purchases, a.d.transaction, a.references, a.referenceFirst) < MAX_REFERENCE_ATTEMPTS
  {
    var n :| 0 <= n < MAX_REFERENCE_ATTEMPTS && !ReferenceUsed(purchases, a.references[n]);
    assert Conflict(purchases, a.references[n], a.d.transaction, a.referenceFirst) != Some(Reference);
  }

  lemma OnlyRow(purchases: Purchases, k: nat)
    requires UniqueRows(purchases) && k < |purchases|
    ensures FindTransaction(purchases, purchases[k].transaction) == Some(k)
  {
  }

  /**
   * Once row `k` is on record for a transaction, every later delivery of it, whatever it reports,
   * changes nothing and is answered with that row, or with an error if it names no user or draws no
   * reference the database lets through.
   */
  lemma RepeatChangesNothing(users: Users, arrivals: seq<Arrival>, n: nat, k: nat, a: Arrival)
    requires FiveCandidates(arrivals) && |a.references| == MAX_REFERENCE_ATTEMPTS && n <= |arrivals|
    requires k < |Deliver(users, arrivals[..n])| && Deliver(users, arrivals[..n])[k].transaction == a.d.transaction
    ensures var table := Deliver(users, arrivals);
            var (after, r) := Webhook(users, table, a.d, a.references, a.referenceFirst, a.now);
            && after == table && k < |table| && table[k] == Deliver(users, arrivals[..n])[k]
            && (r == Ok(Receipt(true, k))
                || (r.Err? && (a.d.ndyId !in users
                               || forall i | 0 <= i < |a.references| :: ReferenceUsed(table, a.references[i]))))
  {
    var table := Deliver(users, arrivals);
    RowsOnlyGrow(users, arrivals, n);
    RowsAreUnique(users, arrivals);
    OnlyRow(table, k);
    var m := Attempt(table, a.d.transaction, a.references, a.referenceFirst);
    if m == |a.references| {
      forall i | 0 <= i < |a.references| ensures ReferenceUsed(table, a.references[i]) {
        assert Conflict(table, a.references[i], a.d.transaction, a.referenceFirst) == Some(Reference);
      }
    }
  }

  // ---------------------------------------------------------------- deliveries that die on the way

  /** Where the process handling a delivery dies, if it does: after the insert or after `markVerified`. */
  datatype Stop = AfterInsert | AfterVerify | Never

  datatype Try = Try(a: Arrival, stop: Stop)

  /** The tables a delivery leaves, write by write. */
  function Stopped(users: Users, purchases: Purchases, t: Try): Purchases
    requires |t.a.references| == MAX_REFERENCE_ATTEMPTS
  {
    var d, n := t.a.d, Attempt(purchases, t.a.d.transaction, t.a.references, t.a.referenceFirst);
    if d.ndyId !in users || n == |t.a.references| || FindTransaction(purchases, d.transaction).Some? then purchases
    else
      var inserted := purchases + [Confirmed(d, users[d.ndyId], t.a.references[n])];
      var verified := if d.status.Verified? || d.status.Allocated? then MarkVerified(inserted, |purchases|, t.a.now).0 else inserted;
      match t.stop
      case AfterInsert => inserted
      case AfterVerify => verified
      case Never => if d.status.Allocated? then Allocate(verified, |purchases|, t.a.now).0 else verified
  }

  /** The arrival that would have asked for no more than was done. */
  function Truncated(t: Try): Arrival {
    var status :=
      match t.stop
      case AfterInsert => PaymentConfirmed
      case AfterVerify => if t.a.d.status.Allocated? then Verified else t.a.d.status
      case Never => t.a.d.status;
    t.a.(d := t.a.d.(status := status))
  }

  /** A delivery that dies is a whole delivery of an earlier stage. */
  lemma StoppedIsTruncated(users: Users, purchases: Purchases, t: Try)
    requires |t.a.references| == MAX_REFERENCE_ATTEMPTS
    ensures var a := Truncated(t); Stopped(users, purchases, t) == Webhook(users, purchases, a.d, a.references, a.referenceFirst, a.now).0
  {
    var d, n := t.a.d, Attempt(purchases, t.a.d.transaction, t.a.references, t.a.referenceFirst);
    if d.ndyId in users && n < |t.a.references| && FindTransaction(purchases, d.transaction).None? {
      var row := NewPurchase(Truncated(t).d, users[d.ndyId], t.a.references[n], t.a.now);
      assert Stopped(users, purchases, t)[|purchases|] == row;
      assert Stopped(users, purchases, t) == purchases + [row];
    }
  }

  predicate FiveEach(tries: seq<Try>) {
    forall i | 0 <= i < |tries| :: |tries[i].a.references| == MAX_REFERENCE_ATTEMPTS
  }

  function Tries(users: Users, tries: seq<Try>): Purchases
    requires FiveEach(tries)
  {
    if tries == [] then [] else Stopped(users, Tries(users, tries[..|tries| - 1]), tries[|tries| - 1])
  }

  function Truncations(tries: seq<Try>): (arrivals: seq<Arrival>)
    ensures |arrivals| == |tries| && forall i | 0 <= i < |tries| :: arrivals[i] == Truncated(tries[i])
  {
    if tries == [] then [] else Truncations(tries[..|tries| - 1]) + [Truncated(tries[|tries| - 1])]
  }

  lemma {:induction false} TriesAreDeliveries(users: Users, tries: seq<Try>)
    requires FiveEach(tries)
    ensures Tries(users, tries) == Deliver(users, Truncations(tries))
  {
    if tries != [] {
      var before := tries[..|tries| - 1];
      TriesAreDeliveries(users, before);
      StoppedIsTruncated(users, Tries(users, before), tries[|tries| - 1]);
      assert Truncations(tries)[..|tries| - 1] == Truncations(before);
    }
  }

  /** The handling got as far as the stage the delivery reported. */
  predicate WentThrough(t: Try) {
    t.stop.Never? || !(t.a.d.status.Verified? || t.a.d.status.Allocated?) || (t.stop.AfterVerify? && t.a.d.status.Verified?)
  }

  /**
   * Over every run of deliveries, each of which may die on the way and be retried: a row is at the
   * stage its first recorded delivery asked for exactly when that delivery was not cut short before it.
   */
  lemma StageNeedsWholeDelivery(users: Users, tries: seq<Try>, k: nat) returns (i: nat)
    requires FiveEach(tries) && k < |Tries(users, tries)|
    ensures i < |tries| && RecordedBy(users, Truncations(tries), Tries(users, tries)[k], i)
    ensures Tries(users, tries)[k].status == Stage(tries[i].a.d.status) <==> WentThrough(tries[i])
  {
    TriesAreDeliveries(users, tries);
    OneRowPerTransaction(users, Truncations(tries), k);
    i :| 0 <= i < |tries| && RecordedBy(users, Truncations(tries), Tries(users, tries)[k], i);
  }

  lemma TruncationsOfPrefix(tries: seq<Try>, n: nat)
    requires n <= |tries|
    ensures Truncations(tries[..n]) == Truncations(tries)[..n]
  {
    forall i | 0 <= i < n ensures Truncations(tries[..n])[i] == Truncations(tries)[i] {
    }
  }

  /** A row stays as its first delivery left it, however often the transaction is delivered afterwards. */
  lemma RetriesDoNotRepair(users: Users, tries: seq<Try>, n: nat, k: nat)
    requires FiveEach(tries) && n <= |tries| && k < |Tries(users, tries[..n])|
    ensures k < |Tries(users, tries)| && Tries(users, tries)[k] == Tries(users, tries[..n])[k]
  {
    TriesAreDeliveries(users, tries);
    TriesAreDeliveries(users, tries[..n]);
    TruncationsOfPrefix(tries, n);
    RowsOnlyGrow(users, Truncations(tries), n);
  }

  /** An allocated purchase whose first delivery died after the insert is a confirmed payment, whatever is delivered later. */
  lemma StoppedForGood(users: Users, a: Arrival, more: seq<Try>)
    requires |a.references| == MAX_REFERENCE_ATTEMPTS && FiveEach(more) && a.d.ndyId in users && a.d.status.Allocated?
    ensures FiveEach([Try(a, AfterInsert)] + more)
    ensures var table := Tries(users, [Try(a, AfterInsert)] + more);
            |table| > 0 && table[0].transaction == a.d.transaction && table[0].status == PaymentConfirmed
  {
    var tries := [Try(a, AfterInsert)] + more;
    assert tries[..1] == [Try(a, AfterInsert)];
    assert [Try(a, AfterInsert)][..0] == [];
    assert Conflict([], a.references[0], a.d.transaction, a.referenceFirst) == None;
    RetriesDoNotRepair(users, tries, 1, 0);
  }

  // ---------------------------------------------------------------- moving forward

  datatype Move = Arrives(a: Arrival) | Verifies(id: nat, now: int) | Allocates(id: nat, now: int)

  function Make(users: Users, purchases: Purchases, move: Move): Purchases {
    match move
    case Arrives(a) =>
      if |a.references| == MAX_REFERENCE_ATTEMPTS then Webhook(users, purchases, a.d, a.references, a.referenceFirst, a.now).0 else purchases
    case Verifies(id, now) => MarkVerified(purchases, id, now).0
    case Allocates(id, now) => Allocate(purchases, id, now).0
  }

  function Run(users: Users, purchases: Purchases, moves: seq<Move>): Purchases
    decreases moves
  {
    if moves == [] then purchases else Run(users, Make(users, purchases, moves[0]), moves[1..])
  }

  /** PAYMENT_CONFIRMED or UNDER_REVIEW, then VERIFIED, then ALLOCATED; no other status is left or entered. */
  predicate Forward(from: Status, to: Status) {
    from == to || ((from.PaymentConfirmed? || from.UnderReview?) && (to.Verified? || to.Allocated?)) || (from.Verified? && to.Allocated?)
  }

  predicate SamePurchase(was: Purchase, now: Purchase) {
    && Forward(was.status, now.status)
    && now == was.(status := now.status, verifiedAt := now.verifiedAt, allocatedAt := now.allocatedAt)
    && (now.status == was.status ==> now == was)
  }

  /** From any table, over any run: rows are never removed or renamed, and a status only moves forward. */
  lemma {:induction false} StatusesMoveForward(users: Users, purchases: Purchases, moves: seq<Move>, k: nat)
    requires k < |purchases|
    ensures k < |Run(users, purchases, moves)| && SamePurchase(purchases[k], Run(users, purchases, moves)[k])
    decreases moves
  {
    if moves != [] {
      var next := Make(users, purchases, moves[0]);
      MakeMovesForward(users, purchases, moves[0], k);
      StatusesMoveForward(users, next, moves[1..], k);
    }
  }

  lemma MakeMovesForward(users: Users, purchases: Purchases, move: Move, k: nat)
    requires k < |purchases|
    ensures k < |Make(users, purchases, move)| && SamePurchase(purchases[k], Make(users, purchases, move)[k])
  {
  }

  lemma {:induction false} RunOfAppend(users: Users, purchases: Purchases, moves: seq<Move>, last: Move)
    ensures Run(users, purchases, moves + [last]) == Make(users, Run(users, purchases, moves), last)
    decreases moves
  {
    var more := moves + [last];
    if moves == [] {
      assert more[1..] == [];
    } else {
      assert more[1..] == moves[1..] + [last];
      RunOfAppend(users, Make(users, purchases, moves[0]), moves[1..], last);
    }
  }

  function ArrivalsOnly(arrivals: seq<Arrival>): seq<Move> {
    if arrivals == [] then [] else ArrivalsOnly(arrivals[..|arrivals| - 1]) + [Arrives(arrivals[|arrivals| - 1])]
  }

  /** A run of deliveries alone is what the theorems about repeated deliveries speak of. */
  lemma {:induction false} RunOfArrivals(users: Users, arrivals: seq<Arrival>)
    requires FiveCandidates(arrivals)
    ensures Run(users, [], ArrivalsOnly(arrivals)) == Deliver(users, arrivals)
  {
    if arrivals != [] {
      var before := arrivals[..|arrivals| - 1];
      RunOfArrivals(users, before);
      RunOfAppend(users, [], ArrivalsOnly(before), Arrives(arrivals[|arrivals| - 1]));
    }
  }

  /** A row carries the times of the stages it has been through, and only those. */
  predicate Dated(p: Purchase) {
    && (p.status == PaymentConfirmed || p.status == Verified || p.status == Allocated)
    && (p.verifiedAt.Some? <==> p.status != PaymentConfirmed)
    && (p.allocatedAt.Some? <==> p.status == Allocated)
  }

  predicate AllDated(purchases: Purchases) {
    forall k | 0 <= k < |purchases| :: Dated(purchases[k])
  }

  lemma {:induction false} DatesFollowStages(users: Users, purchases: Purchases, moves: seq<Move>)
    requires AllDated(purchases)
    ensures AllDated(Run(users, purchases, moves))
    decreases moves
  {
    if moves != [] {
      DatesFollowStages(users, Make(users, purchases, moves[0]), moves[1..]);
    }
  }

  // ---------------------------------------------------------------- summaries

  datatype Bucket = Bucket(count: nat, amount: real)

  const STATUSES: seq<Status> := [
    PaymentPending, PaymentConfirmed, UnderReview, Verified, Allocated,
    Locked, Available, DistributedOnChain, Cancelled, Refunded]

  predicate Spendable(status: Status) {
    status == Available || status == DistributedOnChain
  }

  function Total(p: Purchase): real {
    p.cryndy + p.bonus
  }

  function CountIn(purchases: Purchases, status: Status): nat {
    if purchases == [] then 0
    else
      var last := purchases[|purchases| - 1];
      CountIn(purchases[..|purchases| - 1], status) + if last.status == status then 1 else 0
  }

  function AmountIn(purchases: Purchases, status: Status): real {
    if purchases == [] then 0.0
    else
      var last := purchases[|purchases| - 1];
      AmountIn(purchases[..|purchases| - 1], status) + if last.status == status then Total(last) else 0.0
  }

  function AmountOf(purchases: Purchases): real {
    if purchases == [] then 0.0
    else
      AmountOf(purchases[..|purchases| - 1]) + Total(purchases[|purchases| - 1])
  }

  /** `getUserSummary`, over the user's purchases in the order the query returns them. */
  method GetUserSummary(purchases: Purchases) returns (available: real, breakdown: map<Status, Bucket>)
    ensures forall s :: s in breakdown && breakdown[s] == Bucket(CountIn(purchases, s), AmountIn(purchases, s))
    ensures available == AmountIn(purchases, Available) + AmountIn(purchases, DistributedOnChain)
  {
    breakdown := map s | s in STATUSES :: Bucket(0, 0.0);
    AllStatuses();
    available := 0.0;
    var i := 0;
    while i < |purchases|
      invariant i <= |purchases|
      invariant forall s :: s in breakdown && breakdown[s] == Bucket(CountIn(purchases[..i], s), AmountIn(purchases[..i], s))
      invariant available == AmountIn(purchases[..i], Available) + AmountIn(purchases[..i], DistributedOnChain)
    {
      var purchase := purchases[i];
      var total := Total(purchase);
      var bucket := breakdown[purchase.status];
      breakdown := breakdown[purchase.status := Bucket(bucket.count + 1, bucket.amount + total)];
      if Spendable(purchase.status) {
        available := available + total;
      }
      assert purchases[..i + 1][..i] == purchases[..i];
      i := i + 1;
    }
    assert purchases[..i] == purchases;
  }

  lemma AllStatuses()
    ensures forall s: Status :: s in STATUSES
  {
    forall s: Status ensures s in STATUSES {
      match s {
        case PaymentPending => assert STATUSES[0] == s;
        case PaymentConfirmed => assert STATUSES[1] == s;
        case UnderReview => assert STATUSES[2] == s;
        case Verified => assert STATUSES[3] == s;
        case Allocated => assert STATUSES[4] == s;
        case Locked => assert STATUSES[5] == s;
        case Available => assert STATUSES[6] == s;
        case DistributedOnChain => assert STATUSES[7] == s;
        case Cancelled => assert STATUSES[8] == s;
        case Refunded => assert STATUSES[9] == s;
      }
    }
  }

  /** The admin view: filter to the spendable purchases, then sum. */
  function AdminAvailable(purchases: Purchases): real {
    AmountOf(SpendableOf(purchases))
  }

  function SpendableOf(purchases: Purchases): Purchases {
    if purchases == [] then []
    else
      var last := purchases[|purchases| - 1];
      SpendableOf(purchases[..|purchases| - 1]) + if Spendable(last.status) then [last] else []
  }

  /** Buckets added up in the order of `STATUSES`. */
  function CountOver(purchases: Purchases, statuses: seq<Status>): nat {
    if statuses == [] then 0 else CountIn(purchases, statuses[0]) + CountOver(purchases, statuses[1..])
  }

  function AmountOver(purchases: Purchases, statuses: seq<Status>): real {
    if statuses == [] then 0.0 else AmountIn(purchases, statuses[0]) + AmountOver(purchases, statuses[1..])
  }

  predicate Distinct(statuses: seq<Status>) {
    forall i, j | 0 <= i < j < |statuses| :: statuses[i] != statuses[j]
  }

  lemma {:induction false} OnePurchaseMore(before: Purchases, p: Purchase, statuses: seq<Status>)
    requires Distinct(statuses)
    ensures CountOver(before + [p], statuses) == CountOver(before, statuses) + if p.status in statuses then 1 else 0
    ensures AmountOver(before + [p], statuses) == AmountOver(before, statuses) + if p.status in statuses then Total(p) else 0.0
  {
    if statuses != [] {
      OnePurchaseMore(before, p, statuses[1..]);
      assert (before + [p])[..|before|] == before;
      assert statuses == [statuses[0]] + statuses[1..];
      assert p.status == statuses[0] ==> p.status !in statuses[1..];
    }
  }

  lemma {:induction false} NoPurchases(statuses: seq<Status>)
    ensures CountOver([], statuses) == 0 && AmountOver([], statuses) == 0.0
  {
    if statuses != [] {
      NoPurchases(statuses[1..]);
    }
  }

  /** The buckets of a summary add up to all the purchases, in number and in amount. */
  lemma {:induction false} BucketsAddUp(purchases: Purchases)
    ensures CountOver(purchases, STATUSES) == |purchases|
    ensures AmountOver(purchases, STATUSES) == AmountOf(purchases)
  {
    AllStatuses();
    BucketsAddUpOver(purchases, STATUSES);
  }

  lemma {:induction false} BucketsAddUpOver(purchases: Purchases, statuses: seq<Status>)
    requires Distinct(statuses) && forall s: Status :: s in statuses
    ensures CountOver(purchases, statuses) == |purchases|
    ensures AmountOver(purchases, statuses) == AmountOf(purchases)
  {
    if purchases == [] {
      NoPurchases(statuses);
    } else {
      var before, p := purchases[..|purchases| - 1], purchases[|purchases| - 1];
      BucketsAddUpOver(before, statuses);
      assert before + [p] == purchases;
      OnePurchaseMore(before, p, statuses);
    }
  }

  lemma AmountOfAppend(a: Purchases, p: Purchase)
    ensures AmountOf(a + [p]) == AmountOf(a) + Total(p)
  {
    assert (a + [p])[..|a|] == a;
  }

  /** The admin's fold over the spendable purchases is the summary's two spendable buckets. */
  lemma {:induction false} SpendableIsTwoBuckets(purchases: Purchases)
    ensures AdminAvailable(purchases) == AmountIn(purchases, Available) + AmountIn(purchases, DistributedOnChain)
  {
    if purchases != [] {
      SpendableIsTwoBuckets(purchases[..|purchases| - 1]);
      AdminOfLast(purchases);
    }
  }

  lemma AdminOfLast(purchases: Purchases)
    requires purchases != []
    ensures var p := purchases[|purchases| - 1];
            AdminAvailable(purchases) == AdminAvailable(purchases[..|purchases| - 1]) + if Spendable(p.status) then Total(p) else 0.0
  {
    var before, p := purchases[..|purchases| - 1], purchases[|purchases| - 1];
    AmountOfAppend(SpendableOf(before), p);
    assert SpendableOf(before) + [] == SpendableOf(before);
  }

  lemma {:induction false} AmountOfConcat(a: Purchases, b: Purchases)
    ensures AmountOf(a + b) == AmountOf(a) + AmountOf(b)
  {
    if b == [] {
      assert a + b == a;
    } else {
      AmountOfConcat(a, b[..|b| - 1]);
      assert (a + b)[..|a + b| - 1] == a + b[..|b| - 1];
    }
  }

  lemma Extracted(front: Purchases, p: Purchase, back: Purchases)
    ensures AmountOf(front + [p] + back) == AmountOf(front + back) + Total(p)
  {
    AmountOfConcat(front + [p], back);
    AmountOfAppend(front, p);
    AmountOfConcat(front, back);
  }

  /** Where `b`, a rearrangement of a list that ends with `p`, has that `p`. */
  lemma FindLast(before: Purchases, p: Purchase, b: Purchases) returns (front: Purchases, back: Purchases)
    requires multiset(before + [p]) == multiset(b)
    ensures b == front + [p] + back && multiset(before) == multiset(front + back)
  {
    assert p in multiset(b);
    var k :| 0 <= k < |b| && b[k] == p;
    front, back := b[..k], b[k + 1..];
    assert b == front + [p] + back;
    assert multiset(b) == multiset(front + back) + multiset{p};
    assert multiset(before) == multiset(before + [p]) - multiset{p};
  }

  /** The amount does not depend on the order the query returns the rows in. */
  lemma {:induction false} AmountOfPermutation(a: Purchases, b: Purchases)
    requires multiset(a) == multiset(b)
    ensures AmountOf(a) == AmountOf(b)
  {
    if a == [] {
      assert |multiset(b)| == 0;
    } else {
      var before, p := a[..|a| - 1], a[|a| - 1];
      assert a == before + [p];
      var front, back := FindLast(before, p, b);
      AmountOfPermutation(before, front + back);
      Extracted(front, p, back);
    }
  }

  lemma {:induction false} SpendableOfConcat(a: Purchases, b: Purchases)
    ensures SpendableOf(a + b) == SpendableOf(a) + SpendableOf(b)
  {
    if b == [] {
      assert a + b == a;
    } else {
      SpendableOfConcat(a, b[..|b| - 1]);
      assert (a + b)[..|a + b| - 1] == a + b[..|b| - 1];
    }
  }

  lemma SpendableExtracted(front: Purchases, p: Purchase, back: Purchases)
    ensures multiset(SpendableOf(front + [p] + back)) == multiset(SpendableOf(front + back)) + multiset(SpendableOf([p]))
  {
    SpendableOfConcat(front + [p], back);
    SpendableOfConcat(front, [p]);
    SpendableOfConcat(front, back);
  }

  lemma {:induction false} SpendableOfPermutation(a: Purchases, b: Purchases)
    requires multiset(a) == multiset(b)
    ensures multiset(SpendableOf(a)) == multiset(SpendableOf(b))
  {
    if a == [] {
      assert |multiset(b)| == 0;
    } else {
      var before, p := a[..|a| - 1], a[|a| - 1];
      assert a == before + [p];
      var front, back := FindLast(before, p, b);
      SpendableOfPermutation(before, front + back);
      SpendableExtracted(front, p, back);
      SpendableOfConcat(before, [p]);
    }
  }

  /** The summary, the admin view and the userinfo claim agree, whatever order each query returns the rows in. */
  lemma ViewsAgree(rows: Purchases, summary: Purchases, admin: Purchases, userinfo: Purchases)
    requires multiset(summary) == multiset(rows) && multiset(admin) == multiset(rows)
    requires multiset(userinfo) == multiset(SpendableOf(rows))
    ensures AmountIn(summary, Available) + AmountIn(summary, DistributedOnChain) == AdminAvailable(admin) == AmountOf(userinfo)
  {
    SpendableIsTwoBuckets(summary);
    SpendableOfPermutation(summary, rows);
    SpendableOfPermutation(admin, rows);
    AmountOfPermutation(SpendableOf(summary), userinfo);
    AmountOfPermutation(SpendableOf(admin), userinfo);
  }

  // ---------------------------------------------------------------- amounts, column by column

  function Sum(xs: seq<real>): real {
    if xs == [] then 0.0 else Sum(xs[..|xs| - 1]) + xs[|xs| - 1]
  }

  lemma SumOfAppend(xs: seq<real>, x: real)
    ensures Sum(xs + [x]) == Sum(xs) + x
  {
    assert (xs + [x])[..|xs|] == xs;
  }

  /** The purchases with one of these statuses; the `cryndy` and `bonus` columns of some purchases. */
  function With(purchases: Purchases, statuses: set<Status>): Purchases {
    if purchases == [] then []
    else
      var last := purchases[|purchases| - 1];
      With(purchases[..|purchases| - 1], statuses) + if last.status in statuses then [last] else []
  }

  function Bought(purchases: Purchases): (column: seq<real>)
    ensures |column| == |purchases| && forall i | 0 <= i < |purchases| :: column[i] == purchases[i].cryndy
  {
    seq(|purchases|, i requires 0 <= i < |purchases| => purchases[i].cryndy)
  }

  function Extra(purchases: Purchases): (column: seq<real>)
    ensures |column| == |purchases| && forall i | 0 <= i < |purchases| :: column[i] == purchases[i].bonus
  {
    seq(|purchases|, i requires 0 <= i < |purchases| => purchases[i].bonus)
  }

  lemma ColumnsOfAppend(purchases: Purchases, p: Purchase)
    ensures Sum(Bought(purchases + [p])) == Sum(Bought(purchases)) + p.cryndy
    ensures Sum(Extra(purchases + [p])) == Sum(Extra(purchases)) + p.bonus
  {
    assert Bought(purchases + [p]) == Bought(purchases) + [p.cryndy];
    assert Extra(purchases + [p]) == Extra(purchases) + [p.bonus];
    SumOfAppend(Bought(purchases), p.cryndy);
    SumOfAppend(Extra(purchases), p.bonus);
  }

  /** An amount is what was bought plus the bonus. */
  lemma {:induction false} AmountIsTwoColumns(purchases: Purchases)
    ensures AmountOf(purchases) == Sum(Bought(purchases)) + Sum(Extra(purchases))
  {
    if purchases != [] {
      var before, p := purchases[..|purchases| - 1], purchases[|purchases| - 1];
      AmountIsTwoColumns(before);
      assert purchases == before + [p];
      ColumnsOfAppend(before, p);
    }
  }

  /** A bucket counts the purchases with its status and adds up both their columns. */
  lemma {:induction false} BucketIsTwoColumns(purchases: Purchases, status: Status)
    ensures CountIn(purchases, status) == |With(purchases, {status})|
    ensures AmountIn(purchases, status) == Sum(Bought(With(purchases, {status}))) + Sum(Extra(With(purchases, {status})))
  {
    if purchases != [] {
      var before, p := purchases[..|purchases| - 1], purchases[|purchases| - 1];
      BucketIsTwoColumns(before, status);
      if p.status == status {
        ColumnsOfAppend(With(before, {status}), p);
      } else {
        assert With(purchases, {status}) == With(before, {status});
      }
    }
  }

  /** What is available is bought plus bonus over the purchases that are available or distributed on chain. */
  lemma AvailableIsTwoColumns(purchases: Purchases)
    ensures var spendable := With(purchases, {Available, DistributedOnChain});
            && AdminAvailable(purchases) == Sum(Bought(spendable)) + Sum(Extra(spendable))
            && AmountIn(purchases, Available) + AmountIn(purchases, DistributedOnChain) == Sum(Bought(spendable)) + Sum(Extra(spendable))
  {
    SpendableIsWith(purchases);
    AmountIsTwoColumns(SpendableOf(purchases));
    SpendableIsTwoBuckets(purchases);
  }

  lemma {:induction false} SpendableIsWith(purchases: Purchases)
    ensures SpendableOf(purchases) == With(purchases, {Available, DistributedOnChain})
  {
    if purchases != [] {
      SpendableIsWith(purchases[..|purchases| - 1]);
    }
  }

  // ---------------------------------------------------------------- one delivery, field by field

  /** The first candidate that is not taken. */
  predicate FirstFree(taken: set<string>, references: seq<string>, n: nat) {
    n < |references| && references[n] !in taken && forall i | 0 <= i < n :: references[i] in taken
  }

  lemma TakenReferences(purchases: Purchases, reference: string)
    ensures reference in (set i | 0 <= i < |purchases| :: purchases[i].reference) <==> ReferenceUsed(purchases, reference)
  {
  }

  /**
   * A new transaction of a known user becomes a row, under the first candidate reference that is
   * not in use, at the stage the delivery reports if that is VERIFIED or ALLOCATED and as a
   * confirmed payment otherwise.
   */
  lemma NewTransactionExactly(users: Users, purchases: Purchases, d: Delivery, references: seq<string>, referenceFirst: bool, now: int)
    requires |references| == MAX_REFERENCE_ATTEMPTS && d.ndyId in users
    requires forall i | 0 <= i < |purchases| :: purchases[i].transaction != d.transaction
    ensures var (after, r) := Webhook(users, purchases, d, references, referenceFirst, now);
            var taken := set i | 0 <= i < |purchases| :: purchases[i].reference;
            if forall i | 0 <= i < 5 :: references[i] in taken then r == Err(ReferenceTaken) && after == purchases
            else
              && r == Ok(Receipt(false, |purchases|))
              && exists n: nat ::
                   && FirstFree(taken, references, n)
                   && after == purchases + [Purchase(
                        references[n], users[d.ndyId], d.transaction, d.payment, d.cryndy, if d.bonus == None then 0.0 else d.bonus.value,
                        if d.status == Verified || d.status == Allocated then d.status else PaymentConfirmed,
                        if d.status == Verified || d.status == Allocated then Some(now) else None,
                        if d.status == Allocated then Some(now) else None)]
  {
    var taken := set i | 0 <= i < |purchases| :: purchases[i].reference;
    var n := Attempt(purchases, d.transaction, references, referenceFirst);
    forall i | 0 <= i < 5
      ensures Conflict(purchases, references[i], d.transaction, referenceFirst) == Some(Reference) <==> references[i] in taken
    {
      TakenReferences(purchases, references[i]);
    }
    if n < 5 {
      assert FirstFree(taken, references, n);
    }
  }

  /**
   * Any other delivery changes nothing: an unknown user is refused, and a transaction on record is
   * answered with its row, unless the database reports the used references first and all five are.
   */
  lemma OtherDeliveriesExactly(users: Users, purchases: Purchases, d: Delivery, references: seq<string>, referenceFirst: bool, now: int)
    requires |references| == MAX_REFERENCE_ATTEMPTS
    requires d.ndyId in users ==> exists k | 0 <= k < |purchases| :: purchases[k].transaction == d.transaction
    ensures var (after, r) := Webhook(users, purchases, d, references, referenceFirst, now);
            var taken := set i | 0 <= i < |purchases| :: purchases[i].reference;
            && after == purchases
            && (if d.ndyId !in users then r == Err(UnknownNdyId)
                else if referenceFirst && forall i | 0 <= i < 5 :: references[i] in taken then r == Err(ReferenceTaken)
                else r.Ok? && r.value.duplicate && r.value.purchase < |purchases| && purchases[r.value.purchase].transaction == d.transaction)
  {
    var taken := set i | 0 <= i < |purchases| :: purchases[i].reference;
    if d.ndyId in users {
      forall i | 0 <= i < 5
        ensures Conflict(purchases, references[i], d.transaction, referenceFirst) == Some(Reference)
           <==> referenceFirst && references[i] in taken
      {
        TakenReferences(purchases, references[i]);
      }
    }
  }

  /** A purchase is verified from PAYMENT_CONFIRMED or UNDER_REVIEW and allocated from VERIFIED, with the time of the change; nothing else moves it. */
  lemma TransitionsExactly(purchases: Purchases, id: nat, now: int)
    ensures var (after, r) := MarkVerified(purchases, id, now);
            if id < |purchases| && (purchases[id].status == PaymentConfirmed || purchases[id].status == UnderReview) then
              r == Ok(after[id]) && after == purchases[id := purchases[id].(status := Verified, verifiedAt := Some(now))]
            else r == Err(NotVerifiable) && after == purchases
    ensures var (after, r) := Allocate(purchases, id, now);
            if id < |purchases| && purchases[id].status == Verified then
              r == Ok(after[id]) && after == purchases[id := purchases[id].(status := Allocated, allocatedAt := Some(now))]
            else r == Err(NotAllocatable) && after == purchases
  {
  }
}
