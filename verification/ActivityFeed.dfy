/**
 * The dashboard's recent activity: four tables are each cut to their twenty newest rows, turned
 * into items, merged, sorted and cut again. The database may order rows of equal age as it likes.
 */
module ActivityFeed {
  import opened Wrappers

  datatype Row =
    | SecurityEvent(id: string, createdAt: int)
    | CryndyPurchase(id: string, createdAt: int)
    | LedgerEntry(id: string, createdAt: int)
    | Membership(id: string, createdAt: int, cancelledAt: Option<int>)

  datatype Kind = Security | Purchase | Ndybits | MembershipStarted | MembershipCancelled

  datatype Item = Item(kind: Kind, id: string, at: int)

  const LIMIT := 20

  // ---------------------------------------------------------------- rows and items

  /** A cancelled membership is two items, the second one at its own time. */
  function ItemsOf(row: Row): seq<Item> {
    match row
    case SecurityEvent(id, at) => [Item(Security, id, at)]
    case CryndyPurchase(id, at) => [Item(Purchase, id, at)]
    case LedgerEntry(id, at) => [Item(Ndybits, id, at)]
    case Membership(id, at, cancelled) =>
      [Item(MembershipStarted, id, at)] + if cancelled.Some? then [Item(MembershipCancelled, id, cancelled.value)] else []
  }

  function Items(rows: seq<Row>): seq<Item> {
    if rows == [] then [] else ItemsOf(rows[0]) + Items(rows[1..])
  }

  lemma ItemsCons(a: seq<Row>, b: seq<Row>)
    requires a != []
    ensures Items(a + b) == ItemsOf(a[0]) + Items(a[1..] + b)
  {
    assert (a + b)[1..] == a[1..] + b;
  }

  lemma Reassociate(x: seq<Item>, y: seq<Item>, z: seq<Item>)
    ensures x + (y + z) == (x + y) + z
  {
  }

  lemma {:induction false} ItemsOfConcat(a: seq<Row>, b: seq<Row>)
    ensures Items(a + b) == Items(a) + Items(b)
  {
    if a == [] {
      assert a + b == b;
    } else {
      ItemsOfConcat(a[1..], b);
      ItemsCons(a, b);
      Reassociate(ItemsOf(a[0]), Items(a[1..]), Items(b));
    }
  }

  lemma ItemsWithout(rows: seq<Row>, k: nat)
    requires k < |rows|
    ensures multiset(Items(rows)) == multiset(ItemsOf(rows[k])) + multiset(Items(rows[..k] + rows[k + 1..]))
  {
    assert rows == rows[..k] + rows[k..];
    ItemsOfConcat(rows[..k], rows[k..]);
    ItemsOfConcat(rows[..k], rows[k + 1..]);
    assert rows[k..][1..] == rows[k + 1..];
  }

  lemma RowsWithout(rows: seq<Row>, k: nat)
    requires k < |rows|
    ensures multiset(rows[..k] + rows[k + 1..]) == multiset(rows) - multiset{rows[k]}
  {
    assert rows == rows[..k] + [rows[k]] + rows[k + 1..];
  }

  lemma {:induction false} ItemsOfPermutation(a: seq<Row>, b: seq<Row>)
    requires multiset(a) == multiset(b)
    ensures multiset(Items(a)) == multiset(Items(b))
  {
    if a == [] {
      assert |multiset(b)| == 0;
    } else {
      assert a[0] in multiset(b);
      var k :| 0 <= k < |b| && b[k] == a[0];
      assert a[..0] + a[1..] == a[1..];
      RowsWithout(a, 0);
      RowsWithout(b, k);
      ItemsOfPermutation(a[1..], b[..k] + b[k + 1..]);
      ItemsWithout(a, 0);
      ItemsWithout(b, k);
    }
  }

  // ---------------------------------------------------------------- the sort

  predicate NewestFirst(items: seq<Item>) {
    forall i, j | 0 <= i < j < |items| :: items[i].at >= items[j].at
  }

  /** Behind everything that is as new: the sort is stable. */
  function InsertItem(items: seq<Item>, x: Item): (r: seq<Item>)
    ensures multiset(r) == multiset(items) + multiset{x}
  {
    if items == [] then [x]
    else
      var last := items[|items| - 1];
      assert items == items[..|items| - 1] + [last];
      if last.at >= x.at then items + [x] else InsertItem(items[..|items| - 1], x) + [last]
  }

  function Sort(items: seq<Item>): (r: seq<Item>)
    ensures multiset(r) == multiset(items)
    ensures |r| == |items|
  {
    if items == [] then []
    else
      var before, last := items[..|items| - 1], items[|items| - 1];
      assert items == before + [last];
      var r := InsertItem(Sort(before), last);
      assert |multiset(r)| == |r|;
      r
  }

  lemma {:induction false} InsertKeepsNewestFirst(items: seq<Item>, x: Item)
    requires NewestFirst(items)
    ensures NewestFirst(InsertItem(items, x))
  {
    if items != [] && items[|items| - 1].at < x.at {
      var before, last := items[..|items| - 1], items[|items| - 1];
      InsertKeepsNewestFirst(before, x);
      var r := InsertItem(before, x);
      forall i | 0 <= i < |r| ensures r[i].at >= last.at {
        assert r[i] in multiset(r);
        if r[i] != x {
          assert r[i] in multiset(before);
        }
      }
    }
  }

  lemma {:induction false} SortIsNewestFirst(items: seq<Item>)
    ensures NewestFirst(Sort(items))
  {
    if items != [] {
      SortIsNewestFirst(items[..|items| - 1]);
      InsertKeepsNewestFirst(Sort(items[..|items| - 1]), items[|items| - 1]);
    }
  }

  /** The items of one moment, in the order they come. */
  function At(items: seq<Item>, t: int): seq<Item> {
    if items == [] then []
    else
      var last := items[|items| - 1];
      At(items[..|items| - 1], t) + if last.at == t then [last] else []
  }

  lemma AtOfAppend(items: seq<Item>, x: Item, t: int)
    ensures At(items + [x], t) == At(items, t) + if x.at == t then [x] else []
  {
    assert (items + [x])[..|items|] == items;
  }

  lemma {:induction false} InsertIsStable(items: seq<Item>, x: Item, t: int)
    requires NewestFirst(items)
    ensures At(InsertItem(items, x), t) == At(items, t) + if x.at == t then [x] else []
  {
    if items == [] {
      AtOfAppend([], x, t);
      assert [] + [x] == [x];
    } else {
      var before, last := items[..|items| - 1], items[|items| - 1];
      if last.at >= x.at {
        AtOfAppend(items, x, t);
      } else {
        InsertIsStable(before, x, t);
        AtOfAppend(InsertItem(before, x), last, t);
        Unrelated(At(before, t), x, last, t);
      }
    }
  }

  /** Two items of different moments can be appended in either order. */
  lemma Unrelated(front: seq<Item>, x: Item, last: Item, t: int)
    requires x.at != last.at
    ensures (front + if x.at == t then [x] else []) + (if last.at == t then [last] else [])
         == (front + if last.at == t then [last] else []) + (if x.at == t then [x] else [])
  {
  }

  /** With `SortIsNewestFirst` this fixes the sort: items of one moment keep their order. */
  lemma {:induction false} SortIsStable(items: seq<Item>, t: int)
    ensures At(Sort(items), t) == At(items, t)
  {
    if items != [] {
      var before := items[..|items| - 1];
      SortIsStable(before, t);
      SortIsNewestFirst(before);
      InsertIsStable(Sort(before), items[|items| - 1], t);
    }
  }

  // ---------------------------------------------------------------- the feed

  function Cut(items: seq<Item>): seq<Item> {
    if |items| <= LIMIT then items else items[..LIMIT]
  }

  /** `getMyActivity`, from the four pages the queries return. */
  function GetMyActivity(security: seq<Row>, purchases: seq<Row>, entries: seq<Row>, memberships: seq<Row>): seq<Item> {
    Cut(Sort(Items(security) + Items(purchases) + Items(entries) + Items(memberships)))
  }

  /** The items `shown` to the feed are the twenty newest of `all` if the feed is. */
  ghost predicate IsNewest(all: multiset<Item>, feed: seq<Item>) {
    && NewestFirst(feed)
    && multiset(feed) <= all
    && |feed| == (if |all| <= LIMIT then |all| else LIMIT)
    && forall x, i | x in all - multiset(feed) && 0 <= i < |feed| :: x.at <= feed[i].at
  }

  /** A hidden item does no harm: the feed is full and ends no older. */
  predicate Harmless(x: Item, feed: seq<Item>) {
    |feed| == LIMIT && x.at <= feed[LIMIT - 1].at
  }

  lemma CutIsFront(sorted: seq<Item>)
    requires NewestFirst(sorted)
    ensures NewestFirst(Cut(sorted))
    ensures multiset(Cut(sorted)) <= multiset(sorted)
    ensures forall x, i | x in multiset(sorted) - multiset(Cut(sorted)) && 0 <= i < |Cut(sorted)| :: x.at <= Cut(sorted)[i].at
  {
    var feed := Cut(sorted);
    assert sorted == feed + sorted[|feed|..];
    forall x, i | x in multiset(sorted) - multiset(feed) && 0 <= i < |feed| ensures x.at <= feed[i].at {
      assert x in multiset(sorted[|feed|..]);
    }
  }

  lemma SmallerMultiset(a: multiset<Item>, b: multiset<Item>)
    requires a <= b
    ensures |a| <= |b|
    ensures |a| == |b| ==> a == b
  {
    assert b == a + (b - a);
  }

  lemma NewestIsHarmless(sorted: seq<Item>, hidden: multiset<Item>, x: Item)
    requires IsNewest(multiset(sorted) + hidden, Cut(sorted)) && x in hidden
    ensures Harmless(x, Cut(sorted))
  {
    var feed, all := Cut(sorted), multiset(sorted) + hidden;
    assert |multiset(sorted)| == |sorted|;
    SmallerMultiset(multiset{x}, hidden);
    assert |all| == |sorted| + |hidden|;
    CutIsPart(sorted);
    assert x in all - multiset(feed);
  }

  lemma CutIsPart(sorted: seq<Item>)
    ensures multiset(Cut(sorted)) <= multiset(sorted)
  {
    assert sorted == Cut(sorted) + sorted[|Cut(sorted)|..];
  }

  lemma HarmlessIsNewest(sorted: seq<Item>, hidden: multiset<Item>)
    requires NewestFirst(sorted) && forall x | x in hidden :: Harmless(x, Cut(sorted))
    ensures IsNewest(multiset(sorted) + hidden, Cut(sorted))
  {
    var feed, all := Cut(sorted), multiset(sorted) + hidden;
    CutIsFront(sorted);
    HarmlessSize(sorted, hidden);
    forall x, i | x in all - multiset(feed) && 0 <= i < |feed| ensures x.at <= feed[i].at {
      if x in hidden {
        assert Harmless(x, feed);
      } else {
        assert x in multiset(sorted) - multiset(feed);
      }
    }
  }

  lemma HarmlessSize(sorted: seq<Item>, hidden: multiset<Item>)
    requires forall x | x in hidden :: Harmless(x, Cut(sorted))
    ensures var n := |multiset(sorted) + hidden|; |Cut(sorted)| == if n <= LIMIT then n else LIMIT
  {
    assert |multiset(sorted)| == |sorted|;
    if |hidden| > 0 {
      var x :| x in hidden;
      assert Harmless(x, Cut(sorted));
    }
  }

  ghost predicate AllHarmless(hidden: multiset<Item>, feed: seq<Item>) {
    forall x | x in hidden :: Harmless(x, feed)
  }

  /** Sorting and cutting what is shown gives the newest of everything exactly when nothing hidden does harm. */
  lemma NewestIffHarmless(shown: seq<Item>, hidden: multiset<Item>)
    ensures IsNewest(multiset(shown) + hidden, Cut(Sort(shown))) <==> AllHarmless(hidden, Cut(Sort(shown)))
  {
    var sorted := Sort(shown);
    SortIsNewestFirst(shown);
    if IsNewest(multiset(shown) + hidden, Cut(sorted)) {
      forall x | x in hidden ensures Harmless(x, Cut(sorted)) {
        NewestIsHarmless(sorted, hidden, x);
      }
    }
    if forall x | x in hidden :: Harmless(x, Cut(sorted)) {
      HarmlessIsNewest(sorted, hidden);
    }
  }

  // ---------------------------------------------------------------- what the database returns

  /** One table's rows for the user, the page the query returned, and the rows it left out. */
  datatype Query = Query(rows: seq<Row>, page: seq<Row>, rest: seq<Row>)

  /** Ordered by age and cut to twenty, with rows of equal age in any order. */
  predicate Answers(q: Query) {
    && multiset(q.rows) == multiset(q.page) + multiset(q.rest)
    && (forall i, j | 0 <= i < j < |q.page| :: q.page[i].createdAt >= q.page[j].createdAt)
    && |q.page| <= LIMIT && (q.rest != [] ==> |q.page| == LIMIT)
    && (forall i, j | 0 <= i < |q.page| && 0 <= j < |q.rest| :: q.page[i].createdAt >= q.rest[j].createdAt)
  }

  predicate HoldsNoMemberships(rows: seq<Row>) {
    forall i | 0 <= i < |rows| :: !rows[i].Membership?
  }

  lemma InConcat(a: seq<Item>, b: seq<Item>, x: Item)
    requires x in multiset(a + b)
    ensures x in a || x in multiset(b)
  {
  }

  lemma {:induction false} ItemFromRow(rows: seq<Row>, x: Item) returns (k: nat)
    requires x in multiset(Items(rows))
    ensures k < |rows| && x in ItemsOf(rows[k])
  {
    var first, rest := rows[0], rows[1..];
    InConcat(ItemsOf(first), Items(rest), x);
    if x in ItemsOf(first) {
      k := 0;
    } else {
      var n := ItemFromRow(rest, x);
      assert rest[n] == rows[n + 1];
      k := n + 1;
    }
  }

  lemma {:induction false} RowItemsAreItems(rows: seq<Row>, k: nat, x: Item)
    requires k < |rows| && x in ItemsOf(rows[k])
    ensures x in multiset(Items(rows))
  {
    ItemsWithout(rows, k);
  }

  lemma SplitItems(q: Query)
    requires Answers(q)
    ensures multiset(Items(q.rows)) == multiset(Items(q.page)) + multiset(Items(q.rest))
  {
    assert multiset(q.page + q.rest) == multiset(q.page) + multiset(q.rest);
    ItemsOfPermutation(q.rows, q.page + q.rest);
    ItemsOfConcat(q.page, q.rest);
  }

  // ---------------------------------------------------------------- what the cuts lose

  function Start(row: Row): Item {
    ItemsOf(row)[0]
  }

  function Starts(rows: seq<Row>): (r: seq<Item>)
    ensures |r| == |rows|
    ensures forall i | 0 <= i < |rows| :: r[i] == Start(rows[i])
    ensures forall i | 0 <= i < |rows| :: r[i].at == rows[i].createdAt
  {
    if rows == [] then [] else [Start(rows[0])] + Starts(rows[1..])
  }

  lemma {:induction false} StartsAreItems(rows: seq<Row>)
    ensures multiset(Starts(rows)) <= multiset(Items(rows))
  {
    if rows != [] {
      StartsAreItems(rows[1..]);
      assert ItemsOf(rows[0]) == [Start(rows[0])] + ItemsOf(rows[0])[1..];
    }
  }

  lemma IndexOf(items: seq<Item>, x: Item) returns (k: nat)
    requires x in multiset(items)
    ensures k < |items| && items[k] == x
  {
    k :| 0 <= k < |items| && items[k] == x;
  }

  /** Items no older than `t` all sit before the first item older than `t`. */
  lemma NewerAreInFront(sorted: seq<Item>, some: seq<Item>, n: nat, t: int)
    requires NewestFirst(sorted) && multiset(some) <= multiset(sorted)
    requires forall i | 0 <= i < |some| :: some[i].at >= t
    requires n < |sorted| && sorted[n].at < t
    ensures multiset(some) <= multiset(sorted[..n])
  {
    var front, back := sorted[..n], sorted[n..];
    assert sorted == front + back;
    forall x: Item | x in multiset(back) ensures x.at < t {
      var k := IndexOf(back, x);
      assert sorted[n + k] == x;
    }
    forall x: Item | x in multiset(some) ensures x.at >= t {
      var k := IndexOf(some, x);
    }
    forall x: Item ensures multiset(some)[x] <= multiset(front)[x] {
      assert x in multiset(some) && x in multiset(back) ==> x.at >= t && x.at < t;
      assert multiset(some)[x] <= multiset(sorted)[x] == multiset(front)[x] + multiset(back)[x];
    }
  }

  lemma FewNewer(sorted: seq<Item>, some: seq<Item>, n: nat, t: int)
    requires NewestFirst(sorted) && multiset(some) <= multiset(sorted)
    requires forall i | 0 <= i < |some| :: some[i].at >= t
    requires n < |sorted| && sorted[n].at < t
    ensures |some| <= n
  {
    NewerAreInFront(sorted, some, n, t);
    SmallerMultiset(multiset(some), multiset(sorted[..n]));
    assert |multiset(some)| == |some| && |multiset(sorted[..n])| == n;
  }

  /** If `LIMIT` of the items are no older than `t`, the feed is full and nothing in it is older. */
  lemma EnoughAsNew(sorted: seq<Item>, some: seq<Item>, t: int)
    requires NewestFirst(sorted) && multiset(some) <= multiset(sorted) && |some| == LIMIT
    requires forall i | 0 <= i < |some| :: some[i].at >= t
    ensures |sorted| >= LIMIT && sorted[LIMIT - 1].at >= t
  {
    SmallerMultiset(multiset(some), multiset(sorted));
    assert |multiset(some)| == |some| && |multiset(sorted)| == |sorted|;
    if sorted[LIMIT - 1].at < t {
      FewNewer(sorted, some, LIMIT - 1, t);
    }
  }

  lemma StartsAreShown(rows: seq<Row>, shown: seq<Item>)
    requires multiset(Items(rows)) <= multiset(shown)
    ensures multiset(Starts(rows)) <= multiset(shown)
  {
    StartsAreItems(rows);
  }

  /** Twenty rows of its table are no older than a row the query left out. */
  lemma StartIsHarmless(q: Query, k: nat, shown: seq<Item>)
    requires Answers(q) && k < |q.rest| && multiset(Items(q.page)) <= multiset(shown)
    ensures Harmless(Start(q.rest[k]), Cut(Sort(shown)))
  {
    StartsAreShown(q.page, shown);
    StartsNoOlder(q, k);
    EnoughShown(shown, Starts(q.page), Start(q.rest[k]));
  }

  lemma EnoughShown(shown: seq<Item>, some: seq<Item>, x: Item)
    requires multiset(some) <= multiset(shown) && |some| == LIMIT
    requires forall i | 0 <= i < |some| :: some[i].at >= x.at
    ensures Harmless(x, Cut(Sort(shown)))
  {
    SortIsNewestFirst(shown);
    EnoughAsNew(Sort(shown), some, x.at);
    FullCut(Sort(shown), x);
  }

  lemma StartsNoOlder(q: Query, k: nat)
    requires Answers(q) && k < |q.rest|
    ensures |Starts(q.page)| == LIMIT && Start(q.rest[k]).at == q.rest[k].createdAt
    ensures forall i | 0 <= i < LIMIT :: Starts(q.page)[i].at >= q.rest[k].createdAt
  {
  }

  lemma FullCut(sorted: seq<Item>, x: Item)
    requires |sorted| >= LIMIT && sorted[LIMIT - 1].at >= x.at
    ensures Harmless(x, Cut(sorted))
  {
  }

  lemma RowItem(row: Row, x: Item)
    requires x in ItemsOf(row)
    ensures x == Start(row) || (row.Membership? && row.cancelledAt.Some? && x.at == row.cancelledAt.value)
  {
  }

  /** No membership the query left out was cancelled after the last moment the feed shows. */
  predicate CancellationsFit(rest: seq<Row>, feed: seq<Item>) {
    forall k | 0 <= k < |rest| && rest[k].Membership? && rest[k].cancelledAt.Some? ::
      |feed| == LIMIT && rest[k].cancelledAt.value <= feed[LIMIT - 1].at
  }

  lemma HiddenItem(q: Query, shown: seq<Item>, x: Item)
    requires Answers(q) && multiset(Items(q.page)) <= multiset(shown) && x in multiset(Items(q.rest))
    requires CancellationsFit(q.rest, Cut(Sort(shown)))
    ensures Harmless(x, Cut(Sort(shown)))
  {
    var k := ItemFromRow(q.rest, x);
    RowItem(q.rest[k], x);
    StartIsHarmless(q, k, shown);
  }

  /** A row a query left out can only be missed if it is a membership cancelled late. */
  lemma RestIsHarmless(q: Query, shown: seq<Item>)
    requires Answers(q) && multiset(Items(q.page)) <= multiset(shown)
    ensures AllHarmless(multiset(Items(q.rest)), Cut(Sort(shown))) <==> CancellationsFit(q.rest, Cut(Sort(shown)))
  {
    var feed := Cut(Sort(shown));
    if CancellationsFit(q.rest, feed) {
      forall x: Item | x in multiset(Items(q.rest)) ensures Harmless(x, feed) {
        HiddenItem(q, shown, x);
      }
    }
    if AllHarmless(multiset(Items(q.rest)), feed) {
      forall k | 0 <= k < |q.rest| && q.rest[k].Membership? && q.rest[k].cancelledAt.Some?
        ensures |feed| == LIMIT && q.rest[k].cancelledAt.value <= feed[LIMIT - 1].at
      {
        CancellationIsItem(q.rest, k);
        assert Harmless(Cancellation(q.rest[k]), feed);
      }
    }
  }

  function Cancellation(row: Row): Item
    requires row.Membership? && row.cancelledAt.Some?
  {
    Item(MembershipCancelled, row.id, row.cancelledAt.value)
  }

  lemma CancellationIsItem(rows: seq<Row>, k: nat)
    requires k < |rows| && rows[k].Membership? && rows[k].cancelledAt.Some?
    ensures Cancellation(rows[k]) in multiset(Items(rows))
  {
    assert ItemsOf(rows[k])[1] == Cancellation(rows[k]);
    RowItemsAreItems(rows, k, Cancellation(rows[k]));
  }

  /** The four queries of one request: only the last one reads memberships. */
  predicate FourQueries(security: Query, purchases: Query, entries: Query, memberships: Query) {
    && Answers(security) && Answers(purchases) && Answers(entries) && Answers(memberships)
    && HoldsNoMemberships(security.rest) && HoldsNoMemberships(purchases.rest) && HoldsNoMemberships(entries.rest)
  }

  function Everything(security: Query, purchases: Query, entries: Query, memberships: Query): multiset<Item> {
    multiset(Items(security.rows)) + multiset(Items(purchases.rows))
    + multiset(Items(entries.rows)) + multiset(Items(memberships.rows))
  }

  /** The items of what the queries left out. */
  function Hidden(security: Query, purchases: Query, entries: Query, memberships: Query): multiset<Item> {
    multiset(Items(security.rest)) + multiset(Items(purchases.rest))
    + multiset(Items(entries.rest)) + multiset(Items(memberships.rest))
  }

  lemma FourParts(a: seq<Item>, b: seq<Item>, c: seq<Item>, d: seq<Item>)
    ensures multiset(a + b + c + d) == multiset(a) + multiset(b) + multiset(c) + multiset(d)
  {
  }

  lemma Regroup(a: multiset<Item>, b: multiset<Item>, c: multiset<Item>, d: multiset<Item>,
                e: multiset<Item>, f: multiset<Item>, g: multiset<Item>, h: multiset<Item>)
    ensures (a + e) + (b + f) + (c + g) + (d + h) == (a + b + c + d) + (e + f + g + h)
  {
  }

  function Shown(security: Query, purchases: Query, entries: Query, memberships: Query): seq<Item> {
    Items(security.page) + Items(purchases.page) + Items(entries.page) + Items(memberships.page)
  }

  lemma ShownAndHidden(security: Query, purchases: Query, entries: Query, memberships: Query)
    requires FourQueries(security, purchases, entries, memberships)
    ensures Everything(security, purchases, entries, memberships)
         == multiset(Shown(security, purchases, entries, memberships)) + Hidden(security, purchases, entries, memberships)
  {
    FourParts(Items(security.page), Items(purchases.page), Items(entries.page), Items(memberships.page));
    SplitItems(security);
    SplitItems(purchases);
    SplitItems(entries);
    SplitItems(memberships);
    Regroup(multiset(Items(security.page)), multiset(Items(purchases.page)),
            multiset(Items(entries.page)), multiset(Items(memberships.page)),
            multiset(Items(security.rest)), multiset(Items(purchases.rest)),
            multiset(Items(entries.rest)), multiset(Items(memberships.rest)));
  }

  lemma HarmlessUnion(a: multiset<Item>, b: multiset<Item>, feed: seq<Item>)
    ensures AllHarmless(a + b, feed) <==> AllHarmless(a, feed) && AllHarmless(b, feed)
  {
    assert AllHarmless(a + b, feed) ==> AllHarmless(a, feed) by {
      assert forall x: Item | x in a :: x in a + b;
    }
    assert AllHarmless(a + b, feed) ==> AllHarmless(b, feed) by {
      assert forall x: Item | x in b :: x in a + b;
    }
  }

  lemma HiddenIsHarmless(security: Query, purchases: Query, entries: Query, memberships: Query, shown: seq<Item>)
    requires FourQueries(security, purchases, entries, memberships)
    requires multiset(Items(security.page)) <= multiset(shown) && multiset(Items(purchases.page)) <= multiset(shown)
    requires multiset(Items(entries.page)) <= multiset(shown) && multiset(Items(memberships.page)) <= multiset(shown)
    ensures AllHarmless(Hidden(security, purchases, entries, memberships), Cut(Sort(shown)))
       <==> CancellationsFit(memberships.rest, Cut(Sort(shown)))
  {
    var feed := Cut(Sort(shown));
    var a, b, c, d := multiset(Items(security.rest)), multiset(Items(purchases.rest)), multiset(Items(entries.rest)), multiset(Items(memberships.rest));
    RestIsHarmless(security, shown);
    RestIsHarmless(purchases, shown);
    RestIsHarmless(entries, shown);
    RestIsHarmless(memberships, shown);
    HarmlessUnion(a, b, feed);
    HarmlessUnion(a + b, c, feed);
    HarmlessUnion(a + b + c, d, feed);
  }

  /**
   * The feed is the twenty newest items of all there is, in order, exactly when no membership that
   * fell out of its query's twenty was cancelled later than the feed reaches back.
   */
  lemma FeedIsNewest(security: Query, purchases: Query, entries: Query, memberships: Query)
    requires FourQueries(security, purchases, entries, memberships)
    ensures var feed := GetMyActivity(security.page, purchases.page, entries.page, memberships.page);
            IsNewest(Everything(security, purchases, entries, memberships), feed) <==> CancellationsFit(memberships.rest, feed)
  {
    var shown := Shown(security, purchases, entries, memberships);
    FourParts(Items(security.page), Items(purchases.page), Items(entries.page), Items(memberships.page));
    ShownAndHidden(security, purchases, entries, memberships);
    HiddenIsHarmless(security, purchases, entries, memberships, shown);
    NewestIffHarmless(shown, Hidden(security, purchases, entries, memberships));
  }

  /** With at most twenty memberships the cuts lose nothing. */
  lemma TwentyMembershipsSuffice(security: Query, purchases: Query, entries: Query, memberships: Query)
    requires FourQueries(security, purchases, entries, memberships) && |memberships.rows| <= LIMIT
    ensures IsNewest(Everything(security, purchases, entries, memberships),
                     GetMyActivity(security.page, purchases.page, entries.page, memberships.page))
  {
    FeedIsNewest(security, purchases, entries, memberships);
    assert |multiset(memberships.rows)| == |memberships.rows|;
    assert |multiset(memberships.page) + multiset(memberships.rest)| == |memberships.page| + |memberships.rest|;
  }

  /** `id` is the primary key of every table. */
  predicate Keyed(rows: seq<Row>) {
    forall i, j | 0 <= i < j < |rows| :: rows[i].id != rows[j].id
  }

  /** The four queries of a request, over tables the database can hold. */
  predicate FourTables(security: Query, purchases: Query, entries: Query, memberships: Query) {
    && FourQueries(security, purchases, entries, memberships)
    && Keyed(security.rows) && Keyed(purchases.rows) && Keyed(entries.rows) && Keyed(memberships.rows)
  }

  /** The feed of a user with `n` memberships is right whatever the other tables hold and the queries answer. */
  ghost predicate AlwaysNewest(n: nat) {
    forall security, purchases, entries, memberships ::
      FourTables(security, purchases, entries, memberships) && |memberships.rows| == n ==>
        IsNewest(Everything(security, purchases, entries, memberships),
                 GetMyActivity(security.page, purchases.page, entries.page, memberships.page))
  }

  /** Ids of their own, told apart by their lengths. */
  function Uncancelled(n: nat): (rows: seq<Row>)
    ensures |rows| == n
    ensures forall i | 0 <= i < n :: StartedAtOne(rows[i]) && |rows[i].id| == i + 2
  {
    if n == 0 then [] else Uncancelled(n - 1) + [Membership(seq(n + 1, _ => 'm'), 1, None)]
  }

  predicate StartedAtOne(row: Row) {
    row.Membership? && row.createdAt == 1 && row.cancelledAt == None
  }

  /** The oldest of `n` memberships is the only one cancelled, after all of them started. */
  function OldestCancelled(n: nat): seq<Row>
    requires n > LIMIT
  {
    [Membership("m", 0, Some(2))] + Uncancelled(n - 1)
  }

  function OldestCutOff(n: nat): Query
    requires n > LIMIT
  {
    var rows := OldestCancelled(n);
    Query(rows, rows[1..LIMIT + 1], [rows[0]] + rows[LIMIT + 1..])
  }

  lemma OldestCutOffAnswers(n: nat)
    requires n > LIMIT
    ensures Answers(OldestCutOff(n)) && Keyed(OldestCutOff(n).rows)
  {
    MoveToBack(OldestCancelled(n), LIMIT);
    assert forall i | 0 <= i < n :: |OldestCancelled(n)[i].id| == i + 1;
  }

  lemma MoveToBack(rows: seq<Row>, k: nat)
    requires k < |rows|
    ensures multiset(rows) == multiset(rows[1..k + 1]) + multiset([rows[0]] + rows[k + 1..])
  {
    assert rows == [rows[0]] + rows[1..k + 1] + rows[k + 1..];
  }

  predicate AllStarted(rows: seq<Row>) {
    forall i | 0 <= i < |rows| :: StartedAtOne(rows[i])
  }

  lemma ItemOfStarts(rows: seq<Row>, x: Item)
    requires AllStarted(rows) && x in multiset(Items(rows))
    ensures x.at == 1
  {
    var k := ItemFromRow(rows, x);
    RowItem(rows[k], x);
  }

  lemma CutOfEqual(items: seq<Item>, t: int)
    requires forall x: Item | x in multiset(items) :: x.at == t
    ensures forall i | 0 <= i < |Cut(Sort(items))| :: Cut(Sort(items))[i].at == t
  {
    var feed := Cut(Sort(items));
    CutIsPart(Sort(items));
    forall i | 0 <= i < |feed| ensures feed[i].at == t {
      assert feed[i] in multiset(feed);
    }
  }

  lemma FeedOfStarts(rows: seq<Row>)
    requires AllStarted(rows)
    ensures forall i | 0 <= i < |GetMyActivity([], [], [], rows)| :: GetMyActivity([], [], [], rows)[i].at == 1
  {
    forall x: Item | x in multiset(Items(rows)) ensures x.at == 1 {
      ItemOfStarts(rows, x);
    }
    CutOfEqual(Items(rows), 1);
    OneTable(Items(rows));
  }

  lemma OneTable(items: seq<Item>)
    ensures Items([]) + Items([]) + Items([]) + items == items
  {
  }

  lemma LateCancellationIsLost(n: nat)
    requires n > LIMIT
    ensures !CancellationsFit(OldestCutOff(n).rest, GetMyActivity([], [], [], OldestCutOff(n).page))
  {
    var q := OldestCutOff(n);
    FeedOfStarts(q.page);
    assert q.rest[0] == Membership("m", 0, Some(2));
  }

  /** Twenty memberships is as many as the cuts can bear. */
  lemma TwentyIsSharp(n: nat)
    ensures AlwaysNewest(n) <==> n <= LIMIT
  {
    if n <= LIMIT {
      forall security, purchases, entries, memberships |
        FourTables(security, purchases, entries, memberships) && |memberships.rows| == n
        ensures IsNewest(Everything(security, purchases, entries, memberships),
                         GetMyActivity(security.page, purchases.page, entries.page, memberships.page))
      {
        TwentyMembershipsSuffice(security, purchases, entries, memberships);
      }
    } else {
      var none, q := Query([], [], []), OldestCutOff(n);
      OldestCutOffAnswers(n);
      assert FourTables(none, none, none, q) && |q.rows| == n;
      FeedIsNewest(none, none, none, q);
      LateCancellationIsLost(n);
    }
  }

  // ---------------------------------------------------------------- items, field by field

  /** Which item a row gives: its own kind, id and time, and for a cancelled membership another at the time of its end. */
  predicate Gives(row: Row, x: Item) {
    || (row.SecurityEvent? && x == Item(Security, row.id, row.createdAt))
    || (row.CryndyPurchase? && x == Item(Purchase, row.id, row.createdAt))
    || (row.LedgerEntry? && x == Item(Ndybits, row.id, row.createdAt))
    || (row.Membership? && x == Item(MembershipStarted, row.id, row.createdAt))
    || (row.Membership? && row.cancelledAt.Some? && x == Item(MembershipCancelled, row.id, row.cancelledAt.value))
  }

  lemma GivesItems(row: Row, x: Item)
    ensures x in ItemsOf(row) <==> Gives(row, x)
    ensures |ItemsOf(row)| == if row.Membership? && row.cancelledAt.Some? then 2 else 1
  {
  }

  lemma ItemsExactly(rows: seq<Row>, x: Item)
    ensures x in multiset(Items(rows)) <==> exists k | 0 <= k < |rows| :: Gives(rows[k], x)
  {
    if x in multiset(Items(rows)) {
      var k := ItemFromRow(rows, x);
      GivesItems(rows[k], x);
    }
    if k :| 0 <= k < |rows| && Gives(rows[k], x) {
      GivesItems(rows[k], x);
      RowItemsAreItems(rows, k, x);
    }
  }

  function Cancelled(rows: seq<Row>): nat {
    if rows == [] then 0
    else Cancelled(rows[..|rows| - 1]) + if rows[|rows| - 1].Membership? && rows[|rows| - 1].cancelledAt.Some? then 1 else 0
  }

  lemma {:induction false} ItemCount(rows: seq<Row>)
    ensures |Items(rows)| == |rows| + Cancelled(rows)
  {
    if rows != [] {
      var before, last := rows[..|rows| - 1], rows[|rows| - 1];
      ItemCount(before);
      assert rows == before + [last];
      ItemsOfConcat(before, [last]);
      assert [last][1..] == [];
      assert Items([last]) == ItemsOf(last) + [];
    }
  }

  /** Sorting and cutting keeps up to twenty of the items, the newest first. */
  lemma CutAndSorted(items: seq<Item>)
    ensures |Cut(Sort(items))| == if |items| < 20 then |items| else 20
    ensures NewestFirst(Cut(Sort(items)))
    ensures forall i | 0 <= i < |Cut(Sort(items))| :: Cut(Sort(items))[i] in multiset(items)
  {
    SortIsNewestFirst(items);
    CutIsFront(Sort(items));
    var feed := Cut(Sort(items));
    forall i | 0 <= i < |feed| ensures feed[i] in multiset(items) {
      assert feed[i] in multiset(feed);
    }
  }

  /** At most twenty items, all of them if there are no more, the newest first, each given by one of the rows. */
  ghost predicate IsFeedOf(rows: seq<Row>, feed: seq<Item>) {
    && |feed| == (if |rows| + Cancelled(rows) < 20 then |rows| + Cancelled(rows) else 20)
    && (forall i, j | 0 <= i < j < |feed| :: feed[i].at >= feed[j].at)
    && (forall i | 0 <= i < |feed| :: exists k | 0 <= k < |rows| :: Gives(rows[k], feed[i]))
  }

  lemma FeedOfRows(rows: seq<Row>)
    ensures IsFeedOf(rows, Cut(Sort(Items(rows))))
  {
    var feed := Cut(Sort(Items(rows)));
    ItemCount(rows);
    CutAndSorted(Items(rows));
    forall i | 0 <= i < |feed| ensures exists k | 0 <= k < |rows| :: Gives(rows[k], feed[i]) {
      ItemsExactly(rows, feed[i]);
    }
  }

  /** What the feed shows of four pages. */
  lemma FeedExactly(security: seq<Row>, purchases: seq<Row>, entries: seq<Row>, memberships: seq<Row>)
    ensures IsFeedOf(security + purchases + entries + memberships, GetMyActivity(security, purchases, entries, memberships))
  {
    MergedItems(security, purchases, entries, memberships);
    FeedOfRows(security + purchases + entries + memberships);
  }

  lemma MergedItems(security: seq<Row>, purchases: seq<Row>, entries: seq<Row>, memberships: seq<Row>)
    ensures Items(security) + Items(purchases) + Items(entries) + Items(memberships)
         == Items(security + purchases + entries + memberships)
  {
    ItemsOfConcat(security, purchases);
    ItemsOfConcat(security + purchases, entries);
    ItemsOfConcat(security + purchases + entries, memberships);
  }
}
