/** Pages cut from an ordering. Every page is its own query, so every page is
    cut from whichever list the database chose to make of the rows that time. */
module Paging {
  // A row as its ORDER BY sees it: a DESC column appears negated.
  datatype Row = Row(id: int, key: int)

  predicate Before(tieBreak: bool, a: Row, b: Row) {
    a.key < b.key || (tieBreak && a.key == b.key && a.id > b.id)
  }

  ghost predicate Sorted(tieBreak: bool, rows: seq<Row>) {
    forall i, j :: 0 <= i < j < |rows| ==> !Before(tieBreak, rows[j], rows[i])
  }

  // What the database may answer: any arrangement the ORDER BY allows.
  ghost predicate Answers(tieBreak: bool, rows: seq<Row>, table: seq<Row>) {
    multiset(rows) == multiset(table) && Sorted(tieBreak, rows)
  }

  ghost predicate AllAnswer(tieBreak: bool, answers: seq<seq<Row>>, table: seq<Row>) {
    forall k :: 0 <= k < |answers| ==> Answers(tieBreak, answers[k], table)
  }

  function UpTo(n: int, total: nat): (r: nat)
    ensures r <= total
  {
    if n < 0 then 0 else if n < total then n else total
  }

  // skip: (page - 1) * limit, take: limit.
  function Page(rows: seq<Row>, page: nat, limit: nat): seq<Row>
    requires page >= 1
  {
    rows[UpTo((page - 1) * limit, |rows|)..UpTo((page - 1) * limit + limit, |rows|)]
  }

  // Math.ceil(total / limit).
  function TotalPages(total: nat, limit: nat): nat
    requires limit >= 1
  {
    (total + limit - 1) / limit
  }

  // What a visitor has seen after the first n pages, the k-th of them cut
  // from the k-th answer.
  function Seen(answers: seq<seq<Row>>, limit: nat, n: nat): seq<Row>
    requires n <= |answers|
  {
    if n == 0 then [] else Seen(answers, limit, n - 1) + Page(answers[n - 1], n, limit)
  }

  predicate DistinctIds(rows: seq<Row>) {
    forall i, j :: 0 <= i < j < |rows| ==> rows[i].id != rows[j].id
  }

  // ---- with the tiebreaker ----

  lemma HeadIsFirst(a: seq<Row>, b: seq<Row>)
    requires multiset(a) == multiset(b) && a != [] && b != [] && Sorted(true, a) && Sorted(true, b)
    ensures a[0] == b[0]
  {
    assert a[0] in multiset(b) && b[0] in multiset(a);
    var i :| 0 <= i < |b| && b[i] == a[0];
    var j :| 0 <= j < |a| && a[j] == b[0];
  }

  // The id leaves the database no choice.
  lemma {:induction false} OneAnswer(a: seq<Row>, b: seq<Row>)
    requires multiset(a) == multiset(b) && Sorted(true, a) && Sorted(true, b)
    ensures a == b
  {
    assert |multiset(a)| == |a| && |multiset(b)| == |b|;
    if a != [] {
      HeadIsFirst(a, b);
      assert a == [a[0]] + a[1..] && b == [b[0]] + b[1..];
      assert multiset(a[1..]) == multiset(a) - multiset{a[0]};
      assert multiset(b[1..]) == multiset(b) - multiset{b[0]};
      OneAnswer(a[1..], b[1..]);
    }
  }

  lemma {:induction false} SeenIsAPrefix(answers: seq<seq<Row>>, rows: seq<Row>, limit: nat, n: nat)
    requires n <= |answers| && forall k :: 0 <= k < n ==> answers[k] == rows
    ensures Seen(answers, limit, n) == rows[..UpTo(n * limit, |rows|)]
  {
    if n > 0 {
      SeenIsAPrefix(answers, rows, limit, n - 1);
      assert (n - 1) * limit + limit == n * limit;
    }
  }

  lemma PagesNeeded(total: nat, limit: nat, n: nat)
    requires limit >= 1
    ensures n * limit >= total <==> n >= TotalPages(total, limit)
  {
    var pages := TotalPages(total, limit);
    var left := (total + limit - 1) % limit;
    assert pages * limit == total + limit - 1 - left && 0 <= left < limit;
    if n >= pages {
      assert (n - pages) * limit >= 0;
      assert n * limit == pages * limit + (n - pages) * limit;
    } else {
      assert (pages - 1 - n) * limit >= 0;
      assert n * limit == pages * limit - limit - (pages - 1 - n) * limit;
    }
  }

  lemma PrefixAnswers(rows: seq<Row>, table: seq<Row>, m: nat)
    requires Answers(true, rows, table) && m <= |rows|
    ensures |rows| == |table| && Sorted(true, rows[..m])
    ensures Answers(true, rows[..m], table) <==> m == |rows|
  {
    assert |rows| == |multiset(rows)| == |multiset(table)| == |table|;
    assert |multiset(rows[..m])| == m;
    assert rows[..|rows|] == rows;
  }

  // Turning the pages shows the whole list, in order, each row as often as
  // the table holds it, exactly from page `totalPages` on. One page more (an
  // empty list is still given one) changes nothing.
  lemma PagesShowEverything(answers: seq<seq<Row>>, table: seq<Row>, limit: nat, n: nat)
    requires limit >= 1 && AllAnswer(true, answers, table) && n <= |answers|
    ensures Sorted(true, Seen(answers, limit, n))
    ensures Answers(true, Seen(answers, limit, n), table) <==> n >= TotalPages(|table|, limit)
  {
    PagesNeeded(|table|, limit, n);
    if n > 0 {
      var rows := answers[0];
      SameAnswers(answers, table);
      SeenIsAPrefix(answers, rows, limit, n);
      PrefixAnswers(rows, table, UpTo(n * limit, |rows|));
    } else {
      NothingSeen(table);
    }
  }

  lemma NothingSeen(table: seq<Row>)
    ensures Answers(true, [], table) <==> |table| == 0
  {
  }

  lemma SameAnswers(answers: seq<seq<Row>>, table: seq<Row>)
    requires AllAnswer(true, answers, table)
    ensures forall k :: 0 <= k < |answers| ==> answers[k] == answers[0]
  {
    forall k | 0 <= k < |answers| ensures answers[k] == answers[0] {
      OneAnswer(answers[k], answers[0]);
    }
  }

  lemma RowsOnce(rows: seq<Row>, i: nat)
    requires DistinctIds(rows) && i < |rows|
    ensures multiset(rows)[rows[i]] == 1
  {
    assert rows == rows[..i] + [rows[i]] + rows[i + 1..];
    assert rows[i] !in rows[..i] && rows[i] !in rows[i + 1..];
  }

  // ---- without it ----

  lemma {:induction false} SeenOneByOne(answers: seq<seq<Row>>, n: nat, total: nat)
    requires n <= |answers| && n <= total && forall k :: 0 <= k < n ==> |answers[k]| == total
    ensures |Seen(answers, 1, n)| == n
    ensures forall k :: 0 <= k < n ==> Seen(answers, 1, n)[k] == answers[k][k]
  {
    if n > 0 {
      SeenOneByOne(answers, n - 1, total);
    }
  }

  function Swapped(rows: seq<Row>, k: nat): seq<Row>
    requires k + 1 < |rows|
  {
    rows[k := rows[k + 1]][k + 1 := rows[k]]
  }

  lemma SwapAnswers(rows: seq<Row>, table: seq<Row>, k: nat)
    requires Answers(false, rows, table) && k + 1 < |rows| && rows[k].key == rows[k + 1].key
    ensures Answers(false, Swapped(rows, k), table) && |Swapped(rows, k)| == |rows| == |table|
    ensures Swapped(rows, k)[k + 1] == rows[k] && forall i :: k + 1 < i < |rows| ==> Swapped(rows, k)[i] == rows[i]
  {
    assert |rows| == |multiset(rows)| == |multiset(table)| == |table|;
  }

  // Two neighbours the key does not tell apart may change places between one
  // page and the next: the first is then shown twice, the second never.
  lemma NeighboursSwap(rows: seq<Row>, table: seq<Row>, k: nat) returns (answers: seq<seq<Row>>)
    requires Answers(false, rows, table) && k + 1 < |rows| && rows[k].key == rows[k + 1].key
    ensures |answers| == TotalPages(|table|, 1) && AllAnswer(false, answers, table)
    ensures Seen(answers, 1, |answers|) == rows[k + 1 := rows[k]]
  {
    var other := Swapped(rows, k);
    SwapAnswers(rows, table, k);
    hide Seen, Sorted, Answers, Swapped;
    answers := seq(|rows|, i => if i <= k then rows else other);
    SeenOneByOne(answers, |answers|, |rows|);
  }

  lemma TiesMeet(rows: seq<Row>, i: nat, j: nat)
    requires Sorted(false, rows) && i < j < |rows| && rows[i].key == rows[j].key
    ensures rows[i].key == rows[i + 1].key
  {
  }

  ghost predicate KeysDiffer(table: seq<Row>) {
    forall a, b :: a in table && b in table && a.key == b.key ==> a == b
  }

  ghost predicate AlwaysShowsEverything(table: seq<Row>) {
    forall answers: seq<seq<Row>>, limit: nat ::
      limit >= 1 && AllAnswer(false, answers, table) && |answers| == TotalPages(|table|, limit)
      ==> multiset(Seen(answers, limit, |answers|)) == multiset(table)
  }

  // Sorting by the key alone pages correctly exactly when no two rows share a
  // key: what `created_at` in whole seconds cannot promise.
  lemma TiebreakerIsNeeded(table: seq<Row>, rows: seq<Row>)
    requires DistinctIds(table) && Answers(false, rows, table)
    ensures AlwaysShowsEverything(table) <==> KeysDiffer(table)
  {
    if KeysDiffer(table) {
      forall answers: seq<seq<Row>>, limit: nat
        | limit >= 1 && AllAnswer(false, answers, table) && |answers| == TotalPages(|table|, limit)
        ensures multiset(Seen(answers, limit, |answers|)) == multiset(table)
      {
        forall k | 0 <= k < |answers| ensures Answers(true, answers[k], table) {
          SortedAnyway(answers[k], table);
        }
        PagesShowEverything(answers, table, limit, |answers|);
      }
    } else {
      var k := TiedNeighbours(table, rows);
      var answers := NeighboursSwap(rows, table, k);
      ShowsTwice(rows, k);
      assert multiset(Seen(answers, 1, |answers|)) != multiset(table);
    }
  }

  lemma SortedAnyway(rows: seq<Row>, table: seq<Row>)
    requires Answers(false, rows, table) && KeysDiffer(table)
    ensures Answers(true, rows, table)
  {
    forall i, j | 0 <= i < j < |rows| ensures !Before(true, rows[j], rows[i]) {
      assert rows[i] in multiset(rows) && rows[j] in multiset(rows);
      assert rows[i] in table && rows[j] in table;
    }
  }

  lemma TiedNeighbours(table: seq<Row>, rows: seq<Row>) returns (k: nat)
    requires Answers(false, rows, table) && !KeysDiffer(table) && DistinctIds(table)
    ensures k + 1 < |rows| && rows[k].key == rows[k + 1].key && rows[k] != rows[k + 1]
  {
    var a, b :| a in table && b in table && a.key == b.key && a != b;
    assert a in multiset(table) && b in multiset(table);
    assert a in multiset(rows) && b in multiset(rows);
    var i :| 0 <= i < |rows| && rows[i] == a;
    var j :| 0 <= j < |rows| && rows[j] == b;
    k := if i < j then i else j;
    TiesMeet(rows, k, if i < j then j else i);
    NoTwins(rows, table, k);
  }

  lemma NoTwins(rows: seq<Row>, table: seq<Row>, k: nat)
    requires multiset(rows) == multiset(table) && DistinctIds(table) && k + 1 < |rows|
    ensures rows[k] != rows[k + 1]
  {
    assert rows[k] in multiset(rows);
    var t :| 0 <= t < |table| && table[t] == rows[k];
    RowsOnce(table, t);
    assert rows == rows[..k] + [rows[k], rows[k + 1]] + rows[k + 2..];
  }

  lemma ShowsTwice(rows: seq<Row>, k: nat)
    requires k + 1 < |rows| && rows[k] != rows[k + 1]
    ensures multiset(rows[k + 1 := rows[k]]) != multiset(rows)
  {
    assert multiset(rows[k + 1 := rows[k]])[rows[k]] == multiset(rows)[rows[k]] + 1;
  }
}

/** The public catalogue: which works a query asks for, and its pages. */
module Catalogue {
  import opened Wrappers
  import opened Paging

  datatype Work = Work(id: int, createdAt: int, price: int, likes: int, isAvailable: bool,
                       technique: Option<int>, material: Option<int>, series: Option<int>)

  datatype Sort = Newest | Oldest | PriceAsc | PriceDesc | Popular

  datatype Query = Query(technique: Option<int>, material: Option<int>, series: Option<int>,
                         isAvailable: Option<bool>, minPrice: Option<int>, maxPrice: Option<int>, sort: Sort)

  datatype PriceTest = AnyPrice | Between(low: int, high: int) | AtLeast(low: int) | AtMost(high: int)

  datatype Where = Where(technique: Option<int>, material: Option<int>, series: Option<int>,
                         isAvailable: Option<bool>, price: PriceTest)

  function SortKey(sort: Sort, w: Work): int {
    match sort
    case Newest => -w.createdAt
    case Oldest => w.createdAt
    case PriceAsc => w.price
    case PriceDesc => -w.price
    case Popular => -w.likes
  }

  predicate PricePasses(price: int, test: PriceTest) {
    match test
    case AnyPrice => true
    case Between(low, high) => low <= price <= high
    case AtLeast(low) => low <= price
    case AtMost(high) => price <= high
  }

  predicate Passes(w: Work, where: Where) {
    && (where.technique.Some? ==> w.technique == where.technique)
    && (where.material.Some? ==> w.material == where.material)
    && (where.series.Some? ==> w.series == where.series)
    && (where.isAvailable.Some? ==> w.isAvailable == where.isAvailable.value)
    && PricePasses(w.price, where.price)
  }

  // Zero is no id: asking for it asks for nothing.
  predicate HasTag(asked: Option<int>, tag: Option<int>) {
    asked == None || asked == Some(0) || tag == asked
  }

  predicate Wanted(w: Work, q: Query) {
    && HasTag(q.technique, w.technique) && HasTag(q.material, w.material) && HasTag(q.series, w.series)
    && (q.isAvailable == Some(true) ==> w.isAvailable) && (q.isAvailable == Some(false) ==> !w.isAvailable)
    && (q.minPrice.Some? ==> q.minPrice.value <= w.price)
    && (q.maxPrice.Some? ==> w.price <= q.maxPrice.value)
  }

  // The filter, built up one condition at a time.
  method BuildWhere(q: Query) returns (where: Where)
    ensures forall w :: Passes(w, where) <==> Wanted(w, q)
  {
    where := Where(None, None, None, None, AnyPrice);
    if q.technique.Some? && q.technique.value != 0 {
      where := where.(technique := q.technique);
    }
    if q.material.Some? && q.material.value != 0 {
      where := where.(material := q.material);
    }
    if q.series.Some? && q.series.value != 0 {
      where := where.(series := q.series);
    }
    if q.isAvailable.Some? {
      where := where.(isAvailable := q.isAvailable);
    }
    if q.minPrice.Some? && q.maxPrice.Some? {
      where := where.(price := Between(q.minPrice.value, q.maxPrice.value));
    } else if q.minPrice.Some? {
      where := where.(price := AtLeast(q.minPrice.value));
    } else if q.maxPrice.Some? {
      where := where.(price := AtMost(q.maxPrice.value));
    }
  }

  function RowFor(w: Work, q: Query): Row {
    Row(w.id, SortKey(q.sort, w))
  }

  function Matching(works: seq<Work>, q: Query): seq<Row> {
    if works == [] then []
    else if Wanted(works[0], q) then [RowFor(works[0], q)] + Matching(works[1..], q)
    else Matching(works[1..], q)
  }

  predicate WorksDistinct(works: seq<Work>) {
    forall i, j :: 0 <= i < j < |works| ==> works[i].id != works[j].id
  }

  lemma {:induction false} MatchingIs(works: seq<Work>, q: Query)
    requires WorksDistinct(works)
    ensures DistinctIds(Matching(works, q))
    ensures forall r :: r in Matching(works, q) <==> exists w :: w in works && Wanted(w, q) && r == RowFor(w, q)
  {
    if works != [] {
      MatchingIs(works[1..], q);
      assert works == [works[0]] + works[1..];
      forall r | r in Matching(works[1..], q) ensures r.id != works[0].id {
        var w :| w in works[1..] && Wanted(w, q) && r == RowFor(w, q);
      }
    }
  }

  // Turning every page of the catalogue meets every wanted work once, and no
  // other, under each of the five sort orders.
  lemma EveryWorkOnce(works: seq<Work>, q: Query, answers: seq<seq<Row>>, limit: nat, w: Work)
    requires WorksDistinct(works) && limit >= 1 && AllAnswer(true, answers, Matching(works, q))
    requires |answers| == TotalPages(|Matching(works, q)|, limit) && w in works
    ensures multiset(Seen(answers, limit, |answers|))[RowFor(w, q)] == if Wanted(w, q) then 1 else 0
  {
    hide Matching, Seen, Wanted, Sorted;
    var table := Matching(works, q);
    MatchingIs(works, q);
    PagesShowEverything(answers, table, limit, |answers|);
    if Wanted(w, q) {
      assert RowFor(w, q) in table;
      var i :| 0 <= i < |table| && table[i] == RowFor(w, q);
      RowsOnce(table, i);
    } else {
      assert RowFor(w, q) !in table by {
        forall v | v in works && Wanted(v, q) ensures RowFor(v, q) != RowFor(w, q) {
        }
      }
    }
  }

  // What each order promises of a work shown before another.
  predicate InOrder(sort: Sort, first: Work, second: Work) {
    match sort
    case Newest => first.createdAt >= second.createdAt
    case Oldest => first.createdAt <= second.createdAt
    case PriceAsc => first.price <= second.price
    case PriceDesc => first.price >= second.price
    case Popular => first.likes >= second.likes
  }

  // Along the pages, the newest come first, or the cheapest, or whatever was
  // asked for; of works that tie, the one added last.
  lemma PagesAreInOrder(works: seq<Work>, q: Query, answers: seq<seq<Row>>, limit: nat, n: nat, i: nat, j: nat)
    requires WorksDistinct(works) && limit >= 1 && AllAnswer(true, answers, Matching(works, q)) && n <= |answers|
    requires i < j < |Seen(answers, limit, n)|
    ensures exists v, w ::
              && v in works && w in works && Wanted(v, q) && Wanted(w, q)
              && Seen(answers, limit, n)[i].id == v.id && Seen(answers, limit, n)[j].id == w.id
              && InOrder(q.sort, v, w) && (InOrder(q.sort, w, v) ==> v.id >= w.id)
  {
    hide Seen, Matching, Wanted, AllAnswer, WorksDistinct, InOrder;
    var rows := Seen(answers, limit, n);
    PagesShowEverything(answers, Matching(works, q), limit, n);
    var v := WorkBehind(works, q, answers, limit, n, i);
    var w := WorkBehind(works, q, answers, limit, n, j);
    assert !Before(true, rows[j], rows[i]);
    RowsInOrder(q, v, w);
  }

  lemma RowsInOrder(q: Query, v: Work, w: Work)
    requires !Before(true, RowFor(w, q), RowFor(v, q))
    ensures InOrder(q.sort, v, w) && (InOrder(q.sort, w, v) ==> v.id >= w.id)
  {
  }

  lemma {:induction false} SeenAreRows(answers: seq<seq<Row>>, table: seq<Row>, limit: nat, n: nat)
    requires AllAnswer(true, answers, table) && n <= |answers|
    ensures forall r :: r in Seen(answers, limit, n) ==> r in table
  {
    if n > 0 {
      SeenAreRows(answers, table, limit, n - 1);
      forall r | r in Page(answers[n - 1], n, limit) ensures r in table {
        assert r in multiset(answers[n - 1]);
      }
    }
  }

  lemma WorkBehind(works: seq<Work>, q: Query, answers: seq<seq<Row>>, limit: nat, n: nat, i: nat) returns (w: Work)
    requires WorksDistinct(works) && AllAnswer(true, answers, Matching(works, q)) && n <= |answers|
    requires i < |Seen(answers, limit, n)|
    ensures w in works && Wanted(w, q) && Seen(answers, limit, n)[i] == RowFor(w, q)
  {
    SeenAreRows(answers, Matching(works, q), limit, n);
    MatchingIs(works, q);
    var row := Seen(answers, limit, n)[i];
    assert row in Seen(answers, limit, n);
    w :| w in works && Wanted(w, q) && row == RowFor(w, q);
  }
}

/** The order list in the admin panel: its two tabs and their pages. */
module AdminOrders {
  import opened Wrappers
  import opened Entities
  import opened Paging
  import opened ShopMachine

  datatype Tab = ActiveTab | CompletedTab

  predicate OnTab(order: Order, tab: Tab) {
    match tab
    case CompletedTab => order.status == Completed
    case ActiveTab => !order.isArchived
  }

  // The rows of one tab: newest first, `placed` being each order's second.
  function TabRows(orders: map<nat, Order>, placed: map<nat, int>, n: nat, tab: Tab): seq<Row> {
    if n == 0 then []
    else if n - 1 in orders && n - 1 in placed && OnTab(orders[n - 1], tab) then
      TabRows(orders, placed, n - 1, tab) + [Row(n - 1, -placed[n - 1])]
    else
      TabRows(orders, placed, n - 1, tab)
  }

  // max(1, ceil(total / limit)).
  function TabPages(total: nat, limit: nat): nat
    requires limit >= 1
  {
    if TotalPages(total, limit) < 1 then 1 else TotalPages(total, limit)
  }

  lemma {:induction false} TabRowsAre(orders: map<nat, Order>, placed: map<nat, int>, n: nat, tab: Tab)
    requires placed.Keys == orders.Keys
    ensures DistinctIds(TabRows(orders, placed, n, tab))
    ensures forall r :: r in TabRows(orders, placed, n, tab) <==>
              0 <= r.id < n && r.id in orders && OnTab(orders[r.id], tab) && r.key == -placed[r.id]
  {
    if n > 0 {
      TabRowsAre(orders, placed, n - 1, tab);
      var earlier := TabRows(orders, placed, n - 1, tab);
      forall k | 0 <= k < |earlier| ensures earlier[k].id != n - 1 {
        assert earlier[k] in earlier;
      }
    }
  }

  // Every order on a tab is met once in its pages, and no other order is.
  lemma EveryOrderOnce(s: Shop, placed: map<nat, int>, tab: Tab, answers: seq<seq<Row>>, limit: nat, id: nat)
    requires id in s.orders && id < s.nextOrder && placed.Keys == s.orders.Keys && limit >= 1
    requires AllAnswer(true, answers, TabRows(s.orders, placed, s.nextOrder, tab))
    requires |answers| == TabPages(|TabRows(s.orders, placed, s.nextOrder, tab)|, limit)
    ensures multiset(Seen(answers, limit, |answers|))[Row(id, -placed[id])] == if OnTab(s.orders[id], tab) then 1 else 0
  {
    hide TabRows, Seen, OnTab, Sorted;
    var table := TabRows(s.orders, placed, s.nextOrder, tab);
    TabRowsAre(s.orders, placed, s.nextOrder, tab);
    PagesShowEverything(answers, table, limit, |answers|);
    if OnTab(s.orders[id], tab) {
      var i :| 0 <= i < |table| && table[i] == Row(id, -placed[id]);
      RowsOnce(table, i);
    }
  }

  ghost predicate AllListed(s: Shop) {
    forall id :: id in s.orders ==> OnTab(s.orders[id], ActiveTab) || OnTab(s.orders[id], CompletedTab)
  }

  // The status change that loses sight of an order.
  predicate ReopensArchived(s: Shop, e: Event) {
    && e.UpdateStatus? && e.id in s.orders && s.orders[e.id].isArchived
    && e.status != Completed && Next(s, e).Ok?
  }

  // "Still shows up under the Completed tab" holds of an archived order until
  // its status is changed. Nothing takes the flag off again, so from then on
  // it is on neither tab; no other event does this.
  lemma StaysListed(s: Shop, e: Event)
    requires AllListed(s)
    ensures AllListed(Apply(s, e)) <==> !ReopensArchived(s, e)
  {
    if e.UpdateStatus? && e.id in s.orders && Next(s, e).Ok? {
      StatusChanged(s, e);
      hide Apply, Next;
      assert forall id :: id in s.orders && id != e.id ==> Apply(s, e).orders[id] == s.orders[id];
    } else {
      OthersStayListed(s, e);
    }
  }

  lemma StatusChanged(s: Shop, e: Event)
    requires e.UpdateStatus? && e.id in s.orders && Next(s, e).Ok?
    ensures var after := Apply(s, e);
            && after.orders.Keys == s.orders.Keys
            && after.orders[e.id].status == e.status && after.orders[e.id].isArchived == s.orders[e.id].isArchived
            && forall id :: id in s.orders && id != e.id ==> after.orders[id] == s.orders[id]
  {
  }

  lemma OthersStayListed(s: Shop, e: Event)
    requires AllListed(s) && !(e.UpdateStatus? && e.id in s.orders && Next(s, e).Ok?)
    ensures AllListed(Apply(s, e))
  {
  }

  // Archived as the panel offers, then reopened: on neither tab.
  lemma ReopenedIsLost(s: Shop, id: nat)
    requires id in s.orders && s.orders[id].status == Completed
    ensures !AllListed(Run(s, [ArchiveOrder(id), UpdateStatus(id, Confirmed, None)]))
  {
    var es := [ArchiveOrder(id), UpdateStatus(id, Confirmed, None)];
    Archived(s, id);
    StatusChanged(Apply(s, es[0]), es[1]);
    hide Apply, Next;
    assert es[..1][..0] == [] && Run(s, es[..1]) == Apply(s, es[0]);
    var order := Run(s, es).orders[id];
    assert order.isArchived && order.status == Confirmed;
  }

  lemma Archived(s: Shop, id: nat)
    requires id in s.orders && s.orders[id].status == Completed
    ensures var after := Apply(s, ArchiveOrder(id));
            && id in after.orders && after.orders[id].isArchived
            && Next(after, UpdateStatus(id, Confirmed, None)).Ok?
  {
  }
}
