/** The order in which every transaction walks painting rows: by painting id. */
module StockLines {
  import opened Entities

  function Ids(items: seq<Item>): set<int> {
    set item | item in items :: item.paintingId
  }

  predicate Distinct(items: seq<Item>) {
    forall i, j :: 0 <= i < j < |items| ==> items[i].paintingId != items[j].paintingId
  }

  ghost predicate SortedById(items: seq<Item>) {
    forall i, j :: 0 <= i < j < |items| ==> items[i].paintingId <= items[j].paintingId
  }

  function Insert(item: Item, sorted: seq<Item>): seq<Item> {
    if sorted == [] || item.paintingId <= sorted[0].paintingId then
      [item] + sorted
    else
      [sorted[0]] + Insert(item, sorted[1..])
  }

  // A stable sort by painting id: among equal ids, earlier items stay earlier.
  function StockOrder(items: seq<Item>): seq<Item> {
    if items == [] then [] else Insert(items[0], StockOrder(items[1..]))
  }

  lemma {:induction false} InsertAddsOne(item: Item, sorted: seq<Item>)
    ensures multiset(Insert(item, sorted)) == multiset(sorted) + multiset{item}
  {
    if sorted == [] || item.paintingId <= sorted[0].paintingId {
    } else {
      InsertAddsOne(item, sorted[1..]);
      assert sorted == [sorted[0]] + sorted[1..];
    }
  }

  lemma {:induction false} InsertKeepsSorted(item: Item, sorted: seq<Item>)
    requires SortedById(sorted)
    ensures SortedById(Insert(item, sorted))
  {
    if sorted == [] || item.paintingId <= sorted[0].paintingId {
    } else {
      var rest := Insert(item, sorted[1..]);
      InsertKeepsSorted(item, sorted[1..]);
      InsertAddsOne(item, sorted[1..]);
      forall j | 0 <= j < |rest| ensures sorted[0].paintingId <= rest[j].paintingId {
        assert rest[j] in multiset(rest);
        assert rest[j] == item || rest[j] in sorted[1..];
      }
    }
  }

  // `stockOrder` rearranges its argument into ascending painting id.
  lemma {:induction false} StockOrderSorts(items: seq<Item>)
    ensures multiset(StockOrder(items)) == multiset(items)
    ensures SortedById(StockOrder(items))
  {
    if items != [] {
      StockOrderSorts(items[1..]);
      InsertAddsOne(items[0], StockOrder(items[1..]));
      InsertKeepsSorted(items[0], StockOrder(items[1..]));
      assert items == [items[0]] + items[1..];
    }
  }

  lemma SameItems(a: seq<Item>, b: seq<Item>)
    requires multiset(a) == multiset(b)
    ensures forall x :: x in a <==> x in b
    ensures Ids(a) == Ids(b)
  {
    assert forall x :: x in a <==> x in multiset(a);
    assert forall x :: x in b <==> x in multiset(b);
    assert forall x :: x in a <==> x in b;
  }

  lemma {:induction false} DistinctBySize(items: seq<Item>)
    ensures |Ids(items)| <= |items|
    ensures Distinct(items) <==> |Ids(items)| == |items|
  {
    if items != [] {
      var first, rest := items[0], items[1..];
      DistinctBySize(rest);
      assert items == [first] + rest;
      assert Ids(items) == {first.paintingId} + Ids(rest);
      assert Distinct(items) <==> Distinct(rest) && first.paintingId !in Ids(rest) by {
        ConsDistinct(first, rest);
      }
    }
  }

  lemma ConsDistinct(first: Item, rest: seq<Item>)
    ensures Distinct([first] + rest) <==> Distinct(rest) && first.paintingId !in Ids(rest)
  {
    var items := [first] + rest;
    assert forall k :: 0 <= k < |rest| ==> items[k + 1] == rest[k] && rest[k].paintingId in Ids(rest);
    if first.paintingId in Ids(rest) {
      var k :| 0 <= k < |rest| && rest[k].paintingId == first.paintingId;
      assert items[0].paintingId == items[k + 1].paintingId;
    }
  }

  lemma StockOrderKeepsDistinct(items: seq<Item>)
    ensures Distinct(StockOrder(items)) <==> Distinct(items)
    ensures Ids(StockOrder(items)) == Ids(items)
  {
    StockOrderSorts(items);
    SameItems(StockOrder(items), items);
    assert |StockOrder(items)| == |multiset(StockOrder(items))| == |items|;
    DistinctBySize(items);
    DistinctBySize(StockOrder(items));
  }

  // Walking lines of distinct paintings, every id is met strictly later than
  // all smaller ones: the fact the locking discipline rests on.
  lemma StockOrderIsStrict(items: seq<Item>)
    requires Distinct(items)
    ensures forall i, j :: 0 <= i < j < |StockOrder(items)| ==>
              StockOrder(items)[i].paintingId < StockOrder(items)[j].paintingId
  {
    StockOrderSorts(items);
    StockOrderKeepsDistinct(items);
  }

  // Any other sort would lock the same rows in the same order.
  lemma {:induction false} StockOrderIsUnique(items: seq<Item>, other: seq<Item>)
    requires Distinct(items)
    requires multiset(other) == multiset(items) && SortedById(other)
    ensures other == StockOrder(items)
  {
    var mine := StockOrder(items);
    StockOrderSorts(items);
    StockOrderKeepsDistinct(items);
    SameItems(other, mine);
    DistinctBySize(other);
    DistinctBySize(mine);
    assert |other| == |multiset(other)| == |mine|;
    StrictlySortedEqual(mine, other);
  }

  lemma {:induction false} StrictlySortedEqual(a: seq<Item>, b: seq<Item>)
    requires |a| == |b|
    requires SortedById(a) && Distinct(a) && SortedById(b) && Distinct(b)
    requires forall x :: x in a <==> x in b
    ensures a == b
  {
    if a != [] {
      SameHead(a, b);
      TailMembers(a);
      TailMembers(b);
      StrictlySortedEqual(a[1..], b[1..]);
      assert a == [a[0]] + a[1..] && b == [b[0]] + b[1..];
    }
  }

  lemma SameHead(a: seq<Item>, b: seq<Item>)
    requires |a| == |b| && a != []
    requires SortedById(a) && SortedById(b) && Distinct(b)
    requires forall x :: x in a <==> x in b
    ensures a[0] == b[0]
  {
    assert a[0] in b && b[0] in a;
    var i :| 0 <= i < |b| && b[i] == a[0];
    var j :| 0 <= j < |a| && a[j] == b[0];
  }

  lemma TailMembers(a: seq<Item>)
    requires a != [] && Distinct(a)
    ensures forall x :: x in a[1..] <==> x in a && x != a[0]
    ensures Distinct(a[1..]) && (SortedById(a) ==> SortedById(a[1..]))
  {
  }
}
