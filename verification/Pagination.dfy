/**
 Cursor pagination of cached messages and contacts (controller.ts, store.ts). A page is sorted by
 one key (`sentAt`) and continued by another (`telegramId`), so that following the cursor
 enumerates everything is a property of the data, not of a page.
 */
module Pagination {
  import opened Common

  /** A cached message of one chat. A contact is listed by its id alone: `sentAt` is its id. */
  datatype Item = Item(telegramId: int, sentAt: int)

  predicate Keeps(cursor: Option<int>, item: Item) { cursor.None? || item.telegramId < cursor.value }

  /** `before`: only items with a smaller id. */
  function Below(items: seq<Item>, cursor: Option<int>): seq<Item> {
    if items == [] then []
    else
      (if Keeps(cursor, items[0]) then [items[0]] else []) + Below(items[1..], cursor)
  }

  /** A stable insertion: behind every item that is not older. */
  function Insert(item: Item, sorted: seq<Item>): seq<Item> {
    if sorted == [] || sorted[0].sentAt < item.sentAt then [item] + sorted
    else [sorted[0]] + Insert(item, sorted[1..])
  }

  /** The stable sort by `sentAt`, newest first. */
  function Newest(items: seq<Item>): seq<Item> {
    if items == [] then [] else Insert(items[|items| - 1], Newest(items[..|items| - 1]))
  }

  /** `Math.min(rawLimit, 100)` of a positive integer, 50 otherwise. */
  function ClampLimit(raw: Option<int>): (limit: nat)
    ensures 1 <= limit <= 100
    ensures raw.Some? && 1 <= raw.value <= 100 ==> limit == raw.value
    ensures raw.Some? && raw.value > 100 ==> limit == 100
    ensures raw.None? || raw.value <= 0 ==> limit == 50
  {
    if raw.Some? && raw.value > 0 then (if raw.value < 100 then raw.value else 100) else 50
  }

  function Take<T>(s: seq<T>, n: nat): seq<T> { if |s| <= n then s else s[..n] }

  /** `listMessages` and `listContacts` */
  function Page(items: seq<Item>, cursor: Option<int>, limit: nat): seq<Item> {
    Take(Newest(Below(items, cursor)), if limit < 100 then limit else 100)
  }

  /** A full page carries its last item's id as the next cursor. */
  function NextCursor(page: seq<Item>, limit: nat): Option<int> {
    if |page| == limit && page != [] then Some(page[|page| - 1].telegramId) else None
  }

  datatype Transcript = Transcript(items: seq<Item>, requests: nat, finished: bool)

  /** How the server answers request `j` with this cursor. */
  type Server = (nat, Option<int>) -> seq<Item>

  /** Pages of this size. The cache may be another one at each request: `caches(j)` is what request `j` finds. */
  function Pages(caches: nat -> seq<Item>, limit: nat): Server {
    (j: nat, cursor: Option<int>) => Page(caches(j), cursor, limit)
  }

  /** A client follows the cursor from request number `j` on, for at most `budget` requests. */
  function Follow(serve: Server, limit: nat, cursor: Option<int>, j: nat, budget: nat): Transcript
    decreases budget
  {
    if budget == 0 then Transcript([], 0, false)
    else
      var page := serve(j, cursor);
      var next := NextCursor(page, limit);
      if next.None? then Transcript(page, 1, true)
      else Behind(page, Follow(serve, limit, next, j + 1, budget - 1))
  }

  /** One more page, before the rest. */
  function Behind(page: seq<Item>, rest: Transcript): Transcript {
    Transcript(page + rest.items, 1 + rest.requests, rest.finished)
  }

  predicate IdsDescend(items: seq<Item>) {
    forall i, j :: 0 <= i < j < |items| ==> items[i].telegramId > items[j].telegramId
  }

  /**
   A page boundary behind the first `k` items: continuing below the k-th id loses nothing of what is
   behind it and repeats nothing of what is ahead.
   */
  predicate Cuts(items: seq<Item>, k: nat)
    requires 0 < k <= |items|
  {
    && (forall i :: 0 <= i < k ==> IdAt(items, i) >= IdAt(items, k - 1))
    && (forall i :: k <= i < |items| ==> IdAt(items, i) < IdAt(items, k - 1))
  }

  function IdAt(items: seq<Item>, i: nat): int
    requires i < |items|
  {
    items[i].telegramId
  }

  /** Every boundary of pages of this size is one. */
  predicate CutsEvery(items: seq<Item>, limit: nat)
    requires limit > 0
  {
    forall k :: 0 < k <= |items| && k % limit == 0 ==> Cuts(items, k)
  }

  /** The boundaries from the k-th item on, page by page. */
  predicate CutsFrom(items: seq<Item>, limit: nat, k: nat)
    requires 0 < limit && 0 < k
    decreases |items| - k
  {
    k <= |items| ==> Cuts(items, k) && CutsFrom(items, limit, k + limit)
  }

  /** For every cursor that points at or below an item of `start`, both caches list the same. */
  ghost predicate SameOldItems(start: seq<Item>, cache: seq<Item>) {
    forall m, c: int :: m in start && c <= m.telegramId ==>
        Newest(Below(cache, Some(c))) == Newest(Below(start, Some(c)))
  }

  // ---------- Sorting and filtering ----------

  lemma {:induction false} BelowMembers(items: seq<Item>, cursor: Option<int>)
    ensures forall m :: m in Below(items, cursor) <==> m in items && Keeps(cursor, m)
    decreases |items|
  {
    if items != [] { BelowMembers(items[1..], cursor); }
  }

  lemma {:induction false} AllBelow(items: seq<Item>, cursor: Option<int>)
    requires forall m :: m in items ==> Keeps(cursor, m)
    ensures Below(items, cursor) == items
    decreases |items|
  {
    if items != [] { AllBelow(items[1..], cursor); }
  }

  lemma {:induction false} NoneBelow(items: seq<Item>, cursor: Option<int>)
    requires forall m :: m in items ==> !Keeps(cursor, m)
    ensures Below(items, cursor) == []
    decreases |items|
  {
    if items != [] { NoneBelow(items[1..], cursor); }
  }

  lemma BelowCons(item: Item, rest: seq<Item>, cursor: Option<int>)
    ensures Below([item] + rest, cursor) == (if Keeps(cursor, item) then [item] else []) + Below(rest, cursor)
  {
    assert ([item] + rest)[1..] == rest;
  }

  lemma {:induction false} BelowConcat(xs: seq<Item>, ys: seq<Item>, cursor: Option<int>)
    ensures Below(xs + ys, cursor) == Below(xs, cursor) + Below(ys, cursor)
    decreases |xs|
  {
    if xs == [] {
      assert xs + ys == ys;
    } else {
      assert xs + ys == [xs[0]] + (xs[1..] + ys);
      BelowCons(xs[0], xs[1..] + ys, cursor);
      BelowConcat(xs[1..], ys, cursor);
    }
  }

  predicate NewestFirst(items: seq<Item>) {
    forall i, j :: 0 <= i < j < |items| ==> items[i].sentAt >= items[j].sentAt
  }

  lemma {:induction false} InsertPermutes(item: Item, sorted: seq<Item>)
    ensures multiset(Insert(item, sorted)) == multiset(sorted) + multiset{item}
    ensures forall m :: m in Insert(item, sorted) ==> m == item || m in sorted
    decreases |sorted|
  {
    if sorted != [] && sorted[0].sentAt >= item.sentAt {
      InsertPermutes(item, sorted[1..]);
      assert sorted == [sorted[0]] + sorted[1..];
    }
  }

  lemma {:induction false} InsertSorts(item: Item, sorted: seq<Item>)
    requires NewestFirst(sorted)
    ensures NewestFirst(Insert(item, sorted))
    decreases |sorted|
  {
    if sorted != [] && sorted[0].sentAt >= item.sentAt {
      InsertSorts(item, sorted[1..]);
      InsertPermutes(item, sorted[1..]);
      var rest := Insert(item, sorted[1..]);
      forall i | 0 <= i < |rest| ensures rest[i].sentAt <= sorted[0].sentAt {
        assert rest[i] in rest;
      }
    }
  }

  /** The listing is a permutation of the items, newest first. */
  lemma {:induction false} NewestSorts(items: seq<Item>)
    ensures NewestFirst(Newest(items)) && multiset(Newest(items)) == multiset(items)
    decreases |items|
  {
    if items != [] {
      var n := |items| - 1;
      NewestSorts(items[..n]);
      InsertSorts(items[n], Newest(items[..n]));
      InsertPermutes(items[n], Newest(items[..n]));
      assert items == items[..n] + [items[n]];
    }
  }

  /** The items of one moment. */
  function At(items: seq<Item>, time: int): seq<Item> {
    if items == [] then []
    else At(items[..|items| - 1], time) + (if items[|items| - 1].sentAt == time then [items[|items| - 1]] else [])
  }

  lemma AtSnoc(items: seq<Item>, last: Item, time: int)
    ensures At(items + [last], time) == At(items, time) + (if last.sentAt == time then [last] else [])
  {
    assert (items + [last])[..|items|] == items;
  }

  lemma {:induction false} AtConcat(xs: seq<Item>, ys: seq<Item>, time: int)
    ensures At(xs + ys, time) == At(xs, time) + At(ys, time)
    decreases |ys|
  {
    if ys == [] {
      assert xs + ys == xs && At(xs, time) + [] == At(xs, time);
    } else {
      var front, last := ys[..|ys| - 1], ys[|ys| - 1];
      assert ys == front + [last] && xs + ys == (xs + front) + [last];
      AtConcat(xs, front, time);
      AtSnoc(xs + front, last, time);
      AtSnoc(front, last, time);
    }
  }

  lemma {:induction false} NoneAt(items: seq<Item>, time: int)
    requires forall i :: 0 <= i < |items| ==> items[i].sentAt < time
    ensures At(items, time) == []
    decreases |items|
  {
    if items != [] { NoneAt(items[..|items| - 1], time); }
  }

  lemma AtOne(item: Item, time: int)
    ensures At([item], time) == if item.sentAt == time then [item] else []
  {
    assert [item][..0] == [];
  }

  lemma AtCons(item: Item, rest: seq<Item>, time: int)
    ensures At([item] + rest, time) == (if item.sentAt == time then [item] else []) + At(rest, time)
  {
    AtConcat([item], rest, time);
    AtOne(item, time);
  }

  lemma InsertInFront(item: Item, sorted: seq<Item>, time: int)
    requires NewestFirst(sorted) && (sorted == [] || sorted[0].sentAt < item.sentAt)
    ensures At([item] + sorted, time) == At(sorted, time) + (if item.sentAt == time then [item] else [])
  {
    AtCons(item, sorted, time);
    if item.sentAt == time {
      NoneAt(sorted, time);
    } else {
      assert At(sorted, time) + [] == At(sorted, time) && [] + At(sorted, time) == At(sorted, time);
    }
  }

  lemma Regroup(a: seq<Item>, b: seq<Item>, c: seq<Item>)
    ensures a + (b + c) == (a + b) + c
  {
  }

  /** An item goes behind those of its own moment. */
  lemma {:induction false} InsertIsStable(item: Item, sorted: seq<Item>, time: int)
    requires NewestFirst(sorted)
    ensures At(Insert(item, sorted), time) == At(sorted, time) + (if item.sentAt == time then [item] else [])
    decreases |sorted|
  {
    if sorted == [] || sorted[0].sentAt < item.sentAt {
      InsertInFront(item, sorted, time);
    } else {
      var first, rest := sorted[0], sorted[1..];
      InsertIsStable(item, rest, time);
      AtCons(first, Insert(item, rest), time);
      AtCons(first, rest, time);
      assert [first] + rest == sorted;
      Regroup(if first.sentAt == time then [first] else [], At(rest, time), if item.sentAt == time then [item] else []);
    }
  }

  /** Items of one moment are listed in the order of the table. */
  lemma {:induction false} NewestIsStable(items: seq<Item>, time: int)
    ensures At(Newest(items), time) == At(items, time)
    decreases |items|
  {
    if items != [] {
      var front := items[..|items| - 1];
      NewestIsStable(front, time);
      NewestSorts(front);
      InsertIsStable(items[|items| - 1], Newest(front), time);
    }
  }

  lemma InsertBeforeOlder(item: Item, sorted: seq<Item>, cursor: Option<int>)
    requires NewestFirst(sorted) && sorted != [] && sorted[0].sentAt < item.sentAt
    ensures Insert(item, Below(sorted, cursor)) == [item] + Below(sorted, cursor)
  {
    BelowMembers(sorted, cursor);
    var kept := Below(sorted, cursor);
    assert kept == [] || kept[0] in sorted;
  }

  lemma {:induction false} BelowInsert(item: Item, sorted: seq<Item>, cursor: Option<int>)
    requires NewestFirst(sorted)
    ensures Below(Insert(item, sorted), cursor) ==
            if Keeps(cursor, item) then Insert(item, Below(sorted, cursor)) else Below(sorted, cursor)
    decreases |sorted|
  {
    if sorted == [] {
    } else if sorted[0].sentAt < item.sentAt {
      InsertBeforeOlder(item, sorted, cursor);
      BelowConcat([item], sorted, cursor);
    } else {
      var rest := sorted[1..];
      BelowInsert(item, rest, cursor);
      var kept := Below(rest, cursor);
      assert ([sorted[0]] + Insert(item, rest))[1..] == Insert(item, rest);
      assert ([sorted[0]] + kept)[1..] == kept && [] + kept == kept && [] + Insert(item, kept) == Insert(item, kept);
      assert Below(Insert(item, sorted), cursor) ==
          (if Keeps(cursor, sorted[0]) then [sorted[0]] else []) + Below(Insert(item, rest), cursor);
    }
  }

  lemma BelowSnoc(items: seq<Item>, last: Item, cursor: Option<int>)
    ensures Below(items + [last], cursor) ==
            if Keeps(cursor, last) then Below(items, cursor) + [last] else Below(items, cursor)
  {
    BelowConcat(items, [last], cursor);
    assert Below([last], cursor) == if Keeps(cursor, last) then [last] else [];
  }

  lemma NewestSnoc(items: seq<Item>, last: Item)
    ensures Newest(items + [last]) == Insert(last, Newest(items))
  {
    assert (items + [last])[..|items|] == items;
  }

  /** A stable sort commutes with a filter. */
  lemma {:induction false} BelowNewest(items: seq<Item>, cursor: Option<int>)
    ensures Newest(Below(items, cursor)) == Below(Newest(items), cursor)
    decreases |items|
  {
    if items != [] {
      var front, last := items[..|items| - 1], items[|items| - 1];
      assert items == front + [last];
      BelowNewest(front, cursor);
      NewestSorts(front);
      BelowInsert(last, Newest(front), cursor);
      BelowSnoc(front, last, cursor);
      NewestSnoc(Below(front, cursor), last);
    }
  }

  /** Behind a boundary, the items below the cursor are the rest of the listing. */
  lemma BelowIsSuffix(items: seq<Item>, k: nat)
    requires 0 < k <= |items| && Cuts(items, k)
    ensures Below(items, Some(items[k - 1].telegramId)) == items[k..]
  {
    var cursor := Some(items[k - 1].telegramId);
    assert items == items[..k] + items[k..];
    BelowConcat(items[..k], items[k..], cursor);
    forall m | m in items[..k] ensures !Keeps(cursor, m) {
      var i :| 0 <= i < k && items[..k][i] == m;
      assert IdAt(items, i) == m.telegramId;
    }
    forall m | m in items[k..] ensures Keeps(cursor, m) {
      var i :| 0 <= i < |items| - k && items[k..][i] == m;
      assert IdAt(items, k + i) == m.telegramId;
    }
    NoneBelow(items[..k], cursor);
    AllBelow(items[k..], cursor);
  }

  // ---------- Paging is exact ----------

  lemma ListedIsMember(items: seq<Item>, i: nat)
    requires i < |Newest(items)|
    ensures Newest(items)[i] in items
  {
    NewestSorts(items);
    assert Newest(items)[i] in multiset(Newest(items));
  }

  lemma RestOfListing(start: seq<Item>, k: nat)
    requires 0 < k <= |Newest(start)| && Cuts(Newest(start), k)
    ensures Newest(Below(start, Some(Newest(start)[k - 1].telegramId))) == Newest(start)[k..]
  {
    BelowNewest(start, Some(Newest(start)[k - 1].telegramId));
    BelowIsSuffix(Newest(start), k);
  }

  /** After `k` items in full pages, the next page is the next stretch of the listing. */
  lemma PageIsNextStretch(start: seq<Item>, cache: seq<Item>, limit: nat, k: nat)
    requires 1 <= limit <= 100 && 0 < k <= |Newest(start)| && Cuts(Newest(start), k)
    requires SameOldItems(start, cache)
    ensures Page(cache, Some(Newest(start)[k - 1].telegramId), limit) == Take(Newest(start)[k..], limit)
  {
    ListedIsMember(start, k - 1);
    RestOfListing(start, k);
    assert Newest(start)[k - 1].telegramId <= Newest(start)[k - 1].telegramId;
  }

  lemma Lengths(items: seq<Item>)
    ensures |Newest(items)| == |items|
  {
    NewestSorts(items);
    assert |multiset(Newest(items))| == |Newest(items)| && |multiset(items)| == |items|;
  }

  /** Full pages, and then one that is not. */
  function Requests(n: nat, limit: nat): nat
    requires limit > 0
  {
    if n < limit then 1 else 1 + Requests(n - limit, limit)
  }

  lemma ShortPage(serve: Server, limit: nat, cursor: Option<int>, j: nat, budget: nat)
    requires budget > 0 && limit > |serve(j, cursor)|
    ensures Follow(serve, limit, cursor, j, budget) == Transcript(serve(j, cursor), 1, true)
  {
  }

  /** A request answered by a full page, followed by the rest. */
  lemma FullPage(serve: Server, limit: nat, cursor: Option<int>, j: nat, budget: nat, last: int)
    requires budget > 0 && limit == |serve(j, cursor)| > 0 && last == serve(j, cursor)[limit - 1].telegramId
    ensures Follow(serve, limit, cursor, j, budget) ==
            Behind(serve(j, cursor), Follow(serve, limit, Some(last), j + 1, budget - 1))
  {
  }

  lemma PageAndRest(listing: seq<Item>, limit: nat)
    requires 0 < limit <= |listing|
    ensures var page := Take(listing, limit);
            |page| == limit && page[limit - 1] == listing[limit - 1] && page + listing[limit..] == listing
  {
  }

  /** A first page of the listing, and the rest of it by following the cursor, is all of it. */
  lemma FollowFrom(listing: seq<Item>, serve: Server, limit: nat, cursor: Option<int>, j: nat, budget: nat)
    requires 0 < limit && budget > 0 && serve(j, cursor) == Take(listing, limit)
    requires limit <= |listing| ==>
               Follow(serve, limit, Some(listing[limit - 1].telegramId), j + 1, budget - 1) ==
               Transcript(listing[limit..], Requests(|listing| - limit, limit), true)
    ensures Follow(serve, limit, cursor, j, budget) == Transcript(listing, Requests(|listing|, limit), true)
  {
    if |listing| < limit {
      ShortPage(serve, limit, cursor, j, budget);
    } else {
      PageAndRest(listing, limit);
      FullPage(serve, limit, cursor, j, budget, listing[limit - 1].telegramId);
    }
  }

  lemma RestOfRest(listing: seq<Item>, k: nat, limit: nat)
    requires 0 < limit && k + limit <= |listing|
    ensures listing[k..][limit..] == listing[k + limit..] && listing[k..][limit - 1] == listing[k + limit - 1]
  {
  }

  /** From request `j` on, the page behind every boundary is the next stretch of the listing. */
  ghost predicate Serves(serve: Server, listing: seq<Item>, limit: nat, j: nat) {
    forall i: nat, k: nat, c: int ::
      i >= j && 0 < k <= |listing| && Cuts(listing, k) && c == IdAt(listing, k - 1) ==>
        serve(i, Some(c)) == Take(listing[k..], limit)
  }

  /** The same, from the k-th item of the listing on. */
  lemma FollowBehind(listing: seq<Item>, serve: Server, limit: nat, k: nat, cursor: Option<int>, j: nat, budget: nat)
    requires 0 < limit && budget > 0 && k <= |listing| && serve(j, cursor) == Take(listing[k..], limit)
    requires k + limit <= |listing| ==>
               Follow(serve, limit, Some(listing[k + limit - 1].telegramId), j + 1, budget - 1) ==
               Transcript(listing[k + limit..], Requests(|listing| - (k + limit), limit), true)
    ensures Follow(serve, limit, cursor, j, budget) == Transcript(listing[k..], Requests(|listing| - k, limit), true)
  {
    if k + limit <= |listing| { RestOfRest(listing, k, limit); }
    FollowFrom(listing[k..], serve, limit, cursor, j, budget);
  }

  lemma {:induction false} FollowServed(listing: seq<Item>, serve: Server, limit: nat, k: nat, j: nat, budget: nat)
    requires 0 < limit && 0 < k <= |listing| && CutsFrom(listing, limit, k) && Serves(serve, listing, limit, j)
    requires budget >= Requests(|listing| - k, limit)
    ensures Follow(serve, limit, Some(listing[k - 1].telegramId), j, budget) ==
            Transcript(listing[k..], Requests(|listing| - k, limit), true)
    decreases |listing| - k
  {
    var cursor := Some(IdAt(listing, k - 1));
    assert serve(j, cursor) == Take(listing[k..], limit);
    if k + limit <= |listing| { FollowServed(listing, serve, limit, k + limit, j + 1, budget - 1); }
    FollowBehind(listing, serve, limit, k, cursor, j, budget);
  }

  /** Following the cursor from behind the first `k` items gives the rest of the listing. */
  lemma FollowIsExact(start: seq<Item>, caches: nat -> seq<Item>, limit: nat, k: nat, j: nat, budget: nat)
    requires 1 <= limit <= 100 && 0 < k <= |Newest(start)| && CutsFrom(Newest(start), limit, k)
    requires forall i: nat :: i >= j ==> SameOldItems(start, caches(i))
    requires budget >= Requests(|Newest(start)| - k, limit)
    ensures Follow(Pages(caches, limit), limit, Some(Newest(start)[k - 1].telegramId), j, budget) ==
            Transcript(Newest(start)[k..], Requests(|Newest(start)| - k, limit), true)
  {
    forall i: nat, h: nat, c: int |
      i >= j && 0 < h <= |Newest(start)| && Cuts(Newest(start), h) && c == IdAt(Newest(start), h - 1)
      ensures Pages(caches, limit)(i, Some(c)) == Take(Newest(start)[h..], limit)
    {
      PageIsNextStretch(start, caches(i), limit, h);
    }
    FollowServed(Newest(start), Pages(caches, limit), limit, k, j, budget);
  }

  lemma MultipleAtLeast(x: int, d: int)
    requires x >= 1 && d > 0
    ensures x * d >= d
  {
    assert (x - 1) * d >= 0;
  }

  lemma DivUnique(n: int, d: int, q: int, r: int)
    requires n == q * d + r && 0 <= r < d
    ensures n / d == q
  {
    var q', r' := n / d, n % d;
    assert n == q' * d + r' && 0 <= r' < d;
    assert (q' - q) * d == q' * d - q * d && (q - q') * d == q * d - q' * d;
    if q' > q {
      MultipleAtLeast(q' - q, d);
    } else if q' < q {
      MultipleAtLeast(q - q', d);
    }
  }

  /** n / limit full pages and one more request. */
  function PageCount(n: nat, limit: nat): nat
    requires limit > 0
  {
    n / limit + 1
  }

  lemma {:induction false} RequestsIsQuotient(n: nat, limit: nat)
    requires limit > 0
    ensures Requests(n, limit) == PageCount(n, limit)
    decreases n
  {
    if n < limit {
      DivUnique(n, limit, 0, n);
    } else {
      RequestsIsQuotient(n - limit, limit);
      var q, r := (n - limit) / limit, (n - limit) % limit;
      assert n - limit == q * limit + r;
      assert (q + 1) * limit == q * limit + limit;
      DivUnique(n, limit, q + 1, r);
    }
  }

  lemma FirstPage(start: seq<Item>, limit: nat)
    requires 1 <= limit <= 100
    ensures Page(start, None, limit) == Take(Newest(start), limit) && |Newest(start)| == |start|
  {
    Lengths(start);
    AllBelow(start, None);
  }

  lemma FollowFromStart(start: seq<Item>, caches: nat -> seq<Item>, limit: nat, budget: nat)
    requires 1 <= limit <= 100 && CutsFrom(Newest(start), limit, limit)
    requires caches(0) == start && forall i: nat :: i >= 1 ==> SameOldItems(start, caches(i))
    requires budget >= Requests(|start|, limit)
    ensures Follow(Pages(caches, limit), limit, None, 0, budget) ==
            Transcript(Newest(start), Requests(|start|, limit), true)
  {
    FirstPage(start, limit);
    if limit <= |start| { FollowIsExact(start, caches, limit, limit, 1, budget - 1); }
    FollowFrom(Newest(start), Pages(caches, limit), limit, None, 0, budget);
  }

  /**
   If every page boundary cuts the listing, following the cursor from the first page on returns
   each of the n items present at the start exactly once, in listing order, in n / limit + 1
   requests, whatever newer items arrive between the requests.
   */
  lemma PagingIsExact(start: seq<Item>, caches: nat -> seq<Item>, limit: nat, budget: nat)
    requires 1 <= limit <= 100 && CutsEvery(Newest(start), limit)
    requires caches(0) == start && forall i: nat :: i > 0 ==> SameOldItems(start, caches(i))
    requires budget >= PageCount(|start|, limit)
    ensures Follow(Pages(caches, limit), limit, None, 0, budget) ==
            Transcript(Newest(start), PageCount(|start|, limit), true)
    ensures multiset(Newest(start)) == multiset(start) && NewestFirst(Newest(start))
  {
    NewestSorts(start);
    RequestsIsQuotient(|start|, limit);
    CutsByPage(Newest(start), limit);
    FollowFromStart(start, caches, limit, budget);
  }

  /** Boundaries counted one by one and boundaries as multiples are the same. */
  lemma CutsByPage(items: seq<Item>, limit: nat)
    requires limit > 0
    ensures CutsEvery(items, limit) <==> CutsFrom(items, limit, limit)
  {
    CutsFromMultiples(items, limit, 1);
  }

  lemma {:induction false} CutsFromMultiples(items: seq<Item>, limit: nat, q: nat)
    requires limit > 0 && q > 0
    ensures q * limit >= limit
    ensures CutsFrom(items, limit, q * limit) <==>
            forall k :: q * limit <= k <= |items| && k % limit == 0 ==> Cuts(items, k)
    decreases |items| - q * limit
  {
    MultipleAtLeast(q, limit);
    if q * limit <= |items| {
      assert (q + 1) * limit == q * limit + limit;
      CutsFromMultiples(items, limit, q + 1);
      DivUnique(q * limit, limit, q, 0);
      forall k | q * limit < k < q * limit + limit ensures k % limit != 0 {
        DivUnique(k, limit, q, k - q * limit);
      }
    }
  }

  /** The ids are unique, as they are in the message and contact tables. */
  predicate DistinctItems(items: seq<Item>) {
    forall i, j :: 0 <= i < j < |items| ==> items[i].telegramId != items[j].telegramId
  }

  /** A larger id means a strictly later time. */
  predicate IdsFollowTime(items: seq<Item>) {
    DistinctItems(items) &&
    forall a, b :: a in items && b in items && a.telegramId < b.telegramId ==> a.sentAt < b.sentAt
  }

  lemma DescendingIdsCut(items: seq<Item>, limit: nat)
    requires IdsDescend(items) && limit > 0
    ensures CutsEvery(items, limit)
  {
    forall k | 0 < k <= |items| ensures Cuts(items, k) {
      assert forall i :: k <= i < |items| ==> items[k - 1].telegramId > items[i].telegramId;
      assert forall i :: 0 <= i < k - 1 ==> items[i].telegramId > items[k - 1].telegramId;
    }
  }

  /** Where ids follow time, ids descend along the listing: messages page exactly. */
  lemma TimeOrderedIdsDescend(items: seq<Item>)
    requires IdsFollowTime(items)
    ensures IdsDescend(Newest(items))
  {
    NewestSorts(items);
    var listing := Newest(items);
    DistinctIds(items, listing);
    forall i, j | 0 <= i < j < |listing| ensures listing[i].telegramId > listing[j].telegramId {
      assert listing[i] in multiset(listing) && listing[j] in multiset(listing);
      assert listing[i] in items && listing[j] in items;
    }
  }

  /** A permutation of items with distinct ids has distinct ids. */
  lemma DistinctIds(xs: seq<Item>, ys: seq<Item>)
    requires DistinctItems(xs) && multiset(xs) == multiset(ys)
    ensures DistinctItems(ys)
  {
    forall i, j | 0 <= i < j < |ys| ensures ys[i].telegramId != ys[j].telegramId {
      assert ys == ys[..i] + [ys[i]] + ys[i + 1..j] + [ys[j]] + ys[j + 1..];
      assert ys[i] in multiset(xs) && ys[j] in multiset(xs);
      if ys[i] == ys[j] {
        assert multiset(ys)[ys[i]] >= 2;
        OnlyOnce(xs, ys[i]);
        assert false;
      }
    }
  }

  lemma {:induction false} OnlyOnce(xs: seq<Item>, x: Item)
    requires DistinctItems(xs)
    ensures multiset(xs)[x] <= 1
    decreases |xs|
  {
    if xs != [] {
      OnlyOnce(xs[1..], x);
      assert xs == [xs[0]] + xs[1..];
      if xs[0] == x { assert x !in xs[1..]; }
    }
  }

  // ---------- Newer items arriving between requests ----------

  /** The cache holds every item of `start`, in any order, and otherwise only items with larger ids. */
  ghost predicate OnlyNewerAdded(start: seq<Item>, cache: seq<Item>) {
    && DistinctItems(cache)
    && (forall m :: m in start ==> m in cache)
    && (forall m, s :: m in cache && m !in start && s in start ==> m.telegramId > s.telegramId)
  }

  /** Sequences without repetition and with the same members are permutations of each other. */
  lemma SameMembersPermute(xs: seq<Item>, ys: seq<Item>)
    requires DistinctItems(xs) && DistinctItems(ys) && forall m :: m in xs <==> m in ys
    ensures multiset(xs) == multiset(ys)
  {
    forall m: Item ensures multiset(xs)[m] == multiset(ys)[m] {
      OnlyOnce(xs, m);
      OnlyOnce(ys, m);
      assert m in multiset(xs) <==> m in xs;
      assert m in multiset(ys) <==> m in ys;
    }
  }

  lemma {:induction false} BelowKeepsDistinct(items: seq<Item>, cursor: Option<int>)
    requires DistinctItems(items)
    ensures DistinctItems(Below(items, cursor))
    decreases |items|
  {
    if items != [] {
      BelowKeepsDistinct(items[1..], cursor);
      BelowMembers(items[1..], cursor);
      var rest := Below(items[1..], cursor);
      forall i | 0 <= i < |rest| ensures rest[i].telegramId != items[0].telegramId { assert rest[i] in items[1..]; }
    }
  }

  lemma HeadIsLargest(xs: seq<Item>, m: Item)
    requires IdsDescend(xs) && m in xs
    ensures m == xs[0] || m.telegramId < xs[0].telegramId
  {
  }

  /** There is one way to list permuted items whose ids descend. */
  lemma {:induction false} DescentIsUnique(xs: seq<Item>, ys: seq<Item>)
    requires multiset(xs) == multiset(ys) && IdsDescend(xs) && IdsDescend(ys)
    ensures xs == ys
    decreases |xs|
  {
    if xs == [] {
      assert |multiset(ys)| == 0;
    } else {
      assert xs[0] in multiset(ys);
      assert ys[0] in multiset(xs);
      HeadIsLargest(xs, ys[0]);
      HeadIsLargest(ys, xs[0]);
      TailsPermute(xs, ys);
      DescentIsUnique(xs[1..], ys[1..]);
    }
  }

  lemma TailsPermute(xs: seq<Item>, ys: seq<Item>)
    requires xs != [] && ys != [] && xs[0] == ys[0] && multiset(xs) == multiset(ys)
    ensures multiset(xs[1..]) == multiset(ys[1..])
  {
    assert xs == [xs[0]] + xs[1..] && ys == [ys[0]] + ys[1..];
    assert multiset(xs[1..]) == multiset(xs) - multiset{xs[0]};
    assert multiset(ys[1..]) == multiset(ys) - multiset{ys[0]};
  }

  /** Newer items, and any reordering of the table, leave every old page as it was. */
  lemma NewerItemsLeaveOldPages(start: seq<Item>, cache: seq<Item>)
    requires IdsFollowTime(start) && OnlyNewerAdded(start, cache)
    ensures SameOldItems(start, cache)
  {
    forall m, c: int | m in start && c <= m.telegramId
      ensures Newest(Below(cache, Some(c))) == Newest(Below(start, Some(c)))
    {
      var xs, ys := Below(cache, Some(c)), Below(start, Some(c));
      BelowMembers(cache, Some(c));
      BelowMembers(start, Some(c));
      BelowKeepsDistinct(cache, Some(c));
      BelowKeepsDistinct(start, Some(c));
      SameMembersPermute(xs, ys);
      TimeOrderedIdsDescend(xs);
      TimeOrderedIdsDescend(ys);
      NewestSorts(xs);
      NewestSorts(ys);
      DescentIsUnique(Newest(xs), Newest(ys));
    }
  }

  // ---------- Main theorems ----------

  /**
   Messages of a chat in which a larger id always has a strictly later time: following the cursor
   with any limit from 1 to 100 returns each of the n messages cached at the start exactly once,
   newest first, in n / limit + 1 requests, even when newer messages arrive between the requests.
   */
  lemma MessagesPageExactly(start: seq<Item>, caches: nat -> seq<Item>, limit: nat, budget: nat)
    requires 1 <= limit <= 100 && IdsFollowTime(start) && budget >= PageCount(|start|, limit)
    requires caches(0) == start && forall i: nat :: i > 0 ==> OnlyNewerAdded(start, caches(i))
    ensures var t := Follow(Pages(caches, limit), limit, None, 0, budget);
            && t.finished && t.requests == PageCount(|start|, limit)
            && multiset(t.items) == multiset(start) && NewestFirst(t.items) && IdsDescend(t.items)
  {
    TimeOrderedIdsDescend(start);
    DescendingIdsCut(Newest(start), limit);
    forall i: nat | i > 0 ensures SameOldItems(start, caches(i)) { NewerItemsLeaveOldPages(start, caches(i)); }
    PagingIsExact(start, caches, limit, budget);
  }

  /** Contacts of one account are listed by id itself, so they need no hypothesis on time. */
  lemma ContactsPageExactly(start: seq<Item>, caches: nat -> seq<Item>, limit: nat, budget: nat)
    requires forall m :: m in start ==> m.sentAt == m.telegramId
    requires 1 <= limit <= 100 && DistinctItems(start) && budget >= PageCount(|start|, limit)
    requires caches(0) == start && forall i: nat :: i > 0 ==> OnlyNewerAdded(start, caches(i))
    ensures var t := Follow(Pages(caches, limit), limit, None, 0, budget);
            && t.finished && t.requests == PageCount(|start|, limit)
            && multiset(t.items) == multiset(start) && IdsDescend(t.items)
  {
    MessagesPageExactly(start, caches, limit, budget);
  }

  /** The same cache at every request. */
  function Still(items: seq<Item>): nat -> seq<Item> { (j: nat) => items }

  lemma PageMembers(items: seq<Item>, cursor: Option<int>)
    ensures var page := Page(items, cursor, 1); |page| <= 1 && forall m :: m in page ==> Keeps(cursor, m)
  {
    var below := Below(items, cursor);
    NewestSorts(below);
    BelowMembers(items, cursor);
    forall m | m in Newest(below) ensures m in below { assert m in multiset(Newest(below)); }
  }

  /** At most one item at a time, and that below the cursor. */
  ghost predicate ServesSingles(serve: Server) {
    forall j: nat, cursor :: |serve(j, cursor)| <= 1 && forall m :: m in serve(j, cursor) ==> Keeps(cursor, m)
  }

  /** One by one, the ids returned can only go down. */
  lemma {:induction false} SinglesDescend(serve: Server, cursor: Option<int>, j: nat, budget: nat)
    requires ServesSingles(serve)
    ensures var items := Follow(serve, 1, cursor, j, budget).items;
            IdsDescend(items) && forall m :: m in items ==> Keeps(cursor, m)
    decreases budget
  {
    if budget > 0 {
      var page := serve(j, cursor);
      if page == [] {
        ShortPage(serve, 1, cursor, j, budget);
      } else {
        FullPage(serve, 1, cursor, j, budget, page[0].telegramId);
        SinglesDescend(serve, Some(page[0].telegramId), j + 1, budget - 1);
        assert page == [page[0]] && page[0] in page;
        var rest := Follow(serve, 1, Some(page[0].telegramId), j + 1, budget - 1).items;
        forall i | 0 <= i < |rest| ensures rest[i].telegramId < page[0].telegramId { assert rest[i] in rest; }
      }
    }
  }

  lemma QuotientIsSmaller(n: nat, limit: nat)
    requires limit >= 1
    ensures PageCount(n, limit) <= n + 1
  {
    RequestsIsQuotient(n, limit);
    RequestsAtMost(n, limit);
  }

  lemma {:induction false} RequestsAtMost(n: nat, limit: nat)
    requires limit >= 1
    ensures Requests(n, limit) <= n + 1
    decreases n
  {
    if n >= limit { RequestsAtMost(n - limit, limit); }
  }

  /** On an unchanging cache, the pages of this size add up to the listing. */
  predicate PagesAddUp(items: seq<Item>, limit: nat) {
    Follow(Pages(Still(items), limit), limit, None, 0, |items| + 1).items == Newest(items)
  }

  /** If what is below the cursor is as long as the rest of the listing and all of that rest, the boundary cuts. */
  lemma SuffixBelowCuts(items: seq<Item>, k: nat, c: int)
    requires k <= |items| && Below(items, Some(c)) == items[k..]
    ensures forall i :: k <= i < |items| ==> items[i].telegramId < c
    ensures forall i :: 0 <= i < k ==> items[i].telegramId >= c
  {
    var cursor := Some(c);
    BelowMembers(items, cursor);
    forall i | k <= i < |items| ensures items[i].telegramId < c { assert items[k..][i - k] in Below(items, cursor); }
    assert items == items[..k] + items[k..];
    BelowConcat(items[..k], items[k..], cursor);
    AllBelow(items[k..], cursor);
    BelowMembers(items[..k], cursor);
    assert |Below(items[..k], cursor)| == 0;
    forall i | 0 <= i < k ensures items[i].telegramId >= c { assert items[..k][i] in items[..k]; }
  }

  /** Whatever a full page shows is below the cursor. */
  lemma ShownIsBelow(listing: seq<Item>, limit: nat, k: nat, i: nat)
    requires 0 < k <= i < k + limit <= |listing|
    requires Take(Below(listing, Some(listing[k - 1].telegramId)), limit) == listing[k..k + limit]
    ensures listing[i].telegramId < listing[k - 1].telegramId
  {
    var below := Below(listing, Some(listing[k - 1].telegramId));
    BelowMembers(listing, Some(listing[k - 1].telegramId));
    assert Take(below, limit)[i - k] == listing[k..k + limit][i - k] == listing[i];
    assert Take(below, limit)[i - k] == below[i - k];
    assert listing[i] in below;
  }

  lemma FirstBelow(listing: seq<Item>, k: nat, cursor: Option<int>)
    requires k <= |listing| && Below(listing[..k], cursor) != []
    ensures Below(listing, cursor) != [] && Below(listing, cursor)[0] in listing[..k]
  {
    assert listing == listing[..k] + listing[k..];
    BelowConcat(listing[..k], listing[k..], cursor);
    BelowMembers(listing[..k], cursor);
    assert Below(listing[..k], cursor)[0] in Below(listing[..k], cursor);
  }

  /** Nothing ahead of a boundary is below the cursor if the first item below it is the one behind. */
  lemma NothingAhead(listing: seq<Item>, k: nat, cursor: Option<int>, i: nat)
    requires DistinctItems(listing) && i < k < |listing|
    requires Below(listing, cursor) != [] && Below(listing, cursor)[0] == listing[k]
    ensures !Keeps(cursor, listing[i])
  {
    BelowMembers(listing[..k], cursor);
    assert listing[..k][i] == listing[i] && listing[k] !in listing[..k];
    if Below(listing[..k], cursor) != [] { FirstBelow(listing, k, cursor); }
  }

  lemma FirstShown(listing: seq<Item>, limit: nat, k: nat, cursor: Option<int>)
    requires 0 < limit && k + limit <= |listing| && Take(Below(listing, cursor), limit) == listing[k..k + limit]
    ensures Below(listing, cursor) != [] && Below(listing, cursor)[0] == listing[k]
  {
    assert Take(Below(listing, cursor), limit)[0] == listing[k..k + limit][0];
  }

  /**
   The converse step: if a full page is the next stretch of the listing and the boundary behind it
   cuts, then the boundary before it cuts.
   */
  lemma CutsBackwards(listing: seq<Item>, limit: nat, k: nat)
    requires DistinctItems(listing) && 0 < limit && 0 < k && k + limit <= |listing| && Cuts(listing, k + limit)
    requires Take(Below(listing, Some(listing[k - 1].telegramId)), limit) == listing[k..k + limit]
    ensures Cuts(listing, k)
  {
    var c := listing[k - 1].telegramId;
    FirstShown(listing, limit, k, Some(c));
    forall i | 0 <= i < k ensures listing[i].telegramId >= c { NothingAhead(listing, k, Some(c), i); }
    ShownIsBelow(listing, limit, k, k + limit - 1);
    forall i | k <= i < |listing| ensures IdAt(listing, i) < c {
      if i < k + limit { ShownIsBelow(listing, limit, k, i); }
    }
  }

  lemma StillPage(items: seq<Item>, c: int, limit: nat)
    requires limit <= 100
    ensures Page(items, Some(c), limit) == Take(Below(Newest(items), Some(c)), limit)
  {
    BelowNewest(items, Some(c));
  }

  /** A last page that is the rest of the listing makes its boundary cut. */
  lemma LastPageCuts(listing: seq<Item>, k: nat)
    requires 0 < k <= |listing| && Below(listing, Some(listing[k - 1].telegramId)) == listing[k..]
    ensures Cuts(listing, k)
  {
    SuffixBelowCuts(listing, k, listing[k - 1].telegramId);
  }

  lemma SplitsAsPage(listing: seq<Item>, limit: nat, k: nat, page: seq<Item>, rest: seq<Item>)
    requires 0 < limit == |page| && k <= |listing| && page + rest == listing[k..]
    ensures k + limit <= |listing| && page == listing[k..k + limit] && rest == listing[k + limit..]
    ensures page[limit - 1] == listing[k + limit - 1]
  {
    assert page == (page + rest)[..limit] && rest == (page + rest)[limit..];
  }

  /** A transcript that ends with the listing, from its k-th item on, ends so from the next boundary on. */
  lemma NextBoundary(listing: seq<Item>, serve: Server, limit: nat, k: nat, cursor: Option<int>, j: nat, budget: nat)
    requires k <= |listing| && budget > 0 && |serve(j, cursor)| == limit > 0
    requires Follow(serve, limit, cursor, j, budget).items == listing[k..]
    ensures k + limit <= |listing| && serve(j, cursor) == listing[k..k + limit]
    ensures Follow(serve, limit, Some(listing[k + limit - 1].telegramId), j + 1, budget - 1).items ==
            listing[k + limit..]
  {
    var last := serve(j, cursor)[limit - 1].telegramId;
    FullPage(serve, limit, cursor, j, budget, last);
    SplitsAsPage(listing, limit, k, serve(j, cursor), Follow(serve, limit, Some(last), j + 1, budget - 1).items);
  }

  /** The page behind the k-th item tells whether its boundary cuts: at the end of the listing, and before a cut. */
  ghost predicate Tells(serve: Server, listing: seq<Item>, limit: nat) {
    forall j: nat, k: nat, c: int :: 0 < k <= |listing| && c == IdAt(listing, k - 1) ==>
      TellsAt(serve(j, Some(c)), listing, limit, k)
  }

  predicate TellsAt(page: seq<Item>, listing: seq<Item>, limit: nat, k: nat)
    requires 0 < k <= |listing|
  {
    && (|page| < limit && page == listing[k..] ==> Cuts(listing, k))
    && (0 < limit && k + limit <= |listing| && page == listing[k..k + limit] && Cuts(listing, k + limit) ==>
          Cuts(listing, k))
  }

  lemma PageTells(items: seq<Item>, limit: nat, k: nat)
    requires DistinctItems(items) && limit <= 100 && 0 < k <= |Newest(items)|
    ensures TellsAt(Page(items, Some(IdAt(Newest(items), k - 1)), limit), Newest(items), limit, k)
  {
    var listing := Newest(items);
    NewestSorts(items);
    DistinctIds(items, listing);
    StillPage(items, IdAt(listing, k - 1), limit);
    BelowTells(listing, limit, k);
  }

  lemma BelowTells(listing: seq<Item>, limit: nat, k: nat)
    requires DistinctItems(listing) && 0 < k <= |listing|
    ensures TellsAt(Take(Below(listing, Some(listing[k - 1].telegramId)), limit), listing, limit, k)
  {
    var page := Take(Below(listing, Some(listing[k - 1].telegramId)), limit);
    if |page| < limit && page == listing[k..] { LastPageCuts(listing, k); }
    if 0 < limit && k + limit <= |listing| && page == listing[k..k + limit] && Cuts(listing, k + limit) {
      CutsBackwards(listing, limit, k);
    }
  }

  /** Following the cursor from behind the first `k` items gives the rest only if every boundary from there on cuts. */
  lemma {:induction false} ExactOnlyIfCuts(listing: seq<Item>, serve: Server, limit: nat, k: nat, j: nat, budget: nat)
    requires Tells(serve, listing, limit) && 0 < limit && 0 < k <= |listing| < k + budget
    requires forall i: nat, c :: |serve(i, c)| <= limit
    requires Follow(serve, limit, Some(listing[k - 1].telegramId), j, budget).items == listing[k..]
    ensures CutsFrom(listing, limit, k)
    decreases |listing| - k
  {
    var cursor := Some(IdAt(listing, k - 1));
    assert TellsAt(serve(j, cursor), listing, limit, k);
    if |serve(j, cursor)| < limit {
      ShortPage(serve, limit, cursor, j, budget);
    } else {
      NextBoundary(listing, serve, limit, k, cursor, j, budget);
      ExactOnlyIfCuts(listing, serve, limit, k + limit, j + 1, budget - 1);
    }
  }

  /**
   The condition is exact for each limit: on an unchanging cache the pages of this size add up to the
   listing if and only if every page boundary cuts it.
   */
  lemma PagesAddUpIffBoundariesCut(items: seq<Item>, limit: nat)
    requires DistinctItems(items) && 1 <= limit <= 100
    ensures PagesAddUp(items, limit) <==> CutsEvery(Newest(items), limit)
  {
    CutsByPage(Newest(items), limit);
    if CutsFrom(Newest(items), limit, limit) { AddUpIfCuts(items, limit); }
    if PagesAddUp(items, limit) { AddUpOnlyIfCuts(items, limit); }
  }

  lemma AddUpIfCuts(items: seq<Item>, limit: nat)
    requires 1 <= limit <= 100 && CutsFrom(Newest(items), limit, limit)
    ensures PagesAddUp(items, limit)
  {
    RequestsAtMost(|items|, limit);
    FollowFromStart(items, Still(items), limit, |items| + 1);
  }

  lemma AddUpOnlyIfCuts(items: seq<Item>, limit: nat)
    requires DistinctItems(items) && 1 <= limit <= 100 && PagesAddUp(items, limit)
    ensures CutsFrom(Newest(items), limit, limit)
  {
    var listing := Newest(items);
    FirstPage(items, limit);
    if limit <= |listing| {
      var serve := Pages(Still(items), limit);
      assert listing[0..] == listing;
      NextBoundary(listing, serve, limit, 0, None, 0, |items| + 1);
      forall j: nat, k: nat, c: int | 0 < k <= |listing| && c == IdAt(listing, k - 1)
        ensures TellsAt(serve(j, Some(c)), listing, limit, k)
      {
        PageTells(items, limit, k);
      }
      ExactOnlyIfCuts(listing, serve, limit, limit, 1, |items|);
    }
  }

  /** So for all limits together: the pages add up for every limit from 1 to 100 iff ids descend along the listing. */
  lemma PagingExactIffIdsDescend(items: seq<Item>)
    ensures (forall limit :: 1 <= limit <= 100 ==> PagesAddUp(items, limit)) <==> IdsDescend(Newest(items))
  {
    if IdsDescend(Newest(items)) {
      forall limit | 1 <= limit <= 100 ensures PagesAddUp(items, limit) {
        QuotientIsSmaller(|items|, limit);
        DescendingIdsCut(Newest(items), limit);
        PagingIsExact(items, Still(items), limit, |items| + 1);
      }
    } else {
      var serve := Pages(Still(items), 1);
      forall j: nat, cursor ensures |serve(j, cursor)| <= 1 && forall m :: m in serve(j, cursor) ==> Keeps(cursor, m) {
        PageMembers(items, cursor);
      }
      SinglesDescend(serve, None, 0, |items| + 1);
      assert !PagesAddUp(items, 1);
    }
  }

  /**
   A message whose id is larger but whose time is earlier is never returned when paging one by one.
   Pages of the default size lose nothing of so short a chat.
   */
  lemma OutOfOrderMessageIsLost()
    ensures var items := [Item(1, 20), Item(2, 10)];
            && Follow(Pages(Still(items), 1), 1, None, 0, 3) == Transcript([Item(1, 20)], 2, true)
            && !PagesAddUp(items, 1) && PagesAddUp(items, 50)
  {
    var items := [Item(1, 20), Item(2, 10)];
    assert items[..1] == [Item(1, 20)] && items[..1][..0] == [];
    AllBelow(items, None);
    assert Newest(items[..1]) == [Item(1, 20)];
    assert [Item(1, 20)][1..] == [] && Insert(Item(2, 10), []) == [Item(2, 10)];
    assert Newest(items) == [Item(1, 20), Item(2, 10)];
    assert Page(items, None, 1) == [Item(1, 20)];
    NoneBelow(items, Some(1));
    assert Page(items, Some(1), 1) == [];
    assert PagesAddUp(items, 50) by { PagesAddUpIffBoundariesCut(items, 50); }
    assert Newest(items)[1].telegramId > Newest(items)[0].telegramId && !Cuts(Newest(items), 1) by {
      assert IdAt(Newest(items), 1) > IdAt(Newest(items), 0);
    }
    PagesAddUpIffBoundariesCut(items, 1);
  }
}
