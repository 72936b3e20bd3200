// Open orders per node, counted over the newest version of each order.
module OrderCounts {
  import opened Prelude
  import opened Types

  datatype OrderInfo = OrderInfo(
    id: string,
    creatorPubkey: string,
    status: OrderStatus,
    fiatCode: string,
    createdAt: int,
    expiresAt: Option<int>)

  // An addressable order: its author and its `d` tag.
  type Key = (string, string)

  function KeyOf(o: OrderInfo): Key {
    (o.creatorPubkey, o.id)
  }

  predicate IsOpen(o: OrderInfo, now: int) {
    o.status == Pending && (o.expiresAt.Some? ==> o.expiresAt.value > now)
  }

  function UpperChar(c: char): char {
    if 'a' <= c <= 'z' then (c as int - 32) as char else c
  }

  function Upper(s: string): string {
    seq(|s|, i requires 0 <= i < |s| => UpperChar(s[i]))
  }

  // Letter by letter: the small ASCII letters become capital ones.
  lemma UpperExactly(s: string, i: nat)
    requires i < |s|
    ensures |Upper(s)| == |s|
    ensures var small, capital := "abcdefghijklmnopqrstuvwxyz", "ABCDEFGHIJKLMNOPQRSTUVWXYZ";
      if s[i] in small then exists k :: 0 <= k < 26 && small[k] == s[i] && capital[k] == Upper(s)[i]
      else Upper(s)[i] == s[i]
  {
    var small, capital := "abcdefghijklmnopqrstuvwxyz", "ABCDEFGHIJKLMNOPQRSTUVWXYZ";
    assert forall k :: 0 <= k < 26 ==> small[k] as int == 97 + k && capital[k] as int == 65 + k;
    if 'a' <= s[i] <= 'z' {
      var k := s[i] as int - 97;
      assert small[k] == s[i] && capital[k] == Upper(s)[i];
    }
  }

  // ---- Newest version per key ----------------------------------------------------

  function Latest(orders: seq<OrderInfo>): map<Key, OrderInfo> {
    if orders == [] then map[]
    else
      var before, o := Latest(orders[..|orders| - 1]), orders[|orders| - 1];
      if KeyOf(o) in before && before[KeyOf(o)].createdAt >= o.createdAt then before
      else before[KeyOf(o) := o]
  }

  method DedupLatest(orders: seq<OrderInfo>) returns (latest: map<Key, OrderInfo>)
    ensures latest == Latest(orders)
  {
    latest := map[];
    for i := 0 to |orders|
      invariant latest == Latest(orders[..i])
    {
      var order := orders[i];
      var key := KeyOf(order);
      assert orders[..i + 1][..i] == orders[..i];
      if key in latest && latest[key].createdAt >= order.createdAt {
      } else {
        latest := latest[key := order];
      }
    }
    assert orders[..|orders|] == orders;
  }

  // Two versions of one order: same author, same id.
  ghost predicate SameOrder(a: OrderInfo, b: OrderInfo) {
    a.creatorPubkey == b.creatorPubkey && a.id == b.id
  }

  ghost predicate NoTies(orders: seq<OrderInfo>) {
    forall x, y :: x in orders && y in orders && SameOrder(x, y) && x.createdAt == y.createdAt ==> x == y
  }

  ghost predicate IsNewest(o: OrderInfo, orders: seq<OrderInfo>) {
    && o in orders
    && forall other :: other in orders && SameOrder(other, o) && other != o ==> other.createdAt < o.createdAt
  }

  lemma {:induction false} LatestIsNewest(orders: seq<OrderInfo>)
    requires NoTies(orders)
    ensures forall k :: k in Latest(orders) ==> KeyOf(Latest(orders)[k]) == k && IsNewest(Latest(orders)[k], orders)
    ensures forall o :: o in orders ==> KeyOf(o) in Latest(orders)
  {
    if orders != [] {
      var before := orders[..|orders| - 1];
      assert forall o :: o in orders <==> o in before || o == orders[|orders| - 1];
      LatestIsNewest(before);
    }
  }

  // Also among versions of one second: the first of the newest stays.
  ghost predicate IsFirstOfNewest(orders: seq<OrderInfo>, i: int) {
    && 0 <= i < |orders|
    && (forall j :: 0 <= j < |orders| && SameOrder(orders[j], orders[i]) ==> orders[j].createdAt <= orders[i].createdAt)
    && (forall j :: 0 <= j < i && SameOrder(orders[j], orders[i]) ==> orders[j].createdAt < orders[i].createdAt)
  }

  lemma {:induction false} LatestIsFirstOfNewest(orders: seq<OrderInfo>, author: string, id: string) returns (i: int)
    ensures if (author, id) in Latest(orders) then
        && IsFirstOfNewest(orders, i) && Latest(orders)[(author, id)] == orders[i]
        && orders[i].creatorPubkey == author && orders[i].id == id
      else
        forall j :: 0 <= j < |orders| ==> orders[j].creatorPubkey != author || orders[j].id != id
  {
    i := 0;
    if orders != [] {
      var n := |orders| - 1;
      i := LatestIsFirstOfNewest(orders[..n], author, id);
      var before, key := Latest(orders[..n]), (author, id);
      if KeyOf(orders[n]) == key && (key !in before || before[key].createdAt < orders[n].createdAt) {
        i := n;
      }
    }
  }

  // ---- Sums over a map -------------------------------------------------------------

  ghost function Sum(m: map<string, nat>): nat
    decreases |m|
  {
    if m == map[] then 0
    else
      var k :| k in m;
      assert |(m - {k}).Keys| == |m.Keys| - 1;
      m[k] + Sum(m - {k})
  }

  lemma {:induction false} SumWithout(m: map<string, nat>, k: string)
    requires k in m
    ensures Sum(m) == m[k] + Sum(m - {k})
    decreases |m|
  {
    var j :| j in m && Sum(m) == m[j] + Sum(m - {j});
    if j != k {
      assert |(m - {j}).Keys| == |m.Keys| - 1;
      assert |(m - {k}).Keys| == |m.Keys| - 1;
      SumWithout(m - {j}, k);
      SumWithout(m - {k}, j);
      assert m - {j} - {k} == m - {k} - {j};
    }
  }

  lemma SumBump(m: map<string, nat>, k: string)
    ensures Sum(m[k := (if k in m then m[k] else 0) + 1]) == Sum(m) + 1
  {
    var bumped := m[k := (if k in m then m[k] else 0) + 1];
    SumWithout(bumped, k);
    assert bumped - {k} == m - {k};
    if k in m {
      SumWithout(m, k);
    } else {
      assert m - {k} == m;
    }
  }

  // ---- Liquidity per node ------------------------------------------------------------

  datatype Liquidity = Liquidity(byFiat: map<string, nat>, latestAt: Option<int>)

  // The keys among `done` whose newest version is an open order of `node`.
  ghost function OpenAmong(latest: map<Key, OrderInfo>, done: set<Key>, node: string, now: int): set<Key> {
    set k | k in done && k in latest && latest[k].creatorPubkey == node && IsOpen(latest[k], now)
  }

  ghost function InFiat(latest: map<Key, OrderInfo>, open: set<Key>, fiat: string): set<Key>
    requires open <= latest.Keys
  {
    set k | k in open && Upper(latest[k].fiatCode) == fiat
  }

  ghost predicate FiatCounts(latest: map<Key, OrderInfo>, open: set<Key>, byFiat: map<string, nat>)
    requires open <= latest.Keys
  {
    forall fiat ::
      && (fiat in byFiat <==> InFiat(latest, open, fiat) != {})
      && (fiat in byFiat ==> byFiat[fiat] == |InFiat(latest, open, fiat)|)
  }

  ghost predicate IsMaxCreatedAt(latest: map<Key, OrderInfo>, open: set<Key>, at: Option<int>)
    requires open <= latest.Keys
  {
    && (at.None? <==> open == {})
    && (at.Some? ==> exists k :: k in open && latest[k].createdAt == at.value)
    && (at.Some? ==> forall k :: k in open ==> latest[k].createdAt <= at.value)
  }

  ghost predicate Describes(latest: map<Key, OrderInfo>, open: set<Key>, l: Liquidity)
    requires open <= latest.Keys
  {
    && Sum(l.byFiat) == |open|
    && FiatCounts(latest, open, l.byFiat)
    && IsMaxCreatedAt(latest, open, l.latestAt)
  }

  function EntryOf(perNode: map<string, Liquidity>, node: string): Liquidity {
    if node in perNode then perNode[node] else Liquidity(map[], None)
  }

  function AddOrder(entry: Liquidity, order: OrderInfo): Liquidity {
    var fiat := Upper(order.fiatCode);
    Liquidity(
      entry.byFiat[fiat := (if fiat in entry.byFiat then entry.byFiat[fiat] else 0) + 1],
      Some(if entry.latestAt.Some? then Max(entry.latestAt.value, order.createdAt) else order.createdAt))
  }

  ghost predicate Counts(latest: map<Key, OrderInfo>, done: set<Key>, node: string, now: int,
                         perNode: map<string, Liquidity>)
  {
    var open := OpenAmong(latest, done, node, now);
    && (node in perNode <==> open != {})
    && Describes(latest, open, EntryOf(perNode, node))
  }

  method CountOpenOrders(orders: seq<OrderInfo>, now: int) returns (perNode: map<string, Liquidity>)
    ensures forall node :: Counts(Latest(orders), Latest(orders).Keys, node, now, perNode)
  {
    var latest := DedupLatest(orders);
    perNode := map[];
    var todo := latest.Keys;
    ghost var done: set<Key> := {};
    NothingCounted(latest, now);
    while todo != {}
      invariant todo + done == latest.Keys && todo !! done
      invariant forall node :: Counts(latest, done, node, now, perNode)
    {
      var key :| key in todo;
      todo := todo - {key};
      var order := latest[key];
      if !IsOpen(order, now) {
        ClosedOrder(latest, done, key, now, perNode);
        done := done + {key};
        continue;
      }
      var node := order.creatorPubkey;
      OpenOrder(latest, done, key, now, perNode);
      perNode := perNode[node := AddOrder(EntryOf(perNode, node), order)];
      done := done + {key};
    }
    assert done == latest.Keys;
  }

  lemma NothingCounted(latest: map<Key, OrderInfo>, now: int)
    ensures forall node :: Counts(latest, {}, node, now, map[])
  {
    forall node ensures Counts(latest, {}, node, now, map[]) {
      assert OpenAmong(latest, {}, node, now) == {};
    }
  }

  lemma ClosedOrder(latest: map<Key, OrderInfo>, done: set<Key>, key: Key, now: int, perNode: map<string, Liquidity>)
    requires key in latest && key !in done && !IsOpen(latest[key], now)
    requires forall node :: Counts(latest, done, node, now, perNode)
    ensures forall node :: Counts(latest, done + {key}, node, now, perNode)
  {
    forall node ensures Counts(latest, done + {key}, node, now, perNode) {
      assert Counts(latest, done, node, now, perNode);
      OtherNode(latest, done, key, node, now);
    }
  }

  lemma OpenOrder(latest: map<Key, OrderInfo>, done: set<Key>, key: Key, now: int, perNode: map<string, Liquidity>)
    requires key in latest && key !in done && IsOpen(latest[key], now)
    requires forall node :: Counts(latest, done, node, now, perNode)
    ensures
      var node := latest[key].creatorPubkey;
      var after := perNode[node := AddOrder(EntryOf(perNode, node), latest[key])];
      forall n :: Counts(latest, done + {key}, n, now, after)
  {
    var node := latest[key].creatorPubkey;
    var after := perNode[node := AddOrder(EntryOf(perNode, node), latest[key])];
    forall n ensures Counts(latest, done + {key}, n, now, after) {
      assert Counts(latest, done, n, now, perNode);
      if n == node {
        assert OpenAmong(latest, done + {key}, n, now) == OpenAmong(latest, done, n, now) + {key};
        OneMoreOpen(latest, OpenAmong(latest, done, n, now), key, EntryOf(perNode, n));
      } else {
        OtherNode(latest, done, key, n, now);
      }
    }
  }

  lemma OtherNode(latest: map<Key, OrderInfo>, done: set<Key>, key: Key, node: string, now: int)
    requires key in latest && key !in done
    requires latest[key].creatorPubkey != node || !IsOpen(latest[key], now)
    ensures OpenAmong(latest, done + {key}, node, now) == OpenAmong(latest, done, node, now)
  {
  }

  lemma OneMoreOpen(latest: map<Key, OrderInfo>, open: set<Key>, key: Key, entry: Liquidity)
    requires open <= latest.Keys && key in latest && key !in open
    requires Describes(latest, open, entry)
    ensures Describes(latest, open + {key}, AddOrder(entry, latest[key]))
  {
    var order := latest[key];
    SumBump(entry.byFiat, Upper(order.fiatCode));
    OneMoreInFiat(latest, open, key, entry);
    assert key in open + {key};
    if entry.latestAt.Some? {
      var k :| k in open && latest[k].createdAt == entry.latestAt.value;
      assert k in open + {key};
    }
  }

  lemma OneMoreInFiat(latest: map<Key, OrderInfo>, open: set<Key>, key: Key, entry: Liquidity)
    requires open <= latest.Keys && key in latest && key !in open
    requires FiatCounts(latest, open, entry.byFiat)
    ensures FiatCounts(latest, open + {key}, AddOrder(entry, latest[key]).byFiat)
  {
    forall fiat {
      MoreOfFiat(latest, open, key, fiat);
    }
  }

  lemma MoreOfFiat(latest: map<Key, OrderInfo>, open: set<Key>, key: Key, fiat: string)
    requires open <= latest.Keys && key in latest && key !in open
    ensures InFiat(latest, open + {key}, fiat)
      == InFiat(latest, open, fiat) + (if fiat == Upper(latest[key].fiatCode) then {key} else {})
    ensures key !in InFiat(latest, open, fiat)
  {
  }

  // The row's total is the sum of its per-fiat counts, whatever order the map
  // is walked in; a node without open orders keeps the empty row's zero.
  method ApplyOrderCounts(liquidity: Option<Liquidity>) returns (totalOrders: nat)
    ensures totalOrders == if liquidity.Some? then Sum(liquidity.value.byFiat) else 0
  {
    if liquidity.None? {
      return 0;
    }
    totalOrders := 0;
    var rest := liquidity.value.byFiat;
    while rest != map[]
      invariant totalOrders + Sum(rest) == Sum(liquidity.value.byFiat)
      decreases |rest|
    {
      var fiat :| fiat in rest;
      SumWithout(rest, fiat);
      totalOrders := totalOrders + rest[fiat];
      assert |(rest - {fiat}).Keys| == |rest.Keys| - 1;
      rest := rest - {fiat};
    }
  }

  // ---- What the rows mean ------------------------------------------------------------

  // The keys of `node` whose newest version is pending and unexpired, said
  // without the fold.
  ghost function OpenKeys(orders: seq<OrderInfo>, node: string, now: int): set<Key> {
    set o |
      && o in orders && IsNewest(o, orders) && o.creatorPubkey == node
      && o.status == Pending && (o.expiresAt == None || o.expiresAt.value > now)
      :: (node, o.id)
  }

  lemma OpenKeysAreCounted(orders: seq<OrderInfo>, node: string, now: int)
    requires NoTies(orders)
    ensures OpenAmong(Latest(orders), Latest(orders).Keys, node, now) == OpenKeys(orders, node, now)
  {
    var latest := Latest(orders);
    LatestIsNewest(orders);
    forall k ensures k in OpenAmong(latest, latest.Keys, node, now) <==> k in OpenKeys(orders, node, now) {
      if k in OpenKeys(orders, node, now) {
        var o :| o in orders && IsNewest(o, orders) && o.creatorPubkey == node && IsOpen(o, now) && (node, o.id) == k;
        assert latest[k] == o;
      }
    }
  }

  // A node's total is the number of its keys whose newest version is open.
  method TotalOrdersOf(orders: seq<OrderInfo>, node: string, now: int) returns (totalOrders: nat)
    ensures NoTies(orders) ==> totalOrders == |OpenKeys(orders, node, now)|
  {
    var perNode := CountOpenOrders(orders, now);
    assert Counts(Latest(orders), Latest(orders).Keys, node, now, perNode);
    totalOrders := ApplyOrderCounts(if node in perNode then Some(perNode[node]) else None);
    if NoTies(orders) {
      OpenKeysAreCounted(orders, node, now);
    }
  }

  // Arrival order and repetitions do not matter.
  lemma LatestIgnoresOrder(xs: seq<OrderInfo>, ys: seq<OrderInfo>)
    requires NoTies(xs) && forall o :: o in xs <==> o in ys
    ensures Latest(xs) == Latest(ys)
  {
    LatestIsNewest(xs);
    LatestIsNewest(ys);
    forall k | k in Latest(xs)
      ensures k in Latest(ys) && Latest(ys)[k] == Latest(xs)[k]
    {
      assert Latest(xs)[k] in ys;
    }
    forall k | k in Latest(ys) ensures k in Latest(xs) {
      assert Latest(ys)[k] in xs;
    }
  }

  // Neither do older versions of an order already seen, wherever they arrive.
  lemma LatestIgnoresOlder(orders: seq<OrderInfo>, newer: OrderInfo, older: OrderInfo, i: nat)
    requires i <= |orders| && NoTies(orders)
    requires newer in orders && KeyOf(newer) == KeyOf(older) && older.createdAt < newer.createdAt
    requires NoTies(orders[..i] + [older] + orders[i..])
    ensures Latest(orders[..i] + [older] + orders[i..]) == Latest(orders)
  {
    var more := orders[..i] + [older] + orders[i..];
    assert forall o :: o in more <==> o in orders || o == older by {
      assert orders == orders[..i] + orders[i..];
    }
    assert forall o :: o in orders + [older] <==> o in orders || o == older;
    LatestIgnoresOrder(more, orders + [older]);
    LatestIgnoresOlderLast(orders, newer, older);
  }

  lemma LatestIgnoresOlderLast(orders: seq<OrderInfo>, newer: OrderInfo, older: OrderInfo)
    requires NoTies(orders) && newer in orders && KeyOf(newer) == KeyOf(older) && older.createdAt < newer.createdAt
    ensures Latest(orders + [older]) == Latest(orders)
  {
    assert (orders + [older])[..|orders|] == orders;
    var i := LatestIsFirstOfNewest(orders, newer.creatorPubkey, newer.id);
  }
}
