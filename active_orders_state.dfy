/** The trader's own resting orders (`ActiveOrdersState`), grouped token -> side
    -> price -> list of orders. Orders are upserted by id and a price entry is
    pruned when its last order is removed. */
module ActiveOrders {
  import opened Wrappers
  import opened Market

  datatype ActiveOrder = ActiveOrder(
    id: int,
    pendingAmount: real,
    queuePosition: real,
    filledAmount: real,
    token: string,
    side: Side,
    price: Tick)

  type PriceLists = map<Tick, seq<ActiveOrder>>

  datatype TokenOrders = TokenOrders(buy: PriceLists, sell: PriceLists) {
    function Levels(side: Side): PriceLists {
      if side == Buy then buy else sell
    }

    function WithLevels(side: Side, m: PriceLists): (r: TokenOrders)
      ensures r.Levels(side) == m
      ensures forall other :: other != side ==> r.Levels(other) == Levels(other)
    {
      if side == Buy then TokenOrders(m, sell) else TokenOrders(buy, m)
    }
  }

  const NoOrders := TokenOrders(map[], map[])

  type OrderBook = map<string, TokenOrders>

  predicate HasId(list: seq<ActiveOrder>, id: int) {
    exists i :: 0 <= i < |list| && list[i].id == id
  }

  predicate UniqueIds(list: seq<ActiveOrder>) {
    forall i, j :: 0 <= i < j < |list| ==> list[i].id != list[j].id
  }

  /** `findIndex(o => o.id === id)`. */
  function FirstIndexOfId(list: seq<ActiveOrder>, id: int): (r: Option<nat>)
    ensures r.Some? ==> r.value < |list| && list[r.value].id == id
                        && forall j :: 0 <= j < r.value ==> list[j].id != id
    ensures r.None? <==> !HasId(list, id)
  {
    if list == [] then None
    else if list[0].id == id then Some(0)
    else
      match FirstIndexOfId(list[1..], id)
      case None =>
        assert forall i :: 1 <= i < |list| ==> list[i] == list[1..][i - 1];
        None
      case Some(k) => Some(k + 1)
  }

  /** The list at a price after upserting `order` by id: the first order with the
      same id is replaced in place, otherwise `order` is appended. */
  function Upsert(list: seq<ActiveOrder>, order: ActiveOrder): (r: seq<ActiveOrder>)
    ensures order in r
    ensures |r| == if HasId(list, order.id) then |list| else |list| + 1
    ensures forall i :: 0 <= i < |list| && list[i].id != order.id ==> r[i] == list[i]
    ensures !HasId(list, order.id) ==> r == list + [order]
    ensures UniqueIds(list) ==> UniqueIds(r)
  {
    match FirstIndexOfId(list, order.id)
    case Some(k) =>
      assert list[k := order][k] == order;
      list[k := order]
    case None => list + [order]
  }

  /** The orders of `list` whose id differs from `id`, in their original order. */
  function WithoutId(list: seq<ActiveOrder>, id: int): (r: seq<ActiveOrder>)
    ensures forall o :: o in r <==> o in list && o.id != id
    ensures |r| <= |list|
  {
    if list == [] then []
    else
      var rest := WithoutId(list[1..], id);
      assert forall o :: o in list <==> o == list[0] || o in list[1..];
      if list[0].id == id then rest else [list[0]] + rest
  }

  /** The tail of a list with distinct ids has distinct ids, none of them the head's. */
  lemma UniqueTail(list: seq<ActiveOrder>)
    requires list != [] && UniqueIds(list)
    ensures UniqueIds(list[1..])
    ensures forall o :: o in list[1..] ==> o.id != list[0].id
  {
    var tail := list[1..];
    forall i, j | 0 <= i < j < |tail| ensures tail[i].id != tail[j].id {
      assert tail[i] == list[i + 1] && tail[j] == list[j + 1];
    }
    forall o | o in tail ensures o.id != list[0].id {
      var k :| 0 <= k < |tail| && tail[k] == o;
      assert list[k + 1] == o;
    }
  }

  /** Prepending an order whose id is new keeps the ids distinct. */
  lemma UniqueCons(x: ActiveOrder, rest: seq<ActiveOrder>)
    requires UniqueIds(rest)
    requires forall o :: o in rest ==> o.id != x.id
    ensures UniqueIds([x] + rest)
  {
    var r := [x] + rest;
    forall i, j | 0 <= i < j < |r| ensures r[i].id != r[j].id {
      assert r[j] == rest[j - 1];
      if i > 0 {
        assert r[i] == rest[i - 1];
      }
    }
  }

  /** Filtering by id keeps the ids of a list distinct. */
  lemma {:induction false} WithoutIdKeepsUnique(list: seq<ActiveOrder>, id: int)
    requires UniqueIds(list)
    ensures UniqueIds(WithoutId(list, id))
  {
    if list != [] {
      UniqueTail(list);
      WithoutIdKeepsUnique(list[1..], id);
      if list[0].id != id {
        UniqueCons(list[0], WithoutId(list[1..], id));
      }
    }
  }

  /** The stored list at (token, side, price), or `None` when any of the three is absent. */
  function LevelOf(b: OrderBook, token: string, side: Side, price: Tick): (r: Option<seq<ActiveOrder>>)
    ensures r.Some? <==> token in b && price in b[token].Levels(side)
    ensures r.Some? ==> r.value == b[token].Levels(side)[price]
  {
    if token in b && price in b[token].Levels(side) then Some(b[token].Levels(side)[price]) else None
  }

  /** `getOrder`: the stored list, or the empty list when absent. */
  function OrdersAt(b: OrderBook, token: string, side: Side, price: Tick): (r: seq<ActiveOrder>)
    ensures LevelOf(b, token, side, price).Some? ==> r == LevelOf(b, token, side, price).value
    ensures LevelOf(b, token, side, price).None? ==> r == []
  {
    LevelOf(b, token, side, price).GetOr([])
  }

  function TokenOrdersOf(b: OrderBook, token: string): (r: TokenOrders)
    ensures token in b ==> r == b[token]
    ensures token !in b ==> r == NoOrders
  {
    if token in b then b[token] else NoOrders
  }

  /** The book after `setOrder(token, side, price, order)`; creates empty sides for an unseen token. */
  function SetOrderIn(b: OrderBook, token: string, side: Side, price: Tick, order: ActiveOrder): (r: OrderBook)
    ensures r.Keys == b.Keys + {token}
    ensures token !in b ==> r[token].Levels(if side == Buy then Sell else Buy) == map[]
    ensures LevelOf(r, token, side, price) == Some(Upsert(OrdersAt(b, token, side, price), order))
    ensures forall t, s, p :: (t != token || s != side || p != price) ==> LevelOf(r, t, s, p) == LevelOf(b, t, s, p)
  {
    var orders := TokenOrdersOf(b, token);
    var levels := orders.Levels(side);
    b[token := orders.WithLevels(side, levels[price := Upsert(OrdersAt(b, token, side, price), order)])]
  }

  /** The book after `deleteOrder(token, side, price, orderId)`: without an id the
      whole price entry goes; with an id only that id's orders go, and the entry
      is pruned when nothing is left; an absent token, side or price is a no-op. */
  function DeleteOrderIn(b: OrderBook, token: string, side: Side, price: Tick, orderId: Option<int>): (r: OrderBook)
    ensures r.Keys == b.Keys
    ensures LevelOf(b, token, side, price).None? ==> r == b
    ensures LevelOf(b, token, side, price).Some? && orderId.None? ==> LevelOf(r, token, side, price).None?
    ensures LevelOf(b, token, side, price).Some? && orderId.Some? ==>
      var kept := WithoutId(LevelOf(b, token, side, price).value, orderId.value);
      LevelOf(r, token, side, price) == if kept == [] then None else Some(kept)
    ensures forall t, s, p :: (t != token || s != side || p != price) ==> LevelOf(r, t, s, p) == LevelOf(b, t, s, p)
  {
    match LevelOf(b, token, side, price)
    case None => b
    case Some(list) =>
      var levels := b[token].Levels(side);
      match orderId
      case None => b[token := b[token].WithLevels(side, levels - {price})]
      case Some(id) =>
        var kept := WithoutId(list, id);
        if kept == [] then b[token := b[token].WithLevels(side, levels - {price})]
        else b[token := b[token].WithLevels(side, levels[price := kept])]
  }

  /** The book after `clearToken`. */
  function ClearTokenIn(b: OrderBook, token: string): (r: OrderBook)
    ensures r.Keys == b.Keys - {token}
    ensures forall t, s, p :: t != token ==> LevelOf(r, t, s, p) == LevelOf(b, t, s, p)
  {
    b - {token}
  }

  /** Invariant: no stored price list is empty. */
  ghost predicate NoEmptyLevels(b: OrderBook) {
    forall t, s, p :: LevelOf(b, t, s, p) != Some([])
  }

  /** Invariant: within each price list the ids are distinct. */
  ghost predicate UniqueIdsPerLevel(b: OrderBook) {
    forall t, s, p :: LevelOf(b, t, s, p).Some? ==> UniqueIds(LevelOf(b, t, s, p).value)
  }

  ghost predicate Valid(b: OrderBook) {
    NoEmptyLevels(b) && UniqueIdsPerLevel(b)
  }

  /** `setOrder` keeps both invariants. */
  lemma SetOrderKeepsValid(b: OrderBook, token: string, side: Side, price: Tick, order: ActiveOrder)
    requires Valid(b)
    ensures Valid(SetOrderIn(b, token, side, price, order))
  {
    var r := SetOrderIn(b, token, side, price, order);
    forall t, s, p ensures LevelOf(r, t, s, p) != Some([]) {
      if t != token || s != side || p != price {
        assert LevelOf(r, t, s, p) == LevelOf(b, t, s, p);
      }
    }
    forall t, s, p | LevelOf(r, t, s, p).Some? ensures UniqueIds(LevelOf(r, t, s, p).value) {
      if t != token || s != side || p != price {
        assert LevelOf(r, t, s, p) == LevelOf(b, t, s, p);
      } else {
        assert UniqueIds(OrdersAt(b, token, side, price));
      }
    }
  }

  /** `deleteOrder` keeps both invariants, pruning rather than leaving an empty list. */
  lemma DeleteOrderKeepsValid(b: OrderBook, token: string, side: Side, price: Tick, orderId: Option<int>)
    requires Valid(b)
    ensures Valid(DeleteOrderIn(b, token, side, price, orderId))
  {
    var r := DeleteOrderIn(b, token, side, price, orderId);
    forall t, s, p ensures LevelOf(r, t, s, p) != Some([]) {
      if t != token || s != side || p != price {
        assert LevelOf(r, t, s, p) == LevelOf(b, t, s, p);
      }
    }
    forall t, s, p | LevelOf(r, t, s, p).Some? ensures UniqueIds(LevelOf(r, t, s, p).value) {
      if t != token || s != side || p != price {
        assert LevelOf(r, t, s, p) == LevelOf(b, t, s, p);
      } else if orderId.Some? {
        WithoutIdKeepsUnique(LevelOf(b, token, side, price).value, orderId.value);
      }
    }
  }

  /** `clearToken` keeps both invariants. */
  lemma ClearTokenKeepsValid(b: OrderBook, token: string)
    requires Valid(b)
    ensures Valid(ClearTokenIn(b, token))
  {
    var r := ClearTokenIn(b, token);
    forall t, s, p ensures LevelOf(r, t, s, p) != Some([]) && (LevelOf(r, t, s, p).Some? ==> UniqueIds(LevelOf(r, t, s, p).value)) {
      if t != token {
        assert LevelOf(r, t, s, p) == LevelOf(b, t, s, p);
      }
    }
  }

  // ---------------------------------------------------------------- a price entry read as one order

  /** A number that JavaScript computes from a property: a number, `undefined`
      when the value has no such property, or `NaN` after arithmetic on it. */
  datatype JsNumber = Num(v: real) | Undefined | NaN

  /** `a + b`: a number only when both operands are numbers. */
  function JsAdd(a: JsNumber, b: JsNumber): (r: JsNumber)
    ensures r.Num? <==> a.Num? && b.Num?
    ensures r.Num? ==> r.v == a.v + b.v
  {
    if a.Num? && b.Num? then Num(a.v + b.v) else NaN
  }

  /** `a < b`: every comparison with `undefined` or `NaN` is false. */
  predicate JsLess(a: JsNumber, b: JsNumber) {
    a.Num? && b.Num? && a.v < b.v
  }

  /** What code holding a price entry has in hand. The store keeps an array of
      orders at every price (`OrderArray`); `findOrderById`, the queue
      re-estimation and the snapshot's `userOrders` are written as if it held a
      single order (`Single`). */
  datatype EntryValue = Single(order: ActiveOrder) | OrderArray(orders: seq<ActiveOrder>)

  /** The entry the store hands out at a price: always an array. */
  function EntryAt(b: OrderBook, token: string, side: Side, price: Tick): (r: Option<EntryValue>)
    ensures r.Some? <==> LevelOf(b, token, side, price).Some?
    ensures r.Some? ==> r.value == OrderArray(LevelOf(b, token, side, price).value)
  {
    match LevelOf(b, token, side, price)
    case None => None
    case Some(list) => Some(OrderArray(list))
  }

  /** `entry.id`: an order's id; an array has no `id`, so the read is `undefined`. */
  function IdProperty(e: EntryValue): (r: Option<int>)
    ensures r.Some? <==> e.Single?
    ensures e.Single? ==> r.value == e.order.id
  {
    if e.Single? then Some(e.order.id) else None
  }

  /** `entry.pending_amount`, `undefined` on an array. */
  function PendingProperty(e: EntryValue): (r: JsNumber)
    ensures r.Num? <==> e.Single?
    ensures e.Single? ==> r.v == e.order.pendingAmount
    ensures e.OrderArray? ==> r == Undefined
  {
    if e.Single? then Num(e.order.pendingAmount) else Undefined
  }

  /** `entry.queue_position`, `undefined` on an array. */
  function QueueProperty(e: EntryValue): (r: JsNumber)
    ensures r.Num? <==> e.Single?
    ensures e.Single? ==> r.v == e.order.queuePosition
    ensures e.OrderArray? ==> r == Undefined
  {
    if e.Single? then Num(e.order.queuePosition) else Undefined
  }

  /** Where the source's static `instance` field lives. */
  class Registry {
    var instance: ActiveOrdersState?

    constructor()
      ensures instance == null
    {
      instance := null;
    }

    /** `getInstance`: the last constructed state, or `null` before any. */
    function GetInstance(): ActiveOrdersState?
      reads this
    {
      instance
    }
  }

  /** The in-memory `ActiveOrdersState` service. */
  class ActiveOrdersState {
    var activeOrders: OrderBook

    /** The constructor registers the new object as the static instance. */
    constructor(registry: Registry)
      modifies registry
      ensures activeOrders == map[]
      ensures registry.instance == this
    {
      activeOrders := map[];
      new;
      registry.instance := this;
    }

    function GetAll(): OrderBook
      reads this
    {
      activeOrders
    }

    method EnsureToken(token: string)
      modifies this
      ensures activeOrders == old(activeOrders)[token := TokenOrdersOf(old(activeOrders), token)]
    {
      if token !in activeOrders {
        activeOrders := activeOrders[token := NoOrders];
      }
    }

    method SetOrder(token: string, side: Side, price: Tick, order: ActiveOrder)
      modifies this
      ensures activeOrders == SetOrderIn(old(activeOrders), token, side, price, order)
    {
      ghost var b := activeOrders;
      ghost var orders := TokenOrdersOf(b, token);
      EnsureToken(token);
      assert activeOrders[token] == orders;
      var sideOrders := activeOrders[token].Levels(side);
      var ordersAtPrice := if price in sideOrders then sideOrders[price] else [];
      assert ordersAtPrice == OrdersAt(b, token, side, price);
      var existingIdx := FirstIndexOfId(ordersAtPrice, order.id);
      if existingIdx.Some? {
        ordersAtPrice := ordersAtPrice[existingIdx.value := order];
      } else {
        ordersAtPrice := ordersAtPrice + [order];
      }
      assert ordersAtPrice == Upsert(OrdersAt(b, token, side, price), order);
      activeOrders := activeOrders[token := activeOrders[token].WithLevels(side, sideOrders[price := ordersAtPrice])];
      assert activeOrders == b[token := orders.WithLevels(side, sideOrders[price := ordersAtPrice])];
    }

    function GetOrder(token: string, side: Side, price: Tick): seq<ActiveOrder>
      reads this
    {
      OrdersAt(activeOrders, token, side, price)
    }

    method DeleteOrder(token: string, side: Side, price: Tick, orderId: Option<int>)
      modifies this
      ensures activeOrders == DeleteOrderIn(old(activeOrders), token, side, price, orderId)
    {
      if token !in activeOrders || price !in activeOrders[token].Levels(side) {
        return;
      }
      var sideOrders := activeOrders[token].Levels(side);
      if orderId.None? {
        activeOrders := activeOrders[token := activeOrders[token].WithLevels(side, sideOrders - {price})];
        return;
      }
      var kept := WithoutId(sideOrders[price], orderId.value);
      ghost var before := sideOrders;
      sideOrders := sideOrders[price := kept];
      if |kept| == 0 {
        sideOrders := sideOrders - {price};
        assert sideOrders == before - {price};
      }
      activeOrders := activeOrders[token := activeOrders[token].WithLevels(side, sideOrders)];
    }

    method ClearToken(token: string)
      modifies this
      ensures activeOrders == ClearTokenIn(old(activeOrders), token)
    {
      if token in activeOrders {
        activeOrders := activeOrders - {token};
      }
    }

    method ClearAll()
      modifies this
      ensures activeOrders == map[]
    {
      activeOrders := map[];
    }
  }
}
