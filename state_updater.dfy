/** `StateUpdaterLogic`: the glue that keeps the depth book, the central prices and
    the trader's active orders in step with REST snapshots, streamed depth deltas
    and order events. Fetched depth is an input; stream opening and closing are
    recorded effects. Price keys are integer ticks, so `normalizePriceKey` is the
    identity on them. */
module StateUpdater {
  import opened Wrappers
  import opened Market
  import opened Sorting
  import D = DepthStore
  import C = CentralStore
  import A = ActiveOrders
  import T = TokenSets
  import S = Streams

  /** One REST depth level `[price, qty]`. */
  datatype PriceLevel = PriceLevel(price: Tick, qty: real)

  /** The fetched depth of one token. */
  datatype DepthData = DepthData(bids: seq<PriceLevel>, asks: seq<PriceLevel>)

  /** The price of a streamed delta, which `Number(price)` may turn into NaN or an infinity. */
  datatype NumericPrice = Finite(tick: Tick) | NonFinite

  /** One streamed depth change `[price, qty]`. */
  datatype DeltaLevel = DeltaLevel(price: NumericPrice, qty: real)

  /** Where `findOrderById` found an order. */
  datatype Location = Location(symbol: string, side: Side, price: Tick, order: A.ActiveOrder)

  // ---------------------------------------------------------------- price keys

  /** `findExistingPriceKey`: the key of `levels` numerically equal to `price`, or
      `None` for a non-finite price or one with no level. With tick keys the
      normalised key is the only key equal to the price, so the fallback scan
      over all keys finds nothing more. */
  function FindExistingPriceKey<V>(levels: map<Tick, V>, price: NumericPrice): (r: Option<Tick>)
    ensures r.Some? <==> price.Finite? && price.tick in levels
    ensures r.Some? ==> r.value in levels && r.value == price.tick
  {
    if price.NonFinite? then None
    else if price.tick in levels then Some(price.tick)
    else None
  }

  // ---------------------------------------------------------------- snapshots

  function PricesOf(levels: seq<PriceLevel>): set<Tick> {
    set l | l in levels :: l.price
  }

  function PriceRank(l: PriceLevel): Rank {
    At(l.price)
  }

  /** The record built by `buyMap[key] = qty` over `levels`, in order. */
  function LevelMap(levels: seq<PriceLevel>): map<Tick, real>
    decreases |levels|
  {
    if levels == [] then map[]
    else
      var last := levels[|levels| - 1];
      LevelMap(levels[..|levels| - 1])[last.price := last.qty]
  }

  /** The record holds exactly the listed prices, each with the quantity of its
      last occurrence. */
  lemma {:induction false} LevelMapLastWins(levels: seq<PriceLevel>)
    ensures LevelMap(levels).Keys == PricesOf(levels)
    ensures forall p :: p in LevelMap(levels) ==>
      exists i :: 0 <= i < |levels| && levels[i] == PriceLevel(p, LevelMap(levels)[p])
                  && forall j :: i < j < |levels| ==> levels[j].price != p
    decreases |levels|
  {
    if levels != [] {
      var n := |levels| - 1;
      var init := levels[..n];
      LevelMapLastWins(init);
      var m := LevelMap(levels);
      assert levels == init + [levels[n]];
      assert PricesOf(levels) == PricesOf(init) + {levels[n].price};
      forall p | p in m
        ensures exists i :: 0 <= i < |levels| && levels[i] == PriceLevel(p, m[p])
                            && forall j :: i < j < |levels| ==> levels[j].price != p
      {
        if p == levels[n].price {
          assert levels[n] == PriceLevel(p, m[p]);
        } else {
          var i :| 0 <= i < |init| && init[i] == PriceLevel(p, LevelMap(init)[p])
                   && forall j :: i < j < |init| ==> init[j].price != p;
          assert levels[i] == init[i];
          assert forall j :: i < j < |levels| ==> levels[j].price != p by {
            forall j | i < j < |levels| ensures levels[j].price != p {
              if j < n {
                assert levels[j] == init[j];
              }
            }
          }
        }
      }
    }
  }

  /** One side of the book `updateDepthState` stores: the snapshot levels sorted by
      price, then written into a record. Its prices are exactly the snapshot's and
      each amount is a quantity the snapshot gives for that price. */
  function SnapshotSide(levels: seq<PriceLevel>): (r: map<Tick, real>)
    ensures r.Keys == PricesOf(levels)
    ensures forall p :: p in r ==> PriceLevel(p, r[p]) in levels
  {
    var sorted := SortBy(levels, PriceRank);
    LevelMapLastWins(sorted);
    assert forall l :: l in sorted <==> l in levels by {
      assert multiset(sorted) == multiset(levels);
      forall l ensures l in sorted <==> l in levels {
        assert l in sorted <==> l in multiset(sorted);
        assert l in levels <==> l in multiset(levels);
      }
    }
    forall p | p in LevelMap(sorted) ensures PriceLevel(p, LevelMap(sorted)[p]) in levels {
      var i :| 0 <= i < |sorted| && sorted[i] == PriceLevel(p, LevelMap(sorted)[p])
               && forall j :: i < j < |sorted| ==> sorted[j].price != p;
      assert sorted[i] in sorted;
    }
    LevelMap(sorted)
  }

  /** When the snapshot lists each price once, every level arrives unchanged. */
  lemma SnapshotKeepsEveryLevel(levels: seq<PriceLevel>)
    requires forall i, j :: 0 <= i < j < |levels| ==> levels[i].price != levels[j].price
    ensures forall l :: l in levels ==> l.price in SnapshotSide(levels) && SnapshotSide(levels)[l.price] == l.qty
  {
    var r := SnapshotSide(levels);
    forall l | l in levels ensures l.price in r && r[l.price] == l.qty {
      assert l.price in PricesOf(levels);
      var e := PriceLevel(l.price, r[l.price]);
      assert e in levels;
      var i :| 0 <= i < |levels| && levels[i] == l;
      var k :| 0 <= k < |levels| && levels[k] == e;
      assert levels[i].price == levels[k].price;
      assert i == k;
    }
  }

  // ---------------------------------------------------------------- central prices

  /** The central-state map after `updateCentralState(symbol)` given the depth store
      `d`: unchanged without a book or with an empty side; otherwise the central
      buy price becomes the highest bid and the central sell price the lowest ask,
      each counter restarting only if its price moved. */
  function CentralAfterRecompute(c: map<string, C.CentralStateEntry>, d: D.DepthLevels, symbol: string): (r: map<string, C.CentralStateEntry>)
    ensures symbol !in d || |d[symbol].buy| == 0 || |d[symbol].sell| == 0 ==> r == c
    ensures symbol in d && |d[symbol].buy| > 0 && |d[symbol].sell| > 0 ==>
      var before := C.EntryOf(c, symbol);
      && r.Keys == c.Keys + {symbol}
      && (forall t :: t in c && t != symbol ==> r[t] == c[t])
      && r[symbol].centralBuyPrice.Some? && r[symbol].centralBuyPrice.value in d[symbol].buy
      && (forall p :: p in d[symbol].buy ==> p <= r[symbol].centralBuyPrice.value)
      && r[symbol].centralSellPrice.Some? && r[symbol].centralSellPrice.value in d[symbol].sell
      && (forall p :: p in d[symbol].sell ==> r[symbol].centralSellPrice.value <= p)
      && r[symbol].executedSinceBuyPriceChange ==
           (if before.centralBuyPrice == r[symbol].centralBuyPrice then before.executedSinceBuyPriceChange else 0.0)
      && r[symbol].executedSinceSellPriceChange ==
           (if before.centralSellPrice == r[symbol].centralSellPrice then before.executedSinceSellPriceChange else 0.0)
  {
    if symbol !in d || |d[symbol].buy| == 0 || |d[symbol].sell| == 0 then c
    else
      var withBuy := C.UpdateCentralPrice(C.EntryOf(c, symbol), Buy, MaxOf(d[symbol].buy.Keys));
      c[symbol := C.UpdateCentralPrice(withBuy, Sell, MinOf(d[symbol].sell.Keys))]
  }

  // ---------------------------------------------------------------- new orders

  /** `depth.bids.find(([p]) => p === price)`: the first level at that price. */
  function FirstLevelAt(levels: seq<PriceLevel>, price: Tick): (r: Option<PriceLevel>)
    ensures r.None? <==> forall l :: l in levels ==> l.price != price
    ensures r.Some? ==> exists i :: 0 <= i < |levels| && levels[i] == r.value && r.value.price == price
                                    && forall j :: 0 <= j < i ==> levels[j].price != price
  {
    if levels == [] then None
    else if levels[0].price == price then
      assert levels[0] == levels[0];
      Some(levels[0])
    else
      var rest := FirstLevelAt(levels[1..], price);
      assert forall l :: l in levels ==> l == levels[0] || l in levels[1..];
      if rest.Some? then
        var i :| 0 <= i < |levels[1..]| && levels[1..][i] == rest.value && rest.value.price == price
                 && forall j :: 0 <= j < i ==> levels[1..][j].price != price;
        assert levels[i + 1] == rest.value;
        assert forall j :: 0 <= j < i + 1 ==> levels[j].price != price by {
          forall j | 0 <= j < i + 1 ensures levels[j].price != price {
            if j > 0 {
              assert levels[j] == levels[1..][j - 1];
            }
          }
        }
        rest
      else
        rest
  }

  /** The visible depth at `price` on the order's side of the snapshot, 0 when absent. */
  function DepthAtPrice(levels: seq<PriceLevel>, price: Tick): real {
    match FirstLevelAt(levels, price)
    case None => 0.0
    case Some(l) => l.qty
  }

  /** The order `createOrUpdateOrder` stores: nothing filled yet, all of `qty`
      pending, and a queue estimated as the visible depth at its price minus its
      own quantity, never below zero. */
  function NewOrder(symbol: string, side: Side, price: Tick, qty: real, depth: DepthData, orderId: int): (r: A.ActiveOrder)
    ensures r.id == orderId && r.token == symbol && r.side == side && r.price == price
    ensures r.pendingAmount == qty && r.filledAmount == 0.0
    ensures var ahead := DepthAtPrice(if side == Buy then depth.bids else depth.asks, price) - qty;
            r.queuePosition >= 0.0
            && (ahead >= 0.0 ==> r.queuePosition == ahead)
            && (ahead < 0.0 ==> r.queuePosition == 0.0)
  {
    var marketDepthAtPrice := DepthAtPrice(if side == Buy then depth.bids else depth.asks, price);
    A.ActiveOrder(orderId, qty, Max0(marketDepthAtPrice - qty), 0.0, symbol, side, price)
  }

  // ---------------------------------------------------------------- finding orders

  /** `loc` names an order with id `id` that is stored in the book at its place. */
  ghost predicate IsLocation(b: A.OrderBook, id: int, loc: Location) {
    loc.order.id == id && loc.order in A.OrdersAt(b, loc.symbol, loc.side, loc.price)
  }

  /** Some stored order carries `id`. */
  ghost predicate HoldsId(b: A.OrderBook, id: int) {
    exists t, s, p :: A.HasId(A.OrdersAt(b, t, s, p), id)
  }

  lemma LocationWitnessesId(b: A.OrderBook, id: int, loc: Location)
    requires IsLocation(b, id, loc)
    ensures HoldsId(b, id)
  {
    var list := A.OrdersAt(b, loc.symbol, loc.side, loc.price);
    var i :| 0 <= i < |list| && list[i] == loc.order;
    assert A.HasId(list, id);
  }

  // ---------------------------------------------------------------- partial fills

  /** The order after `applyPartialFill(_, filledQty)`: the fill is added to the
      filled amount and taken off the pending amount, which never drops below
      zero; nothing else changes. */
  function Filled(o: A.ActiveOrder, filledQty: real): (r: A.ActiveOrder)
    ensures r.filledAmount == o.filledAmount + filledQty
    ensures r.pendingAmount >= 0.0
    ensures o.pendingAmount - filledQty >= 0.0 ==> r.pendingAmount == o.pendingAmount - filledQty
    ensures o.pendingAmount - filledQty < 0.0 ==> r.pendingAmount == 0.0
    ensures r == o.(filledAmount := r.filledAmount, pendingAmount := r.pendingAmount)
  {
    o.(filledAmount := o.filledAmount + filledQty, pendingAmount := Max0(o.pendingAmount - filledQty))
  }

  /** Two partial fills add up to one fill of their sum. */
  lemma FillsAccumulate(o: A.ActiveOrder, a: real, b: real)
    requires a >= 0.0 && b >= 0.0
    ensures Filled(Filled(o, a), b) == Filled(o, a + b)
  {
  }

  /** With distinct ids in a list, upserting an order whose id sits at index `k`
      overwrites exactly that slot. */
  lemma UpsertReplacesInPlace(list: seq<A.ActiveOrder>, k: nat, o: A.ActiveOrder)
    requires A.UniqueIds(list) && k < |list| && list[k].id == o.id
    ensures A.Upsert(list, o) == list[k := o]
  {
    var f := A.FirstIndexOfId(list, o.id);
    assert A.HasId(list, o.id);
    assert f == Some(k);
  }

  /** Writing back a partially filled order leaves its price list the same length,
      with only that order's slot changed. */
  lemma PartialFillUpdatesOnlyThatOrder(b: A.OrderBook, id: int, loc: Location, filledQty: real)
    requires A.UniqueIdsPerLevel(b) && IsLocation(b, id, loc)
    ensures var list := A.OrdersAt(b, loc.symbol, loc.side, loc.price);
            var after := A.OrdersAt(A.SetOrderIn(b, loc.symbol, loc.side, loc.price, Filled(loc.order, filledQty)), loc.symbol, loc.side, loc.price);
            |after| == |list|
            && (forall i :: 0 <= i < |list| && list[i].id != id ==> after[i] == list[i])
            && Filled(loc.order, filledQty) in after
  {
    var list := A.OrdersAt(b, loc.symbol, loc.side, loc.price);
    var k :| 0 <= k < |list| && list[k] == loc.order;
    assert A.LevelOf(b, loc.symbol, loc.side, loc.price).Some?;
    UpsertReplacesInPlace(list, k, Filled(loc.order, filledQty));
  }

  // ---------------------------------------------------------------- depth deltas

  /** One delta applied to one side of the book: a price with no level is ignored;
      otherwise quantity 0 deletes the level and any other quantity overwrites it. */
  function ApplyLevelDelta(m: map<Tick, real>, delta: DeltaLevel): map<Tick, real> {
    match FindExistingPriceKey(m, delta.price)
    case None => m
    case Some(k) => if delta.qty == 0.0 then m - {k} else m[k := delta.qty]
  }

  /** The deltas applied in order. */
  function ApplyLevelDeltas(m: map<Tick, real>, deltas: seq<DeltaLevel>): (r: map<Tick, real>)
    decreases |deltas|
  {
    if deltas == [] then m
    else ApplyLevelDelta(ApplyLevelDeltas(m, deltas[..|deltas| - 1]), deltas[|deltas| - 1])
  }

  /** Some delta zeroes `p`. */
  predicate ZeroedIn(deltas: seq<DeltaLevel>, p: Tick) {
    exists i :: 0 <= i < |deltas| && deltas[i] == DeltaLevel(Finite(p), 0.0)
  }

  /** The quantity of the last delta for `p`, if any. */
  function LastQty(deltas: seq<DeltaLevel>, p: Tick): Option<real>
    decreases |deltas|
  {
    if deltas == [] then None
    else if deltas[|deltas| - 1].price == Finite(p) then Some(deltas[|deltas| - 1].qty)
    else LastQty(deltas[..|deltas| - 1], p)
  }

  /** Deltas never add a level: a price survives exactly when it was already in
      the book and no delta zeroed it, and then it holds the quantity of the last
      delta for it, or its old quantity when there was none. */
  lemma {:induction false} DeltasTouchOnlyExistingLevels(m: map<Tick, real>, deltas: seq<DeltaLevel>)
    ensures ApplyLevelDeltas(m, deltas).Keys <= m.Keys
    ensures forall p :: p in ApplyLevelDeltas(m, deltas) <==> p in m && !ZeroedIn(deltas, p)
    ensures forall p :: p in ApplyLevelDeltas(m, deltas) ==> ApplyLevelDeltas(m, deltas)[p] == LastQty(deltas, p).GetOr(m[p])
    decreases |deltas|
  {
    if deltas != [] {
      var n := |deltas| - 1;
      var init := deltas[..n];
      var d := deltas[n];
      DeltasTouchOnlyExistingLevels(m, init);
      var mid := ApplyLevelDeltas(m, init);
      var r := ApplyLevelDeltas(m, deltas);
      assert r == ApplyLevelDelta(mid, d);
      forall p ensures ZeroedIn(deltas, p) <==> ZeroedIn(init, p) || d == DeltaLevel(Finite(p), 0.0) {
        if ZeroedIn(deltas, p) {
          var i :| 0 <= i < |deltas| && deltas[i] == DeltaLevel(Finite(p), 0.0);
          if i < n {
            assert init[i] == deltas[i];
          }
        }
        if ZeroedIn(init, p) {
          var i :| 0 <= i < |init| && init[i] == DeltaLevel(Finite(p), 0.0);
          assert deltas[i] == init[i];
        }
      }
    }
  }

  /** The depth store after `applyDelta`: an unseen token first gets an empty book,
      then the bid deltas are applied to its BUY side and the ask deltas to its
      SELL side; other tokens are untouched. */
  function DepthAfterDelta(d: D.DepthLevels, symbol: string, bids: seq<DeltaLevel>, asks: seq<DeltaLevel>): (r: D.DepthLevels)
    ensures r.Keys == d.Keys + {symbol}
    ensures forall t :: t in d && t != symbol ==> r[t] == d[t]
    ensures r[symbol].buy.Keys <= D.BookOf(d, symbol).buy.Keys
    ensures r[symbol].sell.Keys <= D.BookOf(d, symbol).sell.Keys
  {
    var book := D.BookOf(d, symbol);
    DeltasTouchOnlyExistingLevels(book.buy, bids);
    DeltasTouchOnlyExistingLevels(book.sell, asks);
    d[symbol := D.TokenDepth(ApplyLevelDeltas(book.buy, bids), ApplyLevelDeltas(book.sell, asks))]
  }

  // ---------------------------------------------------------------- queue re-estimation

  /** The queue rule after a depth delta: when the new visible depth is below the
      order's queue plus its own pending amount, the queue becomes the new depth
      minus the pending amount, floored at zero; otherwise the order is unchanged.
      The queue never grows, and after a shrink the queue plus the pending amount
      equals the new depth unless the queue had to be floored at zero. */
  function Reestimate(o: A.ActiveOrder, newDepth: real): (r: A.ActiveOrder)
    ensures r == o.(queuePosition := r.queuePosition)
    ensures newDepth >= o.queuePosition + o.pendingAmount ==> r == o
    ensures newDepth < o.queuePosition + o.pendingAmount ==>
      (r.queuePosition + r.pendingAmount == newDepth && r.queuePosition >= 0.0)
      || (r.queuePosition == 0.0 && newDepth < r.pendingAmount)
    ensures o.queuePosition >= 0.0 ==> 0.0 <= r.queuePosition <= o.queuePosition
  {
    var combined := o.queuePosition + o.pendingAmount;
    if newDepth < combined then o.(queuePosition := Max0(newDepth - o.pendingAmount)) else o
  }

  /** The rule applied to every order of a price list. */
  function ReestimateList(list: seq<A.ActiveOrder>, newDepth: real): (r: seq<A.ActiveOrder>)
    ensures |r| == |list|
    ensures forall i :: 0 <= i < |list| ==> r[i] == Reestimate(list[i], newDepth)
  {
    seq(|list|, i requires 0 <= i < |list| => Reestimate(list[i], newDepth))
  }

  /** One delta on one side of the trader's orders: a price with orders gets the rule. */
  function ReestimateStep(levels: A.PriceLists, delta: DeltaLevel): A.PriceLists {
    match FindExistingPriceKey(levels, delta.price)
    case None => levels
    case Some(k) => levels[k := ReestimateList(levels[k], delta.qty)]
  }

  function ReestimateSide(levels: A.PriceLists, deltas: seq<DeltaLevel>): A.PriceLists
    decreases |deltas|
  {
    if deltas == [] then levels
    else ReestimateStep(ReestimateSide(levels, deltas[..|deltas| - 1]), deltas[|deltas| - 1])
  }

  /** The orders after `updateQueuePositionsAfterDepthDelta`: nothing for a token
      without orders, otherwise the bid deltas re-estimate its BUY orders and the
      ask deltas its SELL orders. */
  function QueuesAfterDelta(b: A.OrderBook, symbol: string, bids: seq<DeltaLevel>, asks: seq<DeltaLevel>): (r: A.OrderBook) {
    if symbol !in b then b
    else b[symbol := A.TokenOrders(ReestimateSide(b[symbol].buy, bids), ReestimateSide(b[symbol].sell, asks))]
  }

  /** `after` holds the same orders as `before`, slot for slot, up to queue positions. */
  ghost predicate OnlyQueuesChanged(before: A.PriceLists, after: A.PriceLists) {
    && after.Keys == before.Keys
    && forall p :: p in before ==>
         |after[p]| == |before[p]|
         && forall i :: 0 <= i < |before[p]| ==> after[p][i] == before[p][i].(queuePosition := after[p][i].queuePosition)
  }

  ghost predicate QueuesNonNegative(levels: A.PriceLists) {
    forall p, i :: p in levels && 0 <= i < |levels[p]| ==> levels[p][i].queuePosition >= 0.0
  }

  /** No queue position in `after` exceeds the one in the same slot of `before`. */
  ghost predicate QueuesNoLarger(before: A.PriceLists, after: A.PriceLists)
    requires OnlyQueuesChanged(before, after)
  {
    forall p, i :: p in before && 0 <= i < |before[p]| ==> after[p][i].queuePosition <= before[p][i].queuePosition
  }

  /** Re-estimation keeps every order in its slot, changing only queue positions,
      and with non-negative queues it never makes a queue longer or negative. */
  lemma {:induction false} ReestimationOnlyShrinksQueues(levels: A.PriceLists, deltas: seq<DeltaLevel>)
    ensures OnlyQueuesChanged(levels, ReestimateSide(levels, deltas))
    ensures QueuesNonNegative(levels) ==>
      QueuesNonNegative(ReestimateSide(levels, deltas)) && QueuesNoLarger(levels, ReestimateSide(levels, deltas))
    decreases |deltas|
  {
    if deltas != [] {
      var n := |deltas| - 1;
      ReestimationOnlyShrinksQueues(levels, deltas[..n]);
      var mid: A.PriceLists := ReestimateSide(levels, deltas[..n]);
      var r: A.PriceLists := ReestimateSide(levels, deltas);
      assert r == ReestimateStep(mid, deltas[n]);
      forall p | p in levels
        ensures |r[p]| == |levels[p]|
        ensures forall i :: 0 <= i < |levels[p]| ==> r[p][i] == levels[p][i].(queuePosition := r[p][i].queuePosition)
        ensures QueuesNonNegative(levels) ==>
          forall i :: 0 <= i < |levels[p]| ==> 0.0 <= r[p][i].queuePosition <= levels[p][i].queuePosition
      {
        if r[p] != mid[p] {
          assert r[p] == ReestimateList(mid[p], deltas[n].qty);
        }
      }
    }
  }

  /** Lists holding the same ids slot for slot are both duplicate-free or neither. */
  lemma SameIdsKeepUnique(l1: seq<A.ActiveOrder>, l2: seq<A.ActiveOrder>)
    requires |l1| == |l2| && forall i :: 0 <= i < |l1| ==> l1[i].id == l2[i].id
    requires A.UniqueIds(l1)
    ensures A.UniqueIds(l2)
  {
    forall i, j | 0 <= i < j < |l2| ensures l2[i].id != l2[j].id {
      assert l1[i].id != l1[j].id;
    }
  }

  /** Midway through a list, the first `j` orders re-estimated and the rest as
      they were: same ids slot for slot, and one more step re-estimates slot `j`. */
  lemma PartlyReestimated(orders: seq<A.ActiveOrder>, newDepth: real, j: nat)
    requires j < |orders| && A.UniqueIds(orders)
    ensures var target := ReestimateList(orders, newDepth);
            var cur := target[..j] + orders[j..];
            && |cur| == |orders| && cur[j] == orders[j] && A.UniqueIds(cur)
            && target[..j + 1] + orders[j + 1..] == cur[j := target[j]]
  {
    var target := ReestimateList(orders, newDepth);
    var cur := target[..j] + orders[j..];
    assert forall i :: 0 <= i < |cur| ==> cur[i].id == orders[i].id by {
      forall i | 0 <= i < |cur| ensures cur[i].id == orders[i].id {
        if i < j {
          assert cur[i] == target[i];
        } else {
          assert cur[i] == orders[i];
        }
      }
    }
    SameIdsKeepUnique(orders, cur);
    SpliceStep(target, orders, j);
  }

  /** Moving the boundary of a splice one slot to the right. */
  lemma SpliceStep(target: seq<A.ActiveOrder>, orders: seq<A.ActiveOrder>, j: nat)
    requires j < |orders| == |target|
    ensures target[..j + 1] + orders[j + 1..] == (target[..j] + orders[j..])[j := target[j]]
  {
    var lhs := target[..j + 1] + orders[j + 1..];
    var rhs := (target[..j] + orders[j..])[j := target[j]];
    assert |lhs| == |rhs|;
    forall k | 0 <= k < |lhs| ensures lhs[k] == rhs[k] {
      if k < j {
        assert lhs[k] == target[k] && rhs[k] == target[k];
      } else if k > j {
        assert lhs[k] == orders[k] && rhs[k] == orders[k];
      }
    }
  }

  /** The book with the list at (`t`, `s`, `p`) replaced by `list`. */
  function PutLevel(b: A.OrderBook, t: string, s: Side, p: Tick, list: seq<A.ActiveOrder>): A.OrderBook
    requires t in b
  {
    b[t := b[t].WithLevels(s, b[t].Levels(s)[p := list])]
  }

  lemma PutLevelSame(b: A.OrderBook, t: string, s: Side, p: Tick)
    requires t in b && p in b[t].Levels(s)
    ensures PutLevel(b, t, s, p, b[t].Levels(s)[p]) == b
  {
    assert b[t].Levels(s)[p := b[t].Levels(s)[p]] == b[t].Levels(s);
    assert b[t].WithLevels(s, b[t].Levels(s)) == b[t];
  }

  lemma SetOrderOverPutLevel(b: A.OrderBook, t: string, s: Side, p: Tick, list: seq<A.ActiveOrder>, o: A.ActiveOrder)
    requires t in b
    ensures A.SetOrderIn(PutLevel(b, t, s, p, list), t, s, p, o) == PutLevel(b, t, s, p, A.Upsert(list, o))
  {
    var b1 := PutLevel(b, t, s, p, list);
    assert A.OrdersAt(b1, t, s, p) == list;
    assert b1[t].Levels(s)[p := A.Upsert(list, o)] == b[t].Levels(s)[p := A.Upsert(list, o)];
    assert b1[t].WithLevels(s, b[t].Levels(s)[p := A.Upsert(list, o)]) == b[t].WithLevels(s, b[t].Levels(s)[p := A.Upsert(list, o)]);
  }

  // ---------------------------------------------------------------- cancellation

  /** The five stores `StateUpdaterLogic` works on, as values. */
  datatype Stores = Stores(
    orders: A.OrderBook,
    tokens: seq<string>,
    depth: D.DepthLevels,
    central: map<string, C.CentralStateEntry>,
    effects: seq<S.StreamEffect>)

  /** The token still has a BUY or a SELL price entry. */
  predicate StillHasOrders(b: A.OrderBook, symbol: string) {
    symbol in b && (|b[symbol].buy| > 0 || |b[symbol].sell| > 0)
  }

  /** `cancelOrder` once the order has been found at (`symbol`, `side`, `price`):
      that whole price entry goes and no other entry changes. When the token has
      no orders left it is forgotten everywhere (active tokens, depth, central
      state, active orders) and both its streams are closed; otherwise its book is
      replaced by the freshly fetched depth and its central prices recomputed. */
  function CancelAt(st: Stores, symbol: string, side: Side, price: Tick, fetched: DepthData): (r: Stores)
    ensures A.LevelOf(r.orders, symbol, side, price).None?
    ensures forall t, s, p :: (t != symbol || s != side || p != price) ==>
      A.LevelOf(r.orders, t, s, p) == A.LevelOf(st.orders, t, s, p)
    ensures var remaining := A.DeleteOrderIn(st.orders, symbol, side, price, None);
      if StillHasOrders(remaining, symbol) then
        && r.tokens == st.tokens && r.effects == st.effects
        && r.depth == D.SetSnapshotIn(st.depth, symbol, SnapshotSide(fetched.bids), SnapshotSide(fetched.asks))
        && r.central == CentralAfterRecompute(st.central, r.depth, symbol)
      else
        && symbol !in r.orders && symbol !in r.depth && symbol !in r.central && symbol !in r.tokens
        && (forall t :: t != symbol ==> (t in r.tokens <==> t in st.tokens))
        && r.effects == st.effects + S.DeactivationEffects(symbol)
  {
    var remaining := A.DeleteOrderIn(st.orders, symbol, side, price, None);
    if !StillHasOrders(remaining, symbol) then
      assert forall s, p :: A.LevelOf(remaining, symbol, s, p).None?;
      Stores(
        A.ClearTokenIn(remaining, symbol),
        T.SetRemove(st.tokens, symbol),
        D.ClearTokenIn(st.depth, symbol),
        st.central - {symbol},
        st.effects + S.DeactivationEffects(symbol))
    else
      var depth := D.SetSnapshotIn(st.depth, symbol, SnapshotSide(fetched.bids), SnapshotSide(fetched.asks));
      Stores(remaining, st.tokens, depth, CentralAfterRecompute(st.central, depth, symbol), st.effects)
  }

  // ---------------------------------------------------------------- search helpers

  /** The first order of `list` with id `id`. */
  method FindInList(list: seq<A.ActiveOrder>, id: int) returns (r: Option<A.ActiveOrder>)
    ensures r.Some? ==> r.value in list && r.value.id == id
    ensures r.None? ==> !A.HasId(list, id)
  {
    for i := 0 to |list|
      invariant forall j :: 0 <= j < i ==> list[j].id != id
    {
      if list[i].id == id {
        return Some(list[i]);
      }
    }
    return None;
  }

  /** An order with id `id` on one side, with its price; the price keys are visited
      in an order the model leaves open. */
  method FindInSide(levels: A.PriceLists, id: int) returns (r: Option<(Tick, A.ActiveOrder)>)
    ensures r.Some? ==> r.value.0 in levels && r.value.1 in levels[r.value.0] && r.value.1.id == id
    ensures r.None? ==> forall p :: p in levels ==> !A.HasId(levels[p], id)
  {
    var prices := levels.Keys;
    while prices != {}
      invariant prices <= levels.Keys
      invariant forall p :: p in levels && p !in prices ==> !A.HasId(levels[p], id)
      decreases prices
    {
      ghost var sample := PickMember(prices);
      var price :| price in prices;
      var found := FindInList(levels[price], id);
      if found.Some? {
        return Some((price, found.value));
      }
      prices := prices - {price};
    }
    return None;
  }

  /** The map `buyMap[key] = qty` builds over `levels`. */
  method BuildSideMap(levels: seq<PriceLevel>) returns (m: map<Tick, real>)
    ensures m == LevelMap(levels)
  {
    m := map[];
    for i := 0 to |levels|
      invariant m == LevelMap(levels[..i])
    {
      assert levels[..i + 1][..i] == levels[..i];
      m := m[levels[i].price := levels[i].qty];
    }
    assert levels[..|levels|] == levels;
  }

  // ---------------------------------------------------------------- reading a price entry as one order

  /** One token's entries as the store hands them out, side by side. */
  datatype EntrySides = EntrySides(buy: map<Tick, A.EntryValue>, sell: map<Tick, A.EntryValue>) {
    function Levels(side: Side): map<Tick, A.EntryValue> {
      if side == Buy then buy else sell
    }
  }

  /** What `findOrderById` returns when the comparison succeeds: the place and
      the entry found there. */
  datatype EntryHit = EntryHit(symbol: string, side: Side, price: Tick, entry: A.EntryValue)

  function ArraysOf(levels: A.PriceLists): (r: map<Tick, A.EntryValue>)
    ensures r.Keys == levels.Keys
    ensures forall p :: p in levels ==> r[p] == A.OrderArray(levels[p])
  {
    map p | p in levels :: A.OrderArray(levels[p])
  }

  /** `getAll()` as the code reading it receives it: an array at every price. */
  function RuntimeBook(b: A.OrderBook): (r: map<string, EntrySides>)
    ensures r.Keys == b.Keys
    ensures forall t, s, p :: t in b ==> (p in r[t].Levels(s) <==> A.EntryAt(b, t, s, p).Some?)
    ensures forall t, s, p :: t in b && p in r[t].Levels(s) ==> r[t].Levels(s)[p] == A.EntryAt(b, t, s, p).value
  {
    map t | t in b :: EntrySides(ArraysOf(b[t].buy), ArraysOf(b[t].sell))
  }

  /** Some entry's `id` property equals `id`. */
  ghost predicate EntryMatches(rb: map<string, EntrySides>, id: int) {
    exists t, s, p :: t in rb && p in rb[t].Levels(s) && A.IdProperty(rb[t].Levels(s)[p]) == Some(id)
  }

  /** The three loops of `findOrderById` as written: each price entry's `id`
      property is compared with the id. Tokens and prices are visited in an
      order the model leaves open; BUY is searched before SELL. */
  method SearchEntries(rb: map<string, EntrySides>, orderId: int) returns (found: Option<EntryHit>)
    ensures found.Some? ==>
      && found.value.symbol in rb && found.value.price in rb[found.value.symbol].Levels(found.value.side)
      && found.value.entry == rb[found.value.symbol].Levels(found.value.side)[found.value.price]
      && A.IdProperty(found.value.entry) == Some(orderId)
    ensures found.None? <==> !EntryMatches(rb, orderId)
  {
    var symbols := rb.Keys;
    while symbols != {}
      invariant symbols <= rb.Keys
      invariant forall t, s, p :: t in rb && t !in symbols && p in rb[t].Levels(s) ==>
        A.IdProperty(rb[t].Levels(s)[p]) != Some(orderId)
      decreases symbols
    {
      ghost var sample := PickMember(symbols);
      var symbol :| symbol in symbols;
      var sides := [Buy, Sell];
      for k := 0 to |sides|
        invariant forall j, p :: 0 <= j < k && p in rb[symbol].Levels(sides[j]) ==>
          A.IdProperty(rb[symbol].Levels(sides[j])[p]) != Some(orderId)
      {
        var ordersAtSide := rb[symbol].Levels(sides[k]);
        var prices := ordersAtSide.Keys;
        while prices != {}
          invariant prices <= ordersAtSide.Keys
          invariant forall p :: p in ordersAtSide && p !in prices ==> A.IdProperty(ordersAtSide[p]) != Some(orderId)
          decreases prices
        {
          ghost var one := PickMember(prices);
          var price :| price in prices;
          var order := ordersAtSide[price];
          if A.IdProperty(order) == Some(orderId) {
            return Some(EntryHit(symbol, sides[k], price, order));
          }
          prices := prices - {price};
        }
      }
      assert forall s, p :: p in rb[symbol].Levels(s) ==> A.IdProperty(rb[symbol].Levels(s)[p]) != Some(orderId) by {
        forall s, p | p in rb[symbol].Levels(s) ensures A.IdProperty(rb[symbol].Levels(s)[p]) != Some(orderId) {
          assert s == sides[0] || s == sides[1];
        }
      }
      symbols := symbols - {symbol};
    }
    return None;
  }

  /** Whatever the store holds, no entry it hands out has an `id`. */
  lemma RuntimeEntriesHaveNoId(b: A.OrderBook, id: int)
    ensures !EntryMatches(RuntimeBook(b), id)
  {
    var rb := RuntimeBook(b);
    forall t, s, p | t in rb && p in rb[t].Levels(s) ensures A.IdProperty(rb[t].Levels(s)[p]) == None {
      assert rb[t].Levels(s)[p].OrderArray?;
    }
  }

  /** A book holding order 7 at 100: the stored order carries the id, yet no
      entry's `id` property matches it. */
  lemma StoredOrderMissedAsWritten()
    ensures var o := A.ActiveOrder(7, 2.0, 5.0, 0.0, "BTCUSDT", Buy, 100);
            var b := map["BTCUSDT" := A.TokenOrders(map[100 := [o]], map[])];
            HoldsId(b, 7) && !EntryMatches(RuntimeBook(b), 7)
  {
    var o := A.ActiveOrder(7, 2.0, 5.0, 0.0, "BTCUSDT", Buy, 100);
    var b := map["BTCUSDT" := A.TokenOrders(map[100 := [o]], map[])];
    assert A.HasId(A.OrdersAt(b, "BTCUSDT", Buy, 100), 7) by {
      assert A.OrdersAt(b, "BTCUSDT", Buy, 100)[0] == o;
    }
    RuntimeEntriesHaveNoId(b, 7);
  }

  /** `newDepth < queue_position + pending_amount`, as JavaScript evaluates it on
      the entry it is handed. */
  predicate QueueShrinksAsWritten(e: A.EntryValue, newDepth: real) {
    A.JsLess(A.Num(newDepth), A.JsAdd(A.QueueProperty(e), A.PendingProperty(e)))
  }

  /** The queue rule as written, on the entry it is handed: a single order gets
      exactly `Reestimate`, while an array makes the sum `NaN`, the comparison
      false, and comes back unchanged. */
  function ReestimateEntryAsWritten(e: A.EntryValue, newDepth: real): (r: A.EntryValue)
    ensures e.Single? ==> r == A.Single(Reestimate(e.order, newDepth))
    ensures e.OrderArray? ==> r == e && !QueueShrinksAsWritten(e, newDepth)
  {
    if QueueShrinksAsWritten(e, newDepth) then
      A.Single(e.order.(queuePosition := Max0(newDepth - e.order.pendingAmount)))
    else e
  }

  /** An order at 100 with 5.0 ahead of it and 2.0 pending, and a delta leaving
      1.0 at that price: the intended rule moves it to the front of the queue,
      while the entry the rule as written receives comes back with 5.0 ahead. */
  lemma StaleQueueAsWritten()
    ensures var o := A.ActiveOrder(7, 2.0, 5.0, 0.0, "BTCUSDT", Buy, 100);
            var b := map["BTCUSDT" := A.TokenOrders(map[100 := [o]], map[])];
            var after := QueuesAfterDelta(b, "BTCUSDT", [DeltaLevel(Finite(100), 1.0)], []);
            var entry := A.EntryAt(b, "BTCUSDT", Buy, 100).value;
            && after["BTCUSDT"].buy[100] == [o.(queuePosition := 0.0)]
            && ReestimateEntryAsWritten(entry, 1.0) == A.OrderArray([o])
  {
    var o := A.ActiveOrder(7, 2.0, 5.0, 0.0, "BTCUSDT", Buy, 100);
    var b := map["BTCUSDT" := A.TokenOrders(map[100 := [o]], map[])];
    var deltas := [DeltaLevel(Finite(100), 1.0)];
    assert FindExistingPriceKey(b["BTCUSDT"].buy, Finite(100)) == Some(100);
    assert ReestimateSide(b["BTCUSDT"].buy, deltas[..0]) == b["BTCUSDT"].buy;
    assert ReestimateList([o], 1.0) == [o.(queuePosition := 0.0)];
  }

  // ---------------------------------------------------------------- the service

  class StateUpdaterLogic {
    const activeTokens: T.ActiveTokensState
    const streams: S.StreamLog
    const depthState: D.DepthState
    const centralState: C.CentralState
    const activeOrders: A.ActiveOrdersState

    constructor(activeTokens: T.ActiveTokensState, streams: S.StreamLog, depthState: D.DepthState,
                centralState: C.CentralState, activeOrders: A.ActiveOrdersState)
      ensures this.activeTokens == activeTokens && this.streams == streams
      ensures this.depthState == depthState && this.centralState == centralState
      ensures this.activeOrders == activeOrders
    {
      this.activeTokens := activeTokens;
      this.streams := streams;
      this.depthState := depthState;
      this.centralState := centralState;
      this.activeOrders := activeOrders;
    }

    /** The five stores as values. */
    function Current(): Stores
      reads activeTokens, depthState, centralState, activeOrders, streams
    {
      Stores(activeOrders.activeOrders, activeTokens.active, depthState.depthLevels, centralState.centralState, streams.effects)
    }

    /** `maybeActivateToken`: an inactive token becomes active and gets its depth
        and aggTrade streams opened; an active one changes nothing. */
    method MaybeActivateToken(symbol: string)
      requires activeTokens.Valid()
      modifies activeTokens, streams
      ensures activeTokens.Valid()
      ensures activeTokens.active == T.SetAdd(old(activeTokens.active), symbol)
      ensures streams.effects == old(streams.effects) + S.ActivationEffects(old(activeTokens.active), symbol)
    {
      if !activeTokens.Has(symbol) {
        activeTokens.Add(symbol);
        streams.OpenDepthStream(symbol);
        streams.OpenAggTradeStream(symbol);
      }
    }

    /** `updateDepthState`: the token's book becomes exactly the snapshot's levels. */
    method UpdateDepthState(symbol: string, depth: DepthData)
      modifies depthState
      ensures depthState.depthLevels ==
        D.SetSnapshotIn(old(depthState.depthLevels), symbol, SnapshotSide(depth.bids), SnapshotSide(depth.asks))
    {
      depthState.ResetToken(symbol);
      var sortedBids := SortBy(depth.bids, PriceRank);
      var buyMap := BuildSideMap(sortedBids);
      var sortedAsks := SortBy(depth.asks, PriceRank);
      var sellMap := BuildSideMap(sortedAsks);
      depthState.SetSnapshot(symbol, buyMap, sellMap);
    }

    /** `updateCentralState`: best bid and best ask of the stored book become the
        central prices. */
    method UpdateCentralState(symbol: string)
      modifies centralState
      ensures centralState.centralState == CentralAfterRecompute(old(centralState.centralState), depthState.depthLevels, symbol)
    {
      if symbol !in depthState.depthLevels {
        return;
      }
      var depth := depthState.depthLevels[symbol];
      if |depth.buy| == 0 || |depth.sell| == 0 {
        return;
      }
      var centralBuy := MaxOf(depth.buy.Keys);
      var centralSell := MinOf(depth.sell.Keys);
      centralState.UpdateCentralBuyPrice(symbol, centralBuy);
      centralState.UpdateCentralSellPrice(symbol, centralSell);
    }

    /** `createOrUpdateOrder`: upserts the order with its initial queue estimate. */
    method CreateOrUpdateOrder(symbol: string, side: Side, price: Tick, qty: real, depth: DepthData, orderId: int)
      modifies activeOrders
      ensures activeOrders.activeOrders ==
        A.SetOrderIn(old(activeOrders.activeOrders), symbol, side, price, NewOrder(symbol, side, price, qty, depth, orderId))
    {
      var marketDepthAtPrice: real;
      if side == Buy {
        var level := FirstLevelAt(depth.bids, price);
        marketDepthAtPrice := if level.Some? then level.value.qty else 0.0;
      } else {
        var level := FirstLevelAt(depth.asks, price);
        marketDepthAtPrice := if level.Some? then level.value.qty else 0.0;
      }
      var queuePos := Max0(marketDepthAtPrice - qty);
      var order := A.ActiveOrder(orderId, qty, queuePos, 0.0, symbol, side, price);
      assert order == NewOrder(symbol, side, price, qty, depth, orderId);
      activeOrders.SetOrder(symbol, side, price, order);
    }

    /** `findOrderById`: some stored order with that id, with its place, or `None`
        exactly when no stored order has it. Tokens and prices are visited in an
        order the model leaves open; BUY is searched before SELL. */
    method FindOrderById(orderId: int) returns (found: Option<Location>)
      ensures found.Some? ==> IsLocation(activeOrders.activeOrders, orderId, found.value)
      ensures found.None? <==> !HoldsId(activeOrders.activeOrders, orderId)
    {
      var all := activeOrders.activeOrders;
      var symbols := all.Keys;
      while symbols != {}
        invariant symbols <= all.Keys
        invariant forall t, s, p :: t in all && t !in symbols ==> !A.HasId(A.OrdersAt(all, t, s, p), orderId)
        decreases symbols
      {
        ghost var sample := PickMember(symbols);
        var symbol :| symbol in symbols;
        var sides := [Buy, Sell];
        for k := 0 to |sides|
          invariant forall j, p :: 0 <= j < k ==> !A.HasId(A.OrdersAt(all, symbol, sides[j], p), orderId)
        {
          var hit := FindInSide(all[symbol].Levels(sides[k]), orderId);
          if hit.Some? {
            found := Some(Location(symbol, sides[k], hit.value.0, hit.value.1));
            LocationWitnessesId(all, orderId, found.value);
            return;
          }
        }
        assert forall s, p :: !A.HasId(A.OrdersAt(all, symbol, s, p), orderId) by {
          forall s, p ensures !A.HasId(A.OrdersAt(all, symbol, s, p), orderId) {
            assert s == sides[0] || s == sides[1];
          }
        }
        symbols := symbols - {symbol};
      }
      found := None;
      assert forall t, s, p :: t !in all ==> A.OrdersAt(all, t, s, p) == [];
    }

    /** `cancelOrder(orderId)` with the depth that `fetchDepth` would return: an
        unknown id changes nothing; otherwise the state becomes `CancelAt` of the
        place where the order was found. */
    method CancelOrder(orderId: int, fetchedDepth: DepthData)
      requires activeTokens.Valid()
      modifies activeTokens, depthState, centralState, activeOrders, streams
      ensures activeTokens.Valid()
      ensures !HoldsId(old(activeOrders.activeOrders), orderId) ==> Current() == old(Current())
      ensures HoldsId(old(activeOrders.activeOrders), orderId) ==>
        exists loc :: IsLocation(old(activeOrders.activeOrders), orderId, loc)
                      && Current() == CancelAt(old(Current()), loc.symbol, loc.side, loc.price, fetchedDepth)
    {
      ghost var before := Current();
      var found := FindOrderById(orderId);
      if found.None? {
        return;
      }
      var symbol, side, price := found.value.symbol, found.value.side, found.value.price;
      activeOrders.DeleteOrder(symbol, side, price, None);
      ghost var remaining := activeOrders.activeOrders;
      // The source then reads the price entry back and deletes it again when the
      // list is falsy; a list, even an empty one, is truthy, so that never happens.
      var stillHasOrders := StillHasOrders(activeOrders.activeOrders, symbol);
      if !stillHasOrders {
        ForgetToken(symbol);
        assert CancelAt(before, symbol, side, price, fetchedDepth) ==
          Stores(A.ClearTokenIn(remaining, symbol), T.SetRemove(before.tokens, symbol), D.ClearTokenIn(before.depth, symbol),
                 before.central - {symbol}, before.effects + S.DeactivationEffects(symbol));
        return;
      }
      UpdateDepthState(symbol, fetchedDepth);
      UpdateCentralState(symbol);
      assert CancelAt(before, symbol, side, price, fetchedDepth) ==
        Stores(remaining, before.tokens, depthState.depthLevels, centralState.centralState, before.effects);
    }

    /** The full cleanup of `cancelOrder` for a token left without orders. */
    method ForgetToken(symbol: string)
      requires activeTokens.Valid()
      modifies activeTokens, depthState, centralState, activeOrders, streams
      ensures activeTokens.Valid()
      ensures Current() == Stores(
        A.ClearTokenIn(old(activeOrders.activeOrders), symbol), T.SetRemove(old(activeTokens.active), symbol),
        D.ClearTokenIn(old(depthState.depthLevels), symbol), old(centralState.centralState) - {symbol},
        old(streams.effects) + S.DeactivationEffects(symbol))
    {
      activeTokens.Remove(symbol);
      depthState.ClearToken(symbol);
      centralState.ClearToken(symbol);
      activeOrders.ClearToken(symbol);
      streams.CloseDepthStream(symbol);
      streams.CloseAggTradeStream(symbol);
    }

    /** `applyPartialFill(orderId, filledQty)`: an unknown id changes nothing;
        otherwise the found order is written back with the fill applied. */
    method ApplyPartialFill(orderId: int, filledQty: real)
      modifies activeOrders
      ensures !HoldsId(old(activeOrders.activeOrders), orderId) ==> activeOrders.activeOrders == old(activeOrders.activeOrders)
      ensures HoldsId(old(activeOrders.activeOrders), orderId) ==>
        exists loc :: IsLocation(old(activeOrders.activeOrders), orderId, loc)
                      && activeOrders.activeOrders == A.SetOrderIn(old(activeOrders.activeOrders), loc.symbol, loc.side, loc.price, Filled(loc.order, filledQty))
    {
      ghost var before := activeOrders.activeOrders;
      var found := FindOrderById(orderId);
      if found.None? {
        return;
      }
      var loc := found.value;
      var order := loc.order;
      var newFilled := order.filledAmount + filledQty;
      var remaining := Max0(order.pendingAmount - filledQty);
      order := order.(filledAmount := newFilled, pendingAmount := remaining);
      activeOrders.SetOrder(loc.symbol, loc.side, loc.price, order);
      assert IsLocation(before, orderId, loc);
    }

    /** The queue rule applied, order by order, to the list at one price. */
    method ReestimateOrdersAt(symbol: string, side: Side, key: Tick, newDepth: real)
      requires symbol in activeOrders.activeOrders && key in activeOrders.activeOrders[symbol].Levels(side)
      requires A.UniqueIds(activeOrders.activeOrders[symbol].Levels(side)[key])
      modifies activeOrders
      ensures var b := old(activeOrders.activeOrders);
              activeOrders.activeOrders == PutLevel(b, symbol, side, key, ReestimateList(b[symbol].Levels(side)[key], newDepth))
    {
      ghost var b0 := activeOrders.activeOrders;
      var orders := activeOrders.activeOrders[symbol].Levels(side)[key];
      ghost var target := ReestimateList(orders, newDepth);
      PutLevelSame(b0, symbol, side, key);
      assert target[..0] + orders[0..] == orders;
      for j := 0 to |orders|
        invariant activeOrders.activeOrders == PutLevel(b0, symbol, side, key, target[..j] + orders[j..])
      {
        ghost var cur := target[..j] + orders[j..];
        PartlyReestimated(orders, newDepth, j);
        var order := orders[j];
        var combined := order.queuePosition + order.pendingAmount;
        if newDepth < combined {
          var newQueue := Max0(newDepth - order.pendingAmount);
          order := order.(queuePosition := newQueue);
          assert order == target[j];
          UpsertReplacesInPlace(cur, j, order);
          SetOrderOverPutLevel(b0, symbol, side, key, cur, order);
          activeOrders.SetOrder(symbol, side, key, order);
          assert activeOrders.activeOrders == PutLevel(b0, symbol, side, key, cur[j := target[j]]);
        } else {
          assert target[j] == orders[j];
          assert cur[j := target[j]] == cur;
        }
      }
      assert target[..|orders|] + orders[|orders|..] == target;
    }

    /** `updateQueuePositionsAfterDepthDelta`. */
    method UpdateQueuePositionsAfterDepthDelta(symbol: string, bids: seq<DeltaLevel>, asks: seq<DeltaLevel>)
      requires A.UniqueIdsPerLevel(activeOrders.activeOrders)
      modifies activeOrders
      ensures activeOrders.activeOrders == QueuesAfterDelta(old(activeOrders.activeOrders), symbol, bids, asks)
    {
      if symbol !in activeOrders.activeOrders {
        return;
      }
      ghost var b0 := activeOrders.activeOrders;
      assert b0[symbol := A.TokenOrders(b0[symbol].buy, b0[symbol].sell)] == b0;
      for i := 0 to |bids|
        invariant activeOrders.activeOrders == b0[symbol := A.TokenOrders(ReestimateSide(b0[symbol].buy, bids[..i]), b0[symbol].sell)]
      {
        ReestimationOnlyShrinksQueues(b0[symbol].buy, bids[..i]);
        var active := activeOrders.activeOrders[symbol];
        var existingKey := FindExistingPriceKey(active.buy, bids[i].price);
        assert bids[..i + 1][..i] == bids[..i];
        if existingKey.Some? {
          var key := existingKey.value;
          assert A.LevelOf(b0, symbol, Buy, key).Some?;
          SameIdsKeepUnique(b0[symbol].buy[key], active.buy[key]);
          ReestimateOrdersAt(symbol, Buy, key, bids[i].qty);
          assert activeOrders.activeOrders[symbol] == A.TokenOrders(active.buy[key := ReestimateList(active.buy[key], bids[i].qty)], b0[symbol].sell);
        }
      }
      assert bids[..|bids|] == bids;
      for i := 0 to |asks|
        invariant activeOrders.activeOrders == b0[symbol := A.TokenOrders(ReestimateSide(b0[symbol].buy, bids), ReestimateSide(b0[symbol].sell, asks[..i]))]
      {
        ReestimationOnlyShrinksQueues(b0[symbol].sell, asks[..i]);
        var active := activeOrders.activeOrders[symbol];
        var existingKey := FindExistingPriceKey(active.sell, asks[i].price);
        assert asks[..i + 1][..i] == asks[..i];
        if existingKey.Some? {
          var key := existingKey.value;
          assert A.LevelOf(b0, symbol, Sell, key).Some?;
          SameIdsKeepUnique(b0[symbol].sell[key], active.sell[key]);
          ReestimateOrdersAt(symbol, Sell, key, asks[i].qty);
          assert activeOrders.activeOrders[symbol] == A.TokenOrders(active.buy, active.sell[key := ReestimateList(active.sell[key], asks[i].qty)]);
        }
      }
      assert asks[..|asks|] == asks;
    }

    /** `applyDelta`: applies the streamed changes to the token's book, then
        re-estimates the queues of the trader's orders at the changed prices. */
    method ApplyDelta(symbol: string, bids: seq<DeltaLevel>, asks: seq<DeltaLevel>)
      requires A.UniqueIdsPerLevel(activeOrders.activeOrders)
      modifies depthState, activeOrders
      ensures depthState.depthLevels == DepthAfterDelta(old(depthState.depthLevels), symbol, bids, asks)
      ensures activeOrders.activeOrders == QueuesAfterDelta(old(activeOrders.activeOrders), symbol, bids, asks)
    {
      ApplyBookDelta(symbol, bids, asks);
      UpdateQueuePositionsAfterDepthDelta(symbol, bids, asks);
    }

    /** `applyDelta` as written: the book changes as in `ApplyDelta`, and the
        trader's orders do not change at all. */
    method ApplyDeltaAsWritten(symbol: string, bids: seq<DeltaLevel>, asks: seq<DeltaLevel>)
      modifies depthState, activeOrders
      ensures depthState.depthLevels == DepthAfterDelta(old(depthState.depthLevels), symbol, bids, asks)
      ensures activeOrders.activeOrders == old(activeOrders.activeOrders)
    {
      ApplyBookDelta(symbol, bids, asks);
      UpdateQueuePositionsAfterDepthDeltaAsWritten(symbol, bids, asks);
    }

    /** The part of `applyDelta` before the queue update: the streamed changes
        applied to the token's book. */
    method ApplyBookDelta(symbol: string, bids: seq<DeltaLevel>, asks: seq<DeltaLevel>)
      modifies depthState
      ensures depthState.depthLevels == DepthAfterDelta(old(depthState.depthLevels), symbol, bids, asks)
    {
      if symbol !in depthState.depthLevels {
        depthState.SetSnapshot(symbol, map[], map[]);
      }
      var current := depthState.depthLevels[symbol];
      var buyLevels := current.buy;
      var sellLevels := current.sell;
      for i := 0 to |bids|
        invariant buyLevels == ApplyLevelDeltas(current.buy, bids[..i])
      {
        assert bids[..i + 1][..i] == bids[..i];
        var existingKey := FindExistingPriceKey(buyLevels, bids[i].price);
        if existingKey.None? {
          continue;
        }
        if bids[i].qty == 0.0 {
          buyLevels := buyLevels - {existingKey.value};
        } else {
          buyLevels := buyLevels[existingKey.value := bids[i].qty];
        }
      }
      for i := 0 to |asks|
        invariant sellLevels == ApplyLevelDeltas(current.sell, asks[..i])
      {
        assert asks[..i + 1][..i] == asks[..i];
        var existingKey := FindExistingPriceKey(sellLevels, asks[i].price);
        if existingKey.None? {
          continue;
        }
        if asks[i].qty == 0.0 {
          sellLevels := sellLevels - {existingKey.value};
        } else {
          sellLevels := sellLevels[existingKey.value := asks[i].qty];
        }
      }
      assert bids[..|bids|] == bids;
      assert asks[..|asks|] == asks;
      depthState.depthLevels := depthState.depthLevels[symbol := D.TokenDepth(buyLevels, sellLevels)];
    }

    /** `findOrderById` as the source writes it: it compares the `id` property of
        each price entry, which is an array, so it finds nothing whatever the
        store holds. */
    method FindOrderByIdAsWritten(orderId: int) returns (found: Option<EntryHit>)
      ensures found == None
    {
      var rb := RuntimeBook(activeOrders.activeOrders);
      found := SearchEntries(rb, orderId);
      RuntimeEntriesHaveNoId(activeOrders.activeOrders, orderId);
    }

    /** `cancelOrder` as written: the lookup never succeeds, so every call logs
        that the order was not found and returns; no store changes. */
    method CancelOrderAsWritten(orderId: int)
      modifies activeTokens, depthState, centralState, activeOrders, streams
      ensures Current() == old(Current())
    {
      var found := FindOrderByIdAsWritten(orderId);
      if found.None? {
        return;
      }
      // The removal and cleanup that `CancelOrder` performs are never reached.
      assert false;
    }

    /** `applyPartialFill` as written: the lookup never succeeds, so every call
        returns early and no order changes. */
    method ApplyPartialFillAsWritten(orderId: int, filledQty: real)
      modifies activeOrders
      ensures activeOrders.activeOrders == old(activeOrders.activeOrders)
    {
      var found := FindOrderByIdAsWritten(orderId);
      if found.None? {
        return;
      }
      // The write-back that `ApplyPartialFill` performs is never reached.
      assert false;
    }

    /** `updateQueuePositionsAfterDepthDelta` as written: the entry at a matching
        price is an array (truthy, so the `!order` guard never skips it), the sum
        of its `queue_position` and `pending_amount` is `NaN`, the comparison
        with the new depth is false, and no queue position ever changes. */
    method UpdateQueuePositionsAfterDepthDeltaAsWritten(symbol: string, bids: seq<DeltaLevel>, asks: seq<DeltaLevel>)
      modifies activeOrders
      ensures activeOrders.activeOrders == old(activeOrders.activeOrders)
    {
      if symbol !in activeOrders.activeOrders {
        return;
      }
      var active := activeOrders.activeOrders[symbol];
      for i := 0 to |bids|
        invariant activeOrders.activeOrders == old(activeOrders.activeOrders)
      {
        var existingKey := FindExistingPriceKey(active.buy, bids[i].price);
        if existingKey.None? {
          continue;
        }
        var order := A.OrderArray(active.buy[existingKey.value]);
        if QueueShrinksAsWritten(order, bids[i].qty) {
          // The write-back through `setOrder` is never reached.
          assert false;
        }
      }
      for i := 0 to |asks|
        invariant activeOrders.activeOrders == old(activeOrders.activeOrders)
      {
        var existingKey := FindExistingPriceKey(active.sell, asks[i].price);
        if existingKey.None? {
          continue;
        }
        var order := A.OrderArray(active.sell[existingKey.value]);
        if QueueShrinksAsWritten(order, asks[i].qty) {
          assert false;
        }
      }
    }
  }
}
