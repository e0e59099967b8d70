/** The older `src/trading` module's view (`StateBuilder`): per token, six price
    levels (three BUY, three SELL, padded) with the trader's orders attached, and
    a probability row from the top of the book. */
module TradingView {
  import opened Wrappers
  import opened Market
  import opened Sorting

  /** An order record of `TradingService.buyOrders` / `sellOrders`. `minDelante`
      and `maxDelante` bound the volume queued ahead of the order; they and
      `position` start as `null`. Any side other than "BUY" counts as SELL. */
  datatype TradeRecord = TradeRecord(
    id: int,
    token: string,
    price: Tick,
    amount: real,
    minDelante: Option<real>,
    maxDelante: Option<real>,
    position: Option<int>,
    side: Side)

  /** One `[price, amount]` pair of a fetched or streamed book. */
  datatype Quote = Quote(price: Tick, amount: real)

  datatype DepthSnapshot = DepthSnapshot(bids: seq<Quote>, asks: seq<Quote>)

  const EmptySnapshot := DepthSnapshot([], [])

  /** A level slot: a quote, or the `[null, "0"]` pad. */
  datatype Slot = Slot(price: Option<Tick>, amount: real)

  const Pad := Slot(None, 0.0)

  datatype ViewOrder = ViewOrder(id: int, amount: real, position: Option<int>, minDelante: Option<real>, maxDelante: Option<real>)

  datatype ViewLevel = ViewLevel(price: Option<Tick>, side: Side, marketAmount: real, userOrders: seq<ViewOrder>)

  datatype ProbEntry = ProbEntry(price: Option<Tick>, side: Side, prob: real)

  datatype TokenView = TokenView(levels: seq<ViewLevel>, probabilityRow: seq<ProbEntry>)

  function ViewOf(o: TradeRecord): ViewOrder {
    ViewOrder(o.id, o.amount, o.position, o.minDelante, o.maxDelante)
  }

  // ---------------------------------------------------------------- six levels

  /** The first three quotes as slots (`slice(0, 3)`). */
  function Head3(quotes: seq<Quote>): (r: seq<Slot>)
    ensures |r| == if |quotes| < 3 then |quotes| else 3
  {
    var n := if |quotes| < 3 then |quotes| else 3;
    seq(n, i requires 0 <= i < n => Slot(Some(quotes[i].price), quotes[i].amount))
  }

  /** The first three quotes, padded to exactly three slots. */
  function Padded(quotes: seq<Quote>): (r: seq<Slot>)
    ensures |r| == 3
  {
    var h := Head3(quotes);
    h + seq(3 - |h|, _ => Pad)
  }

  /** The padding `while` loop of `buildSixLevels`. */
  method PadToThree(quotes: seq<Quote>) returns (slots: seq<Slot>)
    ensures slots == Padded(quotes)
  {
    var head := Head3(quotes);
    slots := head;
    while |slots| < 3
      invariant |head| <= |slots| <= 3
      invariant slots == head + seq(|slots| - |head|, _ => Pad)
      decreases 3 - |slots|
    {
      slots := slots + [Pad];
    }
  }

  /** The views of the orders at `price`, in list order, whatever their token. */
  function OrdersAtPrice(orders: seq<TradeRecord>, price: Tick): (r: seq<ViewOrder>)
    ensures |r| <= |orders|
    decreases |orders|
  {
    if orders == [] then []
    else
      var n := |orders| - 1;
      OrdersAtPrice(orders[..n], price) + (if orders[n].price == price then [ViewOf(orders[n])] else [])
  }

  /** The positions of the orders at `price`: increasing, and exactly the
      positions whose order has that price. */
  function PositionsAt(orders: seq<TradeRecord>, price: Tick): (r: seq<nat>)
    ensures forall i :: 0 <= i < |r| ==> r[i] < |orders| && orders[r[i]].price == price
    ensures forall i, j :: 0 <= i < j < |r| ==> r[i] < r[j]
    ensures forall k :: 0 <= k < |orders| && orders[k].price == price ==> k in r
    decreases |orders|
  {
    if orders == [] then []
    else
      var n := |orders| - 1;
      var init := PositionsAt(orders[..n], price);
      assert forall k :: 0 <= k < n ==> orders[..n][k] == orders[k];
      init + (if orders[n].price == price then [n] else [])
  }

  /** The i-th view at `price` is that of the order at the i-th position holding it. */
  lemma {:induction false} ViewsFollowPositions(orders: seq<TradeRecord>, price: Tick)
    ensures |OrdersAtPrice(orders, price)| == |PositionsAt(orders, price)|
    ensures forall i :: 0 <= i < |PositionsAt(orders, price)| ==>
      OrdersAtPrice(orders, price)[i] == ViewOf(orders[PositionsAt(orders, price)[i]])
    decreases |orders|
  {
    if orders != [] {
      var n := |orders| - 1;
      var init := orders[..n];
      ViewsFollowPositions(init, price);
      var f0, r0 := PositionsAt(init, price), OrdersAtPrice(init, price);
      var f, r := PositionsAt(orders, price), OrdersAtPrice(orders, price);
      assert f == f0 + (if orders[n].price == price then [n] else []);
      assert r == r0 + (if orders[n].price == price then [ViewOf(orders[n])] else []);
      forall i | 0 <= i < |f| ensures r[i] == ViewOf(orders[f[i]]) {
        if i < |f0| {
          assert r[i] == r0[i] && f[i] == f0[i];
          assert orders[f0[i]] == init[f0[i]];
        }
      }
    }
  }

  lemma ViewAtPriceHasOrder(orders: seq<TradeRecord>, price: Tick, v: ViewOrder)
    requires v in OrdersAtPrice(orders, price)
    ensures exists o :: o in orders && o.price == price && ViewOf(o) == v
  {
    ViewsFollowPositions(orders, price);
    var f, r := PositionsAt(orders, price), OrdersAtPrice(orders, price);
    var i :| 0 <= i < |r| && r[i] == v;
    assert orders[f[i]] in orders;
  }

  lemma OrderAtPriceHasView(orders: seq<TradeRecord>, price: Tick, o: TradeRecord)
    requires o in orders && o.price == price
    ensures ViewOf(o) in OrdersAtPrice(orders, price)
  {
    ViewsFollowPositions(orders, price);
    var f, r := PositionsAt(orders, price), OrdersAtPrice(orders, price);
    var k :| 0 <= k < |orders| && orders[k] == o;
    var i :| 0 <= i < |f| && f[i] == k;
    assert r[i] == ViewOf(o);
  }

  /** Exactly the orders at that price show up, each once, in list order: the
      i-th view is that of the order at the i-th position holding the price. */
  lemma OrdersAtPriceMeaning(orders: seq<TradeRecord>, price: Tick)
    ensures forall v :: v in OrdersAtPrice(orders, price) <==> exists o :: o in orders && o.price == price && ViewOf(o) == v
    ensures (forall o :: o in orders ==> o.price != price) ==> OrdersAtPrice(orders, price) == []
    ensures |OrdersAtPrice(orders, price)| == |PositionsAt(orders, price)|
    ensures forall i :: 0 <= i < |PositionsAt(orders, price)| ==>
      OrdersAtPrice(orders, price)[i] == ViewOf(orders[PositionsAt(orders, price)[i]])
  {
    ViewsFollowPositions(orders, price);
    forall v | v in OrdersAtPrice(orders, price) ensures exists o :: o in orders && o.price == price && ViewOf(o) == v {
      ViewAtPriceHasOrder(orders, price, v);
    }
    forall o | o in orders && o.price == price ensures ViewOf(o) in OrdersAtPrice(orders, price) {
      OrderAtPriceHasView(orders, price, o);
    }
    if OrdersAtPrice(orders, price) != [] {
      ViewAtPriceHasOrder(orders, price, OrdersAtPrice(orders, price)[0]);
    }
  }

  function LevelOf(slot: Slot, side: Side, orders: seq<TradeRecord>): ViewLevel {
    match slot.price
    case None => ViewLevel(None, side, 0.0, [])
    case Some(p) => ViewLevel(Some(p), side, slot.amount, OrdersAtPrice(orders, p))
  }

  /** BUY levels sort by price with the pads last. */
  function LevelRank(l: ViewLevel): Rank {
    if l.price.None? then Last else At(l.price.value)
  }

  function SlotLevels(slots: seq<Slot>, side: Side, orders: seq<TradeRecord>): (r: seq<ViewLevel>)
    ensures |r| == |slots|
  {
    seq(|slots|, i requires 0 <= i < |slots| => LevelOf(slots[i], side, orders))
  }

  /** `buildSixLevels`: three BUY levels sorted by price (pads last), then three
      SELL levels in the asks' order. */
  function SixLevels(buys: seq<TradeRecord>, sells: seq<TradeRecord>, depth: DepthSnapshot): (r: seq<ViewLevel>) {
    SortBy(SlotLevels(Padded(depth.bids), Buy, buys), LevelRank) + SlotLevels(Padded(depth.asks), Sell, sells)
  }

  /** A level shows its slot faithfully: a pad has amount 0 and no orders; a
      quote has its amount and all the side's orders at its price. */
  ghost predicate ShowsSlot(l: ViewLevel, side: Side, orders: seq<TradeRecord>) {
    l.side == side &&
    (l.price.None? ==> l.marketAmount == 0.0 && l.userOrders == []) &&
    (l.price.Some? ==> l.userOrders == OrdersAtPrice(orders, l.price.value))
  }

  /** Always six levels, three BUY then three SELL; the BUY levels ascend with
      the pads last and are the first three bids; the SELL levels are the first
      three asks in order, then pads. */
  lemma SixLevelsShape(buys: seq<TradeRecord>, sells: seq<TradeRecord>, depth: DepthSnapshot)
    ensures var r := SixLevels(buys, sells, depth);
      |r| == 6 &&
      SortedBy(r[..3], LevelRank) &&
      multiset(r[..3]) == multiset(SlotLevels(Padded(depth.bids), Buy, buys)) &&
      (forall i :: 0 <= i < 3 ==> ShowsSlot(r[i], Buy, buys)) &&
      (forall i :: 3 <= i < 6 ==> ShowsSlot(r[i], Sell, sells)) &&
      (forall i :: 0 <= i < 3 ==>
        if i < |depth.asks| then r[3 + i].price == Some(depth.asks[i].price) && r[3 + i].marketAmount == depth.asks[i].amount
        else r[3 + i].price.None?)
  {
    var bl := SlotLevels(Padded(depth.bids), Buy, buys);
    var sorted := SortBy(bl, LevelRank);
    var sl := SlotLevels(Padded(depth.asks), Sell, sells);
    var r := SixLevels(buys, sells, depth);
    assert r[..3] == sorted && |sorted| == 3;
    assert forall i :: 3 <= i < 6 ==> r[i] == sl[i - 3];
    assert SortedBy(sorted, LevelRank) by { SortBySorted(bl, LevelRank); }
    BuyLevelsShowSlots(buys, depth.bids);
    SellLevelsShowAsks(sells, depth.asks);
  }

  /** The sorted BUY levels each show a slot of the bids. */
  lemma BuyLevelsShowSlots(buys: seq<TradeRecord>, bids: seq<Quote>)
    ensures var sorted := SortBy(SlotLevels(Padded(bids), Buy, buys), LevelRank);
      |sorted| == 3 && forall i :: 0 <= i < 3 ==> ShowsSlot(sorted[i], Buy, buys)
  {
    var slots := Padded(bids);
    var bl := SlotLevels(slots, Buy, buys);
    var sorted := SortBy(bl, LevelRank);
    forall i | 0 <= i < 3 ensures ShowsSlot(sorted[i], Buy, buys) {
      assert sorted[i] in multiset(bl);
      var k :| 0 <= k < |bl| && bl[k] == sorted[i];
      LevelShowsSlot(slots[k], Buy, buys);
    }
  }

  lemma LevelShowsSlot(slot: Slot, side: Side, orders: seq<TradeRecord>)
    ensures ShowsSlot(LevelOf(slot, side, orders), side, orders)
  {
  }

  /** The SELL levels are the first three asks in order, then pads. */
  lemma SellLevelsShowAsks(sells: seq<TradeRecord>, asks: seq<Quote>)
    ensures var sl := SlotLevels(Padded(asks), Sell, sells);
      |sl| == 3 &&
      (forall i :: 0 <= i < 3 ==> ShowsSlot(sl[i], Sell, sells)) &&
      (forall i :: 0 <= i < 3 ==>
        if i < |asks| then sl[i].price == Some(asks[i].price) && sl[i].marketAmount == asks[i].amount
        else sl[i].price.None?)
  {
    var slots := Padded(asks);
    var h := Head3(asks);
    forall i | 0 <= i < 3
      ensures if i < |asks| then slots[i] == Slot(Some(asks[i].price), asks[i].amount) else slots[i] == Pad
    {
      if i < |h| {
        assert slots[i] == h[i];
      }
    }
  }

  /** `buildSixLevels` as the source writes it. */
  method BuildSixLevels(buys: seq<TradeRecord>, sells: seq<TradeRecord>, depth: DepthSnapshot) returns (levels: seq<ViewLevel>)
    ensures levels == SixLevels(buys, sells, depth)
  {
    var bids := PadToThree(depth.bids);
    var asks := PadToThree(depth.asks);
    var buyLevels := SortBy(SlotLevels(bids, Buy, buys), LevelRank);
    var sellLevels := SlotLevels(asks, Sell, sells);
    levels := buyLevels + sellLevels;
  }

  // ---------------------------------------------------------------- probability row

  /** `buildProbabilityRow` (and the identical `buildProbabilityRowFromDepth` of
      `TradingService`). `probAsk` is the best bid's share of the two top
      amounts and `probBid` the best ask's share. */
  function ProbabilityRowOf(depth: DepthSnapshot): (r: seq<ProbEntry>) {
    if |depth.bids| == 0 || |depth.asks| == 0 then []
    else
      var bid0 := depth.bids[0];
      var ask0 := depth.asks[0];
      var total := bid0.amount + ask0.amount;
      if total == 0.0 then []
      else
        var probAsk := bid0.amount / total;
        var probBid := ask0.amount / total;
        [ProbEntry(if |depth.bids| > 1 then Some(depth.bids[1].price) else None, Buy, probBid),
         ProbEntry(Some(ask0.price), Buy, probAsk),
         ProbEntry(Some(bid0.price), Sell, probBid),
         ProbEntry(if |depth.asks| > 1 then Some(depth.asks[1].price) else None, Sell, probAsk)]
  }

  /** The row is empty exactly when a side is empty or the two top amounts sum
      to 0; otherwise it has four entries whose two probabilities sum to 1, the
      second-level prices being null when that level is missing. */
  lemma ProbabilityRowShape(depth: DepthSnapshot)
    ensures var r := ProbabilityRowOf(depth);
      (r == [] <==> |depth.bids| == 0 || |depth.asks| == 0 || depth.bids[0].amount + depth.asks[0].amount == 0.0) &&
      (r != [] ==>
        var total := depth.bids[0].amount + depth.asks[0].amount;
        |r| == 4 &&
        r[0].side == Buy && r[1].side == Buy && r[2].side == Sell && r[3].side == Sell &&
        (r[0].price.Some? <==> |depth.bids| >= 2) && (r[3].price.Some? <==> |depth.asks| >= 2) &&
        r[1].price == Some(depth.asks[0].price) && r[2].price == Some(depth.bids[0].price) &&
        r[1].prob == depth.bids[0].amount / total && r[0].prob == depth.asks[0].amount / total &&
        r[0].prob == r[2].prob && r[1].prob == r[3].prob &&
        r[0].prob + r[1].prob == 1.0)
  {
    if |depth.bids| > 0 && |depth.asks| > 0 && depth.bids[0].amount + depth.asks[0].amount != 0.0 {
      SharesOfTotal(depth.asks[0].amount, depth.bids[0].amount);
    }
  }

  // ---------------------------------------------------------------- tokens and state

  /** The truthy (non-empty) tokens of a list of records. */
  function OrderTokens(orders: seq<TradeRecord>): set<string> {
    set o | o in orders && o.token != "" :: o.token
  }

  /** `extractTokens`: the order tokens of both lists and every key of the depth map. */
  function TokensOf(buys: seq<TradeRecord>, sells: seq<TradeRecord>, depth: map<string, DepthSnapshot>): (r: set<string>) {
    OrderTokens(buys) + OrderTokens(sells) + depth.Keys
  }

  /** A token is listed exactly when an order carries it or the depth map has it. */
  lemma TokensOfMeaning(buys: seq<TradeRecord>, sells: seq<TradeRecord>, depth: map<string, DepthSnapshot>, t: string)
    ensures t in TokensOf(buys, sells, depth) <==>
      t in depth || (t != "" && exists o :: o in buys + sells && o.token == t)
  {
    if t != "" && exists o :: o in buys + sells && o.token == t {
      var o :| o in buys + sells && o.token == t;
      if o in buys {
        assert t in OrderTokens(buys);
      } else {
        assert t in OrderTokens(sells);
      }
    }
  }

  /** The loop over one order list in `extractTokens`. */
  method AddOrderTokens(orders: seq<TradeRecord>, acc: set<string>) returns (r: set<string>)
    ensures r == acc + OrderTokens(orders)
  {
    r := acc;
    for i := 0 to |orders|
      invariant r == acc + OrderTokens(orders[..i])
    {
      assert orders[..i + 1] == orders[..i] + [orders[i]];
      if orders[i].token != "" {
        r := r + {orders[i].token};
      }
    }
    assert orders[..|orders|] == orders;
  }

  method ExtractTokens(buys: seq<TradeRecord>, sells: seq<TradeRecord>, depth: map<string, DepthSnapshot>) returns (tokens: set<string>)
    ensures tokens == TokensOf(buys, sells, depth)
  {
    tokens := AddOrderTokens(buys, {});
    tokens := AddOrderTokens(sells, tokens);
    tokens := tokens + depth.Keys;
  }

  /** The depth of a token, or an empty book when the map has none. */
  function DepthOf(depth: map<string, DepthSnapshot>, t: string): DepthSnapshot {
    if t in depth then depth[t] else EmptySnapshot
  }

  function TokenViewOf(buys: seq<TradeRecord>, sells: seq<TradeRecord>, depth: DepthSnapshot): TokenView {
    TokenView(SixLevels(buys, sells, depth), ProbabilityRowOf(depth))
  }

  /** A token without depth is shown as six pads and no probability row. */
  lemma MissingDepthShowsPads(buys: seq<TradeRecord>, sells: seq<TradeRecord>, depth: map<string, DepthSnapshot>, t: string)
    requires t !in depth
    ensures var v := TokenViewOf(buys, sells, DepthOf(depth, t));
      v.probabilityRow == [] && |v.levels| == 6 &&
      forall i :: 0 <= i < 6 ==> v.levels[i].price.None? && v.levels[i].marketAmount == 0.0 && v.levels[i].userOrders == []
  {
    assert DepthOf(depth, t) == EmptySnapshot;
    EmptyBookLevels(buys, sells);
  }

  /** With an empty book every one of the six levels is a pad. */
  lemma EmptyBookLevels(buys: seq<TradeRecord>, sells: seq<TradeRecord>)
    ensures var r := SixLevels(buys, sells, EmptySnapshot);
      |r| == 6 && forall i :: 0 <= i < 6 ==> r[i].price.None? && r[i].marketAmount == 0.0 && r[i].userOrders == []
  {
    var buyPad := ViewLevel(None, Buy, 0.0, []);
    var sellPad := ViewLevel(None, Sell, 0.0, []);
    var sorted := SortBy(SlotLevels(Padded([]), Buy, buys), LevelRank);
    var sl := SlotLevels(Padded([]), Sell, sells);
    assert sorted == [buyPad, buyPad, buyPad] by { SortedPads(buys); }
    assert sl == [sellPad, sellPad, sellPad] by { PadSlots(Sell, sells); }
    assert SixLevels(buys, sells, EmptySnapshot) == [buyPad, buyPad, buyPad, sellPad, sellPad, sellPad];
  }

  /** The levels of three pads. */
  lemma PadSlots(side: Side, orders: seq<TradeRecord>)
    ensures SlotLevels(Padded([]), side, orders) == [ViewLevel(None, side, 0.0, []), ViewLevel(None, side, 0.0, []), ViewLevel(None, side, 0.0, [])]
  {
    assert Padded([]) == [Pad, Pad, Pad];
  }

  /** Sorting three BUY pads leaves three BUY pads. */
  lemma SortedPads(buys: seq<TradeRecord>)
    ensures SortBy(SlotLevels(Padded([]), Buy, buys), LevelRank) == [ViewLevel(None, Buy, 0.0, []), ViewLevel(None, Buy, 0.0, []), ViewLevel(None, Buy, 0.0, [])]
  {
    var pad := ViewLevel(None, Buy, 0.0, []);
    var bl := SlotLevels(Padded([]), Buy, buys);
    PadSlots(Buy, buys);
    var sorted := SortBy(bl, LevelRank);
    forall i | 0 <= i < 3 ensures sorted[i] == pad {
      assert sorted[i] in multiset(bl);
    }
  }

  /** `buildState`: one view per token of the orders and the depth map. */
  method BuildState(buys: seq<TradeRecord>, sells: seq<TradeRecord>, depth: map<string, DepthSnapshot>) returns (state: map<string, TokenView>)
    ensures state.Keys == TokensOf(buys, sells, depth)
    ensures forall t :: t in state ==> state[t] == TokenViewOf(buys, sells, DepthOf(depth, t))
  {
    state := map[];
    var tokens := ExtractTokens(buys, sells, depth);
    ghost var all := tokens;
    while tokens != {}
      invariant tokens <= all
      invariant state.Keys == all - tokens
      invariant forall t :: t in state ==> state[t] == TokenViewOf(buys, sells, DepthOf(depth, t))
      decreases tokens
    {
      ghost var sample := PickMember(tokens);
      var token :| token in tokens;
      var tokenDepth := if token in depth then depth[token] else EmptySnapshot;
      var levels := BuildSixLevels(buys, sells, tokenDepth);
      state := state[token := TokenView(levels, ProbabilityRowOf(tokenDepth))];
      tokens := tokens - {token};
    }
  }
}
