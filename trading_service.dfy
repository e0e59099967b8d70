/** `TradingService` of the older `src/trading` module: it keeps the trader's
    BUY and SELL order records in two lists, estimates the volume queued ahead
    of each (`minDelante`, `maxDelante`) from fetched depth, trade ticks and
    depth-stream events, and keeps one depth and one trade stream per token
    with orders. Fetched depth is an input; open streams are sets of symbols. */
module TradingDesk {
  import opened Wrappers
  import opened Market
  import opened TradingView
  import TS = TokenSets

  /** The tokens whose depth-stream messages are processed. */
  const TradingAllowList: set<string> := {"ACAUSDT", "NKNUSDT", "ACTUSDT", "VANRYUSDT"}

  /** An order event from the user stream or a trade tick from a trade stream
      (`s`, `p`, `q`, `m` stand in for `symbol`, `price`, `qty`, `makerIndicator`). */
  datatype OrderEvent = OrderEvent(
    eventType: string,
    symbol: string,
    orderId: int,
    price: Tick,
    qty: real,
    side: string,
    makerIndicator: bool)

  function SideOf(side: string): Side {
    if side == "BUY" then Buy else Sell
  }

  /** The record `handleNewOrder` stores: no queue estimate or position yet. */
  function NewRecord(e: OrderEvent): TradeRecord {
    TradeRecord(e.orderId, e.symbol, e.price, e.qty, None, None, None, SideOf(e.side))
  }

  /** The position of the first quote at `price` (`find(l => Number(l[0]) === price)`). */
  function FirstQuoteIndex(quotes: seq<Quote>, price: Tick): (r: Option<nat>)
    ensures r.Some? ==> r.value < |quotes| && quotes[r.value].price == price
    ensures r.Some? ==> forall j :: 0 <= j < r.value ==> quotes[j].price != price
    ensures r.None? <==> forall j :: 0 <= j < |quotes| ==> quotes[j].price != price
    decreases |quotes|
  {
    if quotes == [] then None
    else if quotes[0].price == price then Some(0)
    else
      match FirstQuoteIndex(quotes[1..], price)
      case None => None
      case Some(i) => Some(i + 1)
  }

  // ---------------------------------------------------------------- new orders

  /** The quotes on the record's own side of the book. */
  function SideQuotes(o: TradeRecord, depth: DepthSnapshot): seq<Quote> {
    if o.side == Buy then depth.bids else depth.asks
  }

  /** `processDepthForOrder`: when the order's own side lists its price, the
      volume ahead is that level's amount minus the order's own amount (at
      least 0), both bounds take it, and the position becomes the side list's
      length; otherwise the record is unchanged. */
  function WithDepth(o: TradeRecord, depth: DepthSnapshot, listLength: nat): (r: TradeRecord) {
    var levels := SideQuotes(o, depth);
    match FirstQuoteIndex(levels, o.price)
    case None => o
    case Some(k) =>
      var ahead := Max0(levels[k].amount - o.amount);
      o.(minDelante := Some(ahead), maxDelante := Some(ahead), position := Some(listLength))
  }

  /** With the first quote at the record's price at index `j`, both bounds
      become max(quote - amount, 0) and the position becomes the list length;
      the identity fields are kept. */
  lemma WithDepthMeaning(o: TradeRecord, depth: DepthSnapshot, listLength: nat, j: nat)
    requires j < |SideQuotes(o, depth)| && SideQuotes(o, depth)[j].price == o.price
    requires forall i :: 0 <= i < j ==> SideQuotes(o, depth)[i].price != o.price
    ensures var r := WithDepth(o, depth, listLength);
      r.id == o.id && r.token == o.token && r.price == o.price && r.amount == o.amount && r.side == o.side &&
      r.minDelante == r.maxDelante == Some(Max0(SideQuotes(o, depth)[j].amount - o.amount)) &&
      r.position == Some(listLength)
  {
    var levels := SideQuotes(o, depth);
    var k := FirstQuoteIndex(levels, o.price).value;
    assert !(j < k);
    assert !(k < j);
  }

  /** Without a quote at the record's price the record is unchanged. */
  lemma WithDepthWithoutQuote(o: TradeRecord, depth: DepthSnapshot, listLength: nat)
    requires forall i :: 0 <= i < |SideQuotes(o, depth)| ==> SideQuotes(o, depth)[i].price != o.price
    ensures WithDepth(o, depth, listLength) == o
  {
  }

  // ---------------------------------------------------------------- cancellation

  function IndexOfId(list: seq<TradeRecord>, id: int): (r: Option<nat>)
    ensures r.Some? ==> r.value < |list| && list[r.value].id == id
    ensures r.Some? ==> forall j :: 0 <= j < r.value ==> list[j].id != id
    ensures r.None? <==> forall j :: 0 <= j < |list| ==> list[j].id != id
    decreases |list|
  {
    if list == [] then None
    else if list[0].id == id then Some(0)
    else
      match IndexOfId(list[1..], id)
      case None => None
      case Some(i) => Some(i + 1)
  }

  /** `findIndex` then `splice(index, 1)`: the first record with that id goes. */
  function RemoveFirstId(list: seq<TradeRecord>, id: int): (r: seq<TradeRecord>) {
    match IndexOfId(list, id)
    case None => list
    case Some(k) => list[..k] + list[k + 1..]
  }

  /** Exactly the first record with the id is removed, the others keep their
      order; an unknown id changes nothing. */
  lemma RemoveFirstIdMeaning(list: seq<TradeRecord>, id: int)
    ensures (forall o :: o in list ==> o.id != id) ==> RemoveFirstId(list, id) == list
    ensures (exists o :: o in list && o.id == id) ==>
      exists k :: 0 <= k < |list| && list[k].id == id && (forall j :: 0 <= j < k ==> list[j].id != id) &&
        RemoveFirstId(list, id) == list[..k] + list[k + 1..] &&
        multiset(list) == multiset(RemoveFirstId(list, id)) + multiset{list[k]}
  {
    match IndexOfId(list, id)
    case None =>
      forall o | o in list ensures o.id != id {
        var j :| 0 <= j < |list| && list[j] == o;
      }
    case Some(k) =>
      assert list[k] in list;
      assert RemoveFirstId(list, id) == list[..k] + list[k + 1..];
      SpliceMultiset(list, k);
  }

  /** Cutting out one slot removes exactly that element from the multiset. */
  lemma SpliceMultiset(list: seq<TradeRecord>, k: nat)
    requires k < |list|
    ensures multiset(list) == multiset(list[..k] + list[k + 1..]) + multiset{list[k]}
  {
    assert list == list[..k] + [list[k]] + list[k + 1..];
  }

  /** The list an event's side names: `"BUY"` picks the BUY list, anything else the SELL list. */
  function ListOfSide(side: string, buys: seq<TradeRecord>, sells: seq<TradeRecord>): seq<TradeRecord> {
    if side == "BUY" then buys else sells
  }

  /** `cleanupStreamsIfNoOrders`' test: does either list hold an order for the symbol? */
  predicate HasOrdersFor(buys: seq<TradeRecord>, sells: seq<TradeRecord>, symbol: string) {
    (exists o :: o in buys && o.token == symbol) || (exists o :: o in sells && o.token == symbol)
  }

  // ---------------------------------------------------------------- trade ticks

  /** A trade at `price` for `symbol` reduces `minDelante` of the record by the
      traded quantity, with no floor; a `null` bound counts as 0. */
  function AfterTrade(o: TradeRecord, symbol: string, price: Tick, quantity: real): (r: TradeRecord) {
    if o.token == symbol && o.price == price then o.(minDelante := Some(o.minDelante.GetOr(0.0) - quantity)) else o
  }

  function AfterTradeAll(list: seq<TradeRecord>, symbol: string, price: Tick, quantity: real): (r: seq<TradeRecord>)
    ensures |r| == |list|
  {
    seq(|list|, i requires 0 <= i < |list| => AfterTrade(list[i], symbol, price, quantity))
  }

  /** The loop of `handleTradeOrder` over the chosen list, updating the
      matching records in place. */
  method ApplyTrade(list: seq<TradeRecord>, symbol: string, price: Tick, quantity: real) returns (updated: seq<TradeRecord>)
    ensures updated == AfterTradeAll(list, symbol, price, quantity)
  {
    updated := list;
    for i := 0 to |updated|
      invariant |updated| == |list|
      invariant forall j :: 0 <= j < i ==> updated[j] == AfterTrade(list[j], symbol, price, quantity)
      invariant forall j :: i <= j < |updated| ==> updated[j] == list[j]
    {
      var record := updated[i];
      if record.token == symbol && record.price == price {
        updated := updated[i := record.(minDelante := Some(record.minDelante.GetOr(0.0) - quantity))];
      }
    }
  }

  /** Only records of that token and price change, and only in `minDelante`,
      which drops by exactly the traded quantity. */
  lemma TradeTouchesOnlyMatching(list: seq<TradeRecord>, symbol: string, price: Tick, quantity: real)
    ensures var r := AfterTradeAll(list, symbol, price, quantity);
      |r| == |list| &&
      forall i :: 0 <= i < |list| ==>
        r[i] == list[i].(minDelante := r[i].minDelante) &&
        (list[i].token == symbol && list[i].price == price ==> r[i].minDelante == Some(list[i].minDelante.GetOr(0.0) - quantity)) &&
        (list[i].token != symbol || list[i].price != price ==> r[i] == list[i])
  {
  }

  /** Two trades on the same level reduce the lower bound by their sum. */
  lemma TradesAccumulate(o: TradeRecord, symbol: string, price: Tick, q1: real, q2: real)
    requires o.token == symbol && o.price == price
    ensures AfterTrade(AfterTrade(o, symbol, price, q1), symbol, price, q2).minDelante == Some(o.minDelante.GetOr(0.0) - (q1 + q2))
  {
  }

  // ---------------------------------------------------------------- depth-stream events

  /** The quotes a depth event shows: the first three bids, then the first three asks. */
  function TopQuotes(depth: DepthSnapshot): (r: seq<Quote>)
    ensures |r| <= 6
  {
    var nb := if |depth.bids| < 3 then |depth.bids| else 3;
    var na := if |depth.asks| < 3 then |depth.asks| else 3;
    depth.bids[..nb] + depth.asks[..na]
  }

  /** A depth event for `token`: an order of that token whose price is among the
      shown quotes (the first one with that price, whatever its side) gets that
      quote's amount as `maxDelante` when it had none or a larger one. */
  function Touch(o: TradeRecord, token: string, top: seq<Quote>): (r: TradeRecord) {
    if o.token != token then o
    else
      match FirstQuoteIndex(top, o.price)
      case None => o
      case Some(k) =>
        if o.maxDelante.None? || top[k].amount < o.maxDelante.value then o.(maxDelante := Some(top[k].amount)) else o
  }

  /** `maxDelante` never increases: a set bound stays set and can only shrink,
      to no less than the amount shown at the order's price; nothing else changes. */
  lemma MaxDelanteNeverIncreases(o: TradeRecord, token: string, top: seq<Quote>)
    ensures var r := Touch(o, token, top);
      r == o.(maxDelante := r.maxDelante) &&
      (o.maxDelante.Some? ==> r.maxDelante.Some? && r.maxDelante.value <= o.maxDelante.value) &&
      (o.token != token || (forall j :: 0 <= j < |top| ==> top[j].price != o.price) ==> r == o) &&
      (o.token == token && (exists j :: 0 <= j < |top| && top[j].price == o.price) ==>
        r.maxDelante.Some? &&
        var k := FirstQuoteIndex(top, o.price).value;
        r.maxDelante.value <= top[k].amount && (r.maxDelante.value == top[k].amount || r.maxDelante == o.maxDelante))
  {
  }

  function TouchAll(list: seq<TradeRecord>, token: string, top: seq<Quote>): (r: seq<TradeRecord>)
    ensures |r| == |list|
  {
    seq(|list|, i requires 0 <= i < |list| => Touch(list[i], token, top))
  }

  /** The views pushed onto the `k`-th shown level, in the order the records are visited. */
  function ViewsAt(orders: seq<TradeRecord>, token: string, top: seq<Quote>, k: nat): seq<ViewOrder>
    decreases |orders|
  {
    if orders == [] then []
    else
      var last := orders[|orders| - 1];
      ViewsAt(orders[..|orders| - 1], token, top, k) +
        (if last.token == token && FirstQuoteIndex(top, last.price) == Some(k) then [ViewOf(last)] else [])
  }

  lemma {:induction false} ViewsAtAppend(a: seq<TradeRecord>, b: seq<TradeRecord>, token: string, top: seq<Quote>, k: nat)
    ensures ViewsAt(a + b, token, top, k) == ViewsAt(a, token, top, k) + ViewsAt(b, token, top, k)
    decreases |b|
  {
    if b != [] {
      var n := |b| - 1;
      assert (a + b)[..|a + b| - 1] == a + b[..n];
      ViewsAtAppend(a, b[..n], token, top, k);
    } else {
      assert a + b == a;
    }
  }

  /** The levels a depth event shows before orders are attached. */
  function BareLevels(depth: DepthSnapshot): (r: seq<ViewLevel>)
    ensures |r| == |TopQuotes(depth)|
  {
    var top := TopQuotes(depth);
    var nb := if |depth.bids| < 3 then |depth.bids| else 3;
    seq(|top|, k requires 0 <= k < |top| => ViewLevel(Some(top[k].price), if k < nb then Buy else Sell, top[k].amount, []))
  }

  /** The levels `handleDepthStreamEvent` broadcasts: each shown quote with the
      views of the (updated) orders of that token whose price first matches it,
      BUY orders first. */
  function StreamLevels(buys: seq<TradeRecord>, sells: seq<TradeRecord>, token: string, depth: DepthSnapshot): (r: seq<ViewLevel>)
    ensures |r| == |TopQuotes(depth)|
  {
    var top := TopQuotes(depth);
    var orders := TouchAll(buys, token, top) + TouchAll(sells, token, top);
    var bare := BareLevels(depth);
    seq(|bare|, k requires 0 <= k < |bare| => bare[k].(userOrders := ViewsAt(orders, token, top, k)))
  }

  /** The `k`-th broadcast level: the bare level with the views of both lists. */
  lemma StreamLevelAt(buys: seq<TradeRecord>, sells: seq<TradeRecord>, token: string, depth: DepthSnapshot, k: nat)
    requires k < |TopQuotes(depth)|
    ensures var top := TopQuotes(depth);
      StreamLevels(buys, sells, token, depth)[k] ==
      BareLevels(depth)[k].(userOrders := ViewsAt(TouchAll(buys, token, top) + TouchAll(sells, token, top), token, top, k))
  {
  }

  /** Attaching the BUY views and then the SELL views to the bare levels gives
      the broadcast levels. */
  lemma AttachedViewsAreStreamLevels(buys: seq<TradeRecord>, sells: seq<TradeRecord>, token: string, depth: DepthSnapshot,
                                     afterBuys: seq<ViewLevel>, afterSells: seq<ViewLevel>)
    requires |afterBuys| == |afterSells| == |BareLevels(depth)|
    requires forall k :: 0 <= k < |afterBuys| ==> afterBuys[k] == BareLevels(depth)[k].(userOrders :=
      BareLevels(depth)[k].userOrders + ViewsAt(TouchAll(buys, token, TopQuotes(depth)), token, TopQuotes(depth), k))
    requires forall k :: 0 <= k < |afterSells| ==> afterSells[k] == afterBuys[k].(userOrders :=
      afterBuys[k].userOrders + ViewsAt(TouchAll(sells, token, TopQuotes(depth)), token, TopQuotes(depth), k))
    ensures afterSells == StreamLevels(buys, sells, token, depth)
  {
    var top := TopQuotes(depth);
    var bare := BareLevels(depth);
    var tb, ts := TouchAll(buys, token, top), TouchAll(sells, token, top);
    var expected := StreamLevels(buys, sells, token, depth);
    forall k | 0 <= k < |afterSells|
      ensures afterSells[k] == expected[k]
    {
      var lv := bare[k];
      var vb, vs := ViewsAt(tb, token, top, k), ViewsAt(ts, token, top, k);
      assert lv.userOrders == [];
      assert afterBuys[k] == ViewLevel(lv.price, lv.side, lv.marketAmount, [] + vb);
      assert [] + vb == vb;
      assert afterSells[k] == ViewLevel(lv.price, lv.side, lv.marketAmount, vb + vs);
      ViewsAtAppend(tb, ts, token, top, k);
      StreamLevelAt(buys, sells, token, depth, k);
    }
  }


  /** Appending one record adds its view to the level its price first matches. */
  lemma ViewsAtSnoc(done: seq<TradeRecord>, o: TradeRecord, token: string, top: seq<Quote>, k: nat)
    ensures ViewsAt(done + [o], token, top, k) ==
      ViewsAt(done, token, top, k) + (if o.token == token && FirstQuoteIndex(top, o.price) == Some(k) then [ViewOf(o)] else [])
  {
    assert (done + [o])[..|done|] == done;
  }

  /** Records keep their token under `TouchAll`. */
  lemma TouchAllKeepsTokens(list: seq<TradeRecord>, token: string, top: seq<Quote>, tokens: seq<string>)
    requires forall o :: o in list ==> o.token in tokens
    ensures forall o :: o in TouchAll(list, token, top) ==> o.token in tokens
  {
    var r := TouchAll(list, token, top);
    forall o | o in r ensures o.token in tokens {
      var j :| 0 <= j < |r| && r[j] == o;
      assert list[j] in list;
    }
  }

  /** Records keep their token under `AfterTradeAll`. */
  lemma AfterTradeKeepsTokens(list: seq<TradeRecord>, symbol: string, price: Tick, quantity: real, tokens: seq<string>)
    requires forall o :: o in list ==> o.token in tokens
    ensures forall o :: o in AfterTradeAll(list, symbol, price, quantity) ==> o.token in tokens
  {
    var r := AfterTradeAll(list, symbol, price, quantity);
    forall o | o in r ensures o.token in tokens {
      var j :| 0 <= j < |r| && r[j] == o;
      assert list[j] in list;
    }
  }

  /** Each level of `after` is that of `levels` with the views of `done`
      at its index appended. */
  ghost predicate ViewsAttached(levels: seq<ViewLevel>, after: seq<ViewLevel>, done: seq<TradeRecord>, token: string, top: seq<Quote>) {
    |after| == |levels| &&
    forall k :: 0 <= k < |levels| ==>
      after[k] == levels[k].(userOrders := levels[k].userOrders + ViewsAt(done, token, top, k))
  }

  /** Pushing one record's view onto the level it matches extends that
      level's views by the record, as `ViewsAt` of the longer prefix says. */
  lemma PushStep(levels: seq<ViewLevel>, before: seq<ViewLevel>, done: seq<TradeRecord>, o: TradeRecord,
                 token: string, top: seq<Quote>, after: seq<ViewLevel>)
    requires |levels| == |top|
    requires ViewsAttached(levels, before, done, token, top)
    requires var idx := FirstQuoteIndex(top, o.price);
      after == if o.token == token && idx.Some?
        then before[idx.value := before[idx.value].(userOrders := before[idx.value].userOrders + [ViewOf(o)])]
        else before
    ensures ViewsAttached(levels, after, done + [o], token, top)
  {
    assert |after| == |levels|;
    forall k | 0 <= k < |levels|
      ensures after[k] == levels[k].(userOrders := levels[k].userOrders + ViewsAt(done + [o], token, top, k))
    {
      var hit := o.token == token && FirstQuoteIndex(top, o.price) == Some(k);
      assert after[k] == if hit then before[k].(userOrders := before[k].userOrders + [ViewOf(o)]) else before[k];
      PushStepAt(levels[k], before[k], done, o, token, top, after[k], k);
    }
  }

  /** `PushStep` at one level index `k`. */
  lemma PushStepAt(level: ViewLevel, before: ViewLevel, done: seq<TradeRecord>, o: TradeRecord,
                   token: string, top: seq<Quote>, after: ViewLevel, k: nat)
    requires before == level.(userOrders := level.userOrders + ViewsAt(done, token, top, k))
    requires after == if o.token == token && FirstQuoteIndex(top, o.price) == Some(k)
      then before.(userOrders := before.userOrders + [ViewOf(o)])
      else before
    ensures after == level.(userOrders := level.userOrders + ViewsAt(done + [o], token, top, k))
  {
    ViewsAtSnoc(done, o, token, top, k);
    var old_ := level.userOrders;
    var prior := ViewsAt(done, token, top, k);
    if o.token == token && FirstQuoteIndex(top, o.price) == Some(k) {
      assert old_ + prior + [ViewOf(o)] == old_ + (prior + [ViewOf(o)]);
    } else {
      assert prior + [] == prior;
    }
  }

  /** The body of the visiting loop for one record: tightens its bound and
      pushes its view onto the level at its price, if its token is `token`. */
  method TouchOne(o: TradeRecord, token: string, top: seq<Quote>, levels: seq<ViewLevel>)
    returns (order: TradeRecord, after: seq<ViewLevel>)
    requires |levels| == |top|
    ensures order == Touch(o, token, top)
    ensures var idx := FirstQuoteIndex(top, order.price);
      after == if order.token == token && idx.Some?
        then levels[idx.value := levels[idx.value].(userOrders := levels[idx.value].userOrders + [ViewOf(order)])]
        else levels
  {
    order := o;
    after := levels;
    var idx := FirstQuoteIndex(top, order.price);
    if order.token == token && idx.Some? {
      if order.maxDelante.None? || top[idx.value].amount < order.maxDelante.value {
        order := order.(maxDelante := Some(top[idx.value].amount));
      }
      after := after[idx.value := after[idx.value].(userOrders := after[idx.value].userOrders + [ViewOf(order)])];
    }
  }

  /** The visiting loop over one list: updates each record and pushes its
      view onto the level it matches. */
  method TouchList(list: seq<TradeRecord>, token: string, top: seq<Quote>, levels: seq<ViewLevel>)
    returns (touched: seq<TradeRecord>, after: seq<ViewLevel>)
    requires |levels| == |top|
    ensures touched == TouchAll(list, token, top)
    ensures |after| == |levels|
    ensures forall k :: 0 <= k < |levels| ==>
      after[k] == levels[k].(userOrders := levels[k].userOrders + ViewsAt(touched, token, top, k))
  {
    touched := [];
    after := levels;
    for i := 0 to |list|
      invariant |touched| == i && |after| == |levels|
      invariant forall j :: 0 <= j < i ==> touched[j] == Touch(list[j], token, top)
      invariant ViewsAttached(levels, after, touched, token, top)
    {
      ghost var before := after;
      var order;
      order, after := TouchOne(list[i], token, top, after);
      PushStep(levels, before, touched, order, token, top, after);
      touched := touched + [order];
    }
  }

  // ---------------------------------------------------------------- the service

  class TradingService {
    var buyOrders: seq<TradeRecord>
    var sellOrders: seq<TradeRecord>
    var activeTokens: seq<string>
    /** Symbols with an open depth stream / trade stream. */
    var depthStreams: set<string>
    var tradeStreams: set<string>

    /** Active tokens have no duplicates, their streams are exactly the open
        ones, and every order's token is active. */
    ghost predicate Valid()
      reads this
    {
      TS.NoDuplicates(activeTokens) &&
      depthStreams == (set t | t in activeTokens) &&
      tradeStreams == (set t | t in activeTokens) &&
      (forall o :: o in buyOrders ==> o.token in activeTokens) &&
      (forall o :: o in sellOrders ==> o.token in activeTokens)
    }

    constructor()
      ensures Valid()
      ensures buyOrders == [] && sellOrders == [] && activeTokens == []
    {
      buyOrders := [];
      sellOrders := [];
      activeTokens := [];
      depthStreams := {};
      tradeStreams := {};
    }

    function IsAllowedToken(symbol: string): bool {
      symbol in TradingAllowList
    }

    /** `collectTokens`: the tokens of all orders. */
    method CollectTokens() returns (tokens: set<string>)
      ensures tokens == OrderTokens(buyOrders) + OrderTokens(sellOrders)
    {
      tokens := AddOrderTokens(buyOrders, {});
      tokens := AddOrderTokens(sellOrders, tokens);
    }

    /** Under `Valid`, every collected token is active. */
    lemma CollectedTokensAreActive()
      requires Valid()
      ensures forall t :: t in OrderTokens(buyOrders) + OrderTokens(sellOrders) ==> t in activeTokens
    {
    }

    method EnsureStreamsForSymbol(symbol: string)
      requires Valid()
      modifies this
      ensures Valid()
      ensures activeTokens == TS.SetAdd(old(activeTokens), symbol)
      ensures buyOrders == old(buyOrders) && sellOrders == old(sellOrders)
    {
      if symbol in activeTokens {
        return;
      }
      activeTokens := activeTokens + [symbol];
      depthStreams := depthStreams + {symbol};
      tradeStreams := tradeStreams + {symbol};
    }

    method CleanupStreamsIfNoOrders(symbol: string)
      requires Valid()
      modifies this
      ensures Valid()
      ensures buyOrders == old(buyOrders) && sellOrders == old(sellOrders)
      ensures activeTokens == if HasOrdersFor(buyOrders, sellOrders, symbol) then old(activeTokens) else TS.SetRemove(old(activeTokens), symbol)
    {
      var hasActiveOrders := (exists o :: o in buyOrders && o.token == symbol) || (exists o :: o in sellOrders && o.token == symbol);
      if hasActiveOrders {
        return;
      }
      if symbol in depthStreams {
        depthStreams := depthStreams - {symbol};
      }
      if symbol in tradeStreams {
        tradeStreams := tradeStreams - {symbol};
      }
      activeTokens := TS.SetRemove(activeTokens, symbol);
    }

    /** `handleNewOrder` with the depth fetched for the order's token: activates
        the token, appends the record to its side's list and estimates its queue. */
    method HandleNewOrder(order: OrderEvent, depth: DepthSnapshot)
      requires Valid()
      modifies this
      ensures Valid()
      ensures activeTokens == TS.SetAdd(old(activeTokens), order.symbol)
      ensures SideOf(order.side) == Buy ==>
        buyOrders == old(buyOrders) + [WithDepth(NewRecord(order), depth, |old(buyOrders)| + 1)] && sellOrders == old(sellOrders)
      ensures SideOf(order.side) == Sell ==>
        sellOrders == old(sellOrders) + [WithDepth(NewRecord(order), depth, |old(sellOrders)| + 1)] && buyOrders == old(buyOrders)
    {
      EnsureStreamsForSymbol(order.symbol);
      var newOrder := NewRecord(order);
      if order.side == "BUY" {
        buyOrders := buyOrders + [newOrder];
      } else {
        sellOrders := sellOrders + [newOrder];
      }
      ProcessDepthForOrder(newOrder.side, depth);
    }

    /** `processDepthForOrder` on the record just appended to `side`'s list. */
    method ProcessDepthForOrder(side: Side, depth: DepthSnapshot)
      requires Valid()
      requires side == Buy ==> buyOrders != []
      requires side == Sell ==> sellOrders != []
      modifies this
      ensures Valid()
      ensures activeTokens == old(activeTokens)
      ensures side == Buy ==> sellOrders == old(sellOrders)
      ensures side == Buy ==>
        buyOrders == old(buyOrders)[|old(buyOrders)| - 1 := WithDepth(old(buyOrders)[|old(buyOrders)| - 1], depth, |old(buyOrders)|)]
      ensures side == Sell ==> buyOrders == old(buyOrders)
      ensures side == Sell ==>
        sellOrders == old(sellOrders)[|old(sellOrders)| - 1 := WithDepth(old(sellOrders)[|old(sellOrders)| - 1], depth, |old(sellOrders)|)]
    {
      if side == Buy {
        var last := |buyOrders| - 1;
        var updated := WithDepth(buyOrders[last], depth, |buyOrders|);
        assert buyOrders[last] in buyOrders;
        buyOrders := buyOrders[last := updated];
      } else {
        var last := |sellOrders| - 1;
        var updated := WithDepth(sellOrders[last], depth, |sellOrders|);
        assert sellOrders[last] in sellOrders;
        sellOrders := sellOrders[last := updated];
      }
    }

    /** `handleCanceledOrder`: removes the first record with the id from the
        event side's list and then closes the symbol's streams if no order is
        left for it; an unknown id changes nothing. */
    method HandleCanceledOrder(order: OrderEvent)
      requires Valid()
      modifies this
      ensures Valid()
      ensures IndexOfId(ListOfSide(order.side, old(buyOrders), old(sellOrders)), order.orderId).None? ==>
        buyOrders == old(buyOrders) && sellOrders == old(sellOrders) && activeTokens == old(activeTokens) &&
        depthStreams == old(depthStreams) && tradeStreams == old(tradeStreams)
      ensures IndexOfId(ListOfSide(order.side, old(buyOrders), old(sellOrders)), order.orderId).Some? ==>
        (order.side == "BUY" ==> buyOrders == RemoveFirstId(old(buyOrders), order.orderId) && sellOrders == old(sellOrders)) &&
        (order.side != "BUY" ==> sellOrders == RemoveFirstId(old(sellOrders), order.orderId) && buyOrders == old(buyOrders)) &&
        activeTokens == if HasOrdersFor(buyOrders, sellOrders, order.symbol) then old(activeTokens) else TS.SetRemove(old(activeTokens), order.symbol)
    {
      var targetList := ListOfSide(order.side, buyOrders, sellOrders);
      var index := IndexOfId(targetList, order.orderId);
      if index.None? {
        return;
      }
      var k := index.value;
      var remaining := targetList[..k] + targetList[k + 1..];
      assert forall o :: o in remaining ==> o in targetList;
      if order.side == "BUY" {
        buyOrders := remaining;
      } else {
        sellOrders := remaining;
      }
      CleanupStreamsIfNoOrders(order.symbol);
    }

    /** `handleTradeOrder`: the maker flag picks the BUY list, otherwise the SELL
        list; every record there with the trade's token and price has its lower
        bound reduced by the traded quantity. */
    method HandleTradeOrder(order: OrderEvent)
      requires Valid()
      modifies this
      ensures Valid()
      ensures activeTokens == old(activeTokens) && depthStreams == old(depthStreams) && tradeStreams == old(tradeStreams)
      ensures order.makerIndicator ==>
        buyOrders == AfterTradeAll(old(buyOrders), order.symbol, order.price, order.qty) && sellOrders == old(sellOrders)
      ensures !order.makerIndicator ==>
        sellOrders == AfterTradeAll(old(sellOrders), order.symbol, order.price, order.qty) && buyOrders == old(buyOrders)
    {
      var targetList := if order.makerIndicator then buyOrders else sellOrders;
      var updated := ApplyTrade(targetList, order.symbol, order.price, order.qty);
      AfterTradeKeepsTokens(targetList, order.symbol, order.price, order.qty, activeTokens);
      if order.makerIndicator {
        buyOrders := updated;
      } else {
        sellOrders := updated;
      }
    }

    /** `handleDepthStreamEvent`: tightens `maxDelante` of the token's orders
        from the first three bids and asks and yields the levels and the
        probability row it broadcasts. */
    method HandleDepthStreamEvent(token: string, depth: DepthSnapshot) returns (levels: seq<ViewLevel>, row: seq<ProbEntry>)
      requires Valid()
      modifies this
      ensures Valid()
      ensures activeTokens == old(activeTokens) && depthStreams == old(depthStreams) && tradeStreams == old(tradeStreams)
      ensures buyOrders == TouchAll(old(buyOrders), token, TopQuotes(depth))
      ensures sellOrders == TouchAll(old(sellOrders), token, TopQuotes(depth))
      ensures levels == StreamLevels(old(buyOrders), old(sellOrders), token, depth)
      ensures row == ProbabilityRowOf(depth)
    {
      var top := TopQuotes(depth);
      var bare := BareLevels(depth);
      var touchedBuys, afterBuys := TouchList(buyOrders, token, top, bare);
      var touchedSells, afterSells := TouchList(sellOrders, token, top, afterBuys);
      levels := afterSells;
      AttachedViewsAreStreamLevels(buyOrders, sellOrders, token, depth, afterBuys, afterSells);
      TouchAllKeepsTokens(buyOrders, token, top, activeTokens);
      TouchAllKeepsTokens(sellOrders, token, top, activeTokens);
      buyOrders := touchedBuys;
      sellOrders := touchedSells;
      row := ProbabilityRowOf(depth);
    }

    /** A depth-stream message is handled only for an allowed token. */
    method OnDepthMessage(token: string, depth: DepthSnapshot) returns (broadcast: Option<(seq<ViewLevel>, seq<ProbEntry>)>)
      requires Valid()
      modifies this
      ensures Valid()
      ensures !IsAllowedToken(token) ==> broadcast.None? && buyOrders == old(buyOrders) && sellOrders == old(sellOrders)
      ensures IsAllowedToken(token) ==> broadcast == Some((StreamLevels(old(buyOrders), old(sellOrders), token, depth), ProbabilityRowOf(depth)))
    {
      if !IsAllowedToken(token) {
        return None;
      }
      var levels, row := HandleDepthStreamEvent(token, depth);
      broadcast := Some((levels, row));
    }

    /** `handleEvent`: NEW, CANCELED and TRADE go to their handlers (NEW with
        the depth fetched for its token), and each leaves the state its handler
        promises; any other event changes nothing. Under `Valid` the stream sets
        are exactly the active tokens, so the new token list fixes them too. */
    method HandleEvent(order: OrderEvent, depth: DepthSnapshot)
      requires Valid()
      modifies this
      ensures Valid()
      ensures order.eventType !in {"NEW", "CANCELED", "TRADE"} ==>
        buyOrders == old(buyOrders) && sellOrders == old(sellOrders) && activeTokens == old(activeTokens) &&
        depthStreams == old(depthStreams) && tradeStreams == old(tradeStreams)
      ensures order.eventType == "NEW" ==>
        && activeTokens == TS.SetAdd(old(activeTokens), order.symbol)
        && (SideOf(order.side) == Buy ==>
              buyOrders == old(buyOrders) + [WithDepth(NewRecord(order), depth, |old(buyOrders)| + 1)] && sellOrders == old(sellOrders))
        && (SideOf(order.side) == Sell ==>
              sellOrders == old(sellOrders) + [WithDepth(NewRecord(order), depth, |old(sellOrders)| + 1)] && buyOrders == old(buyOrders))
      ensures order.eventType == "CANCELED" && IndexOfId(ListOfSide(order.side, old(buyOrders), old(sellOrders)), order.orderId).None? ==>
        buyOrders == old(buyOrders) && sellOrders == old(sellOrders) && activeTokens == old(activeTokens) &&
        depthStreams == old(depthStreams) && tradeStreams == old(tradeStreams)
      ensures order.eventType == "CANCELED" && IndexOfId(ListOfSide(order.side, old(buyOrders), old(sellOrders)), order.orderId).Some? ==>
        && (order.side == "BUY" ==> buyOrders == RemoveFirstId(old(buyOrders), order.orderId) && sellOrders == old(sellOrders))
        && (order.side != "BUY" ==> sellOrders == RemoveFirstId(old(sellOrders), order.orderId) && buyOrders == old(buyOrders))
        && activeTokens == if HasOrdersFor(buyOrders, sellOrders, order.symbol) then old(activeTokens) else TS.SetRemove(old(activeTokens), order.symbol)
      ensures order.eventType == "TRADE" ==>
        && activeTokens == old(activeTokens) && depthStreams == old(depthStreams) && tradeStreams == old(tradeStreams)
        && (order.makerIndicator ==>
              buyOrders == AfterTradeAll(old(buyOrders), order.symbol, order.price, order.qty) && sellOrders == old(sellOrders))
        && (!order.makerIndicator ==>
              sellOrders == AfterTradeAll(old(sellOrders), order.symbol, order.price, order.qty) && buyOrders == old(buyOrders))
    {
      if order.eventType == "NEW" {
        HandleNewOrder(order, depth);
        return;
      }
      if order.eventType == "CANCELED" {
        HandleCanceledOrder(order);
        return;
      }
      if order.eventType == "TRADE" {
        HandleTradeOrder(order);
        return;
      }
    }
  }
}
