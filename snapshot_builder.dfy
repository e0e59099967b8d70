/** `SnapshotBuilder`: the per-token view pushed to the app. For each side it
    picks up to three price levels around the central price, attaches the
    trader's own orders at those prices, and computes a four-entry probability
    row from the depth at the two central prices. */
module SnapshotBuilding {
  import opened Wrappers
  import opened Market
  import opened Sorting
  import D = DepthStore
  import C = CentralStore
  import A = ActiveOrders

  datatype SnapshotUserOrder = SnapshotUserOrder(id: int, amount: real, queuePosition: real)

  datatype SnapshotLevel = SnapshotLevel(price: Tick, side: Side, marketAmount: real, userOrders: seq<SnapshotUserOrder>)

  datatype ProbabilityEntry = ProbabilityEntry(price: Tick, side: Side, prob: real)

  datatype TokenSnapshot = TokenSnapshot(levels: seq<SnapshotLevel>, probabilityRow: seq<ProbabilityEntry>, centralState: C.CentralStateEntry)

  predicate Distinct(s: seq<Tick>) {
    forall i, j :: 0 <= i < j < |s| ==> s[i] != s[j]
  }

  // ---------------------------------------------------------------- price selection

  function Reverse(s: seq<Tick>): (r: seq<Tick>)
    ensures |r| == |s|
    decreases |s|
  {
    if s == [] then [] else [s[|s| - 1]] + Reverse(s[..|s| - 1])
  }

  lemma {:induction false} ReverseAt(s: seq<Tick>, i: nat)
    requires i < |s|
    ensures Reverse(s)[i] == s[|s| - 1 - i]
    decreases |s|
  {
    if i > 0 {
      ReverseAt(s[..|s| - 1], i - 1);
    }
  }

  /** The prices strictly below the cursor `left + 1`, nearest first. */
  function Down(prices: seq<Tick>, left: int): seq<Tick>
    requires -1 <= left < |prices|
  {
    Reverse(prices[..left + 1])
  }

  lemma DownStep(prices: seq<Tick>, left: int)
    requires 0 <= left < |prices|
    ensures Down(prices, left) == [prices[left]] + Down(prices, left - 1)
  {
    assert prices[..left + 1][..left] == prices[..left];
  }

  /** Takes from `a` and `b` in turn, starting with `a`, until both are used up. */
  function Alternate(a: seq<Tick>, b: seq<Tick>): (r: seq<Tick>)
    ensures |r| == |a| + |b|
    decreases |a| + |b|
  {
    if a == [] then b else [a[0]] + Alternate(b, a[1..])
  }

  lemma {:induction false} AlternateNilRight(a: seq<Tick>)
    ensures Alternate(a, []) == a
  {
    if a != [] {
      assert Alternate([], a[1..]) == a[1..];
    }
  }

  function Take3(s: seq<Tick>): seq<Tick> {
    if |s| <= 3 then s else s[..3]
  }

  /** The outward walk from the central price at `idx`: the central price, then
      the next lower and next higher prices in turn, at most three in all. */
  function AroundCentral(prices: seq<Tick>, idx: nat): (r: seq<Tick>)
    requires idx < |prices|
  {
    Take3([prices[idx]] + Alternate(Reverse(prices[..idx]), prices[idx + 1..]))
  }

  /** The walk spelled out: central, one lower, one higher when both exist;
      otherwise the two nearest on the side that has them. */
  lemma AroundCentralCases(p: seq<Tick>, idx: nat)
    requires idx < |p|
    ensures AroundCentral(p, idx) ==
      if idx >= 1 && idx + 1 < |p| then [p[idx], p[idx - 1], p[idx + 1]]
      else if idx >= 2 then [p[idx], p[idx - 1], p[idx - 2]]
      else if idx == 1 then [p[1], p[0]]
      else if |p| >= 3 then [p[0], p[1], p[2]]
      else p
  {
    var down := Reverse(p[..idx]);
    var up := p[idx + 1..];
    if idx >= 1 {
      ReverseAt(p[..idx], 0);
      assert down[0] == p[idx - 1];
      assert Alternate(down, up) == [p[idx - 1]] + Alternate(up, down[1..]);
      if idx + 1 < |p| {
        assert Alternate(up, down[1..]) == [p[idx + 1]] + Alternate(down[1..], up[1..]);
      } else if idx >= 2 {
        assert up == [];
        ReverseAt(p[..idx], 1);
        assert down[1] == p[idx - 2];
        assert Alternate(up, down[1..]) == down[1..];
      } else {
        assert up == [] && down[1..] == [];
      }
    } else {
      assert down == [];
      assert Alternate(down, up) == up;
      assert [p[0]] + up == p;
    }
  }

  /** The last three prices (`slice(-3)`), or all when there are fewer. */
  function LastThree(prices: seq<Tick>): seq<Tick> {
    if |prices| <= 3 then prices else prices[|prices| - 3..]
  }

  /** The first three prices (`slice(0, 3)`), or all when there are fewer. */
  function FirstThree(prices: seq<Tick>): seq<Tick> {
    if |prices| <= 3 then prices else prices[..3]
  }

  /** The walk yields min(3, n) distinct listed prices, the central one first. */
  lemma AroundCentralShape(p: seq<Tick>, idx: nat)
    requires idx < |p|
    requires StrictlyAscending(p)
    ensures var r := AroundCentral(p, idx);
      Distinct(r) && (forall x :: x in r ==> x in p) &&
      |r| == (if |p| <= 3 then |p| else 3) && r[0] == p[idx]
  {
    AroundCentralCases(p, idx);
    if |p| > 3 && idx == 0 {
      assert p[..3] == [p[0], p[1], p[2]];
    }
  }

  /** The prices `buildLevels` selects on one side from the ascending list of
      that side's prices: around the central price when it is in the list,
      otherwise the three highest bids or the three lowest asks. */
  function SelectedPrices(prices: seq<Tick>, central: Option<Tick>, side: Side): seq<Tick>
    requires StrictlyAscending(prices)
  {
    if |prices| == 0 then []
    else
      var fallback := if side == Buy then LastThree(prices) else FirstThree(prices);
      if central.None? then fallback
      else
        match IndexOf(prices, central.value)
        case None => fallback
        case Some(idx) => AroundCentral(prices, idx)
  }

  /** At most three distinct listed prices are selected (three when the side has
      three), led by the central price whenever that price is listed; without it
      the highest bids or the lowest asks are taken. */
  lemma SelectedPricesShape(prices: seq<Tick>, central: Option<Tick>, side: Side)
    requires StrictlyAscending(prices)
    ensures var r := SelectedPrices(prices, central, side);
      Distinct(r) && (forall x :: x in r ==> x in prices) &&
      |r| == (if |prices| <= 3 then |prices| else 3) &&
      (central.Some? && central.value in prices ==> r[0] == central.value) &&
      ((central.None? || central.value !in prices) ==> r == if side == Buy then LastThree(prices) else FirstThree(prices))
  {
    if |prices| > 0 && central.Some? && central.value in prices {
      var idx := IndexOf(prices, central.value).value;
      AroundCentralShape(prices, idx);
    }
  }

  /** Taking the next lower price moves it from the unvisited prices to the
      selected ones, and the higher prices come next. */
  lemma LeftStep(prices: seq<Tick>, left: int, right: nat, selected: seq<Tick>)
    requires 0 <= left < right <= |prices|
    ensures selected + Alternate(Down(prices, left), prices[right..]) ==
      (selected + [prices[left]]) + Alternate(prices[right..], Down(prices, left - 1))
  {
    DownStep(prices, left);
  }

  /** Taking the next higher price likewise, and the lower prices come next. */
  lemma RightStep(prices: seq<Tick>, left: int, right: nat, selected: seq<Tick>)
    requires -1 <= left < right < |prices|
    ensures selected + Alternate(prices[right..], Down(prices, left)) ==
      (selected + [prices[right]]) + Alternate(Down(prices, left), prices[right + 1..])
  {
    assert prices[right..] == [prices[right]] + prices[right + 1..];
  }

  /** With one side used up, the turn order no longer matters. */
  lemma OneSideLeft(a: seq<Tick>, b: seq<Tick>)
    requires a == [] || b == []
    ensures Alternate(a, b) == Alternate(b, a)
  {
    if a == [] {
      AlternateNilRight(b);
    } else {
      AlternateNilRight(a);
    }
  }

  /** The outward walk as the source's `while` loop over the `left` and `right` cursors. */
  method WalkFromCentral(prices: seq<Tick>, idx: nat) returns (selected: seq<Tick>)
    requires idx < |prices|
    ensures selected == AroundCentral(prices, idx)
  {
    selected := [prices[idx]];
    var left: int := idx - 1;
    var right := idx + 1;
    while |selected| < 3 && (left >= 0 || right < |prices|)
      invariant -1 <= left < idx < right <= |prices|
      invariant 1 <= |selected| <= 3
      invariant Take3(selected + Alternate(Down(prices, left), prices[right..])) == AroundCentral(prices, idx)
      decreases left + 1 + |prices| - right
    {
      if left >= 0 {
        LeftStep(prices, left, right, selected);
        selected := selected + [prices[left]];
        left := left - 1;
      } else {
        OneSideLeft(Down(prices, left), prices[right..]);
      }
      if |selected| >= 3 {
        break;
      }
      if right < |prices| {
        RightStep(prices, left, right, selected);
        selected := selected + [prices[right]];
        right := right + 1;
      } else {
        OneSideLeft(Down(prices, left), prices[right..]);
      }
    }
  }

  /** `buildLevels`' selection for one side, as the source writes it. */
  method SelectSide(prices: seq<Tick>, central: Option<Tick>, side: Side) returns (selected: seq<Tick>)
    requires StrictlyAscending(prices)
    ensures selected == SelectedPrices(prices, central, side)
  {
    selected := [];
    if |prices| > 0 {
      var fallback := if side == Buy then LastThree(prices) else FirstThree(prices);
      if central.Some? {
        var idx := IndexOf(prices, central.value);
        if idx.Some? {
          selected := WalkFromCentral(prices, idx.value);
        } else {
          selected := fallback;
        }
      } else {
        selected := fallback;
      }
    }
  }

  // ---------------------------------------------------------------- levels

  /** The trader's orders resting at one price, one snapshot entry per order. */
  function UserOrdersAt(ao: A.OrderBook, symbol: string, side: Side, price: Tick): (r: seq<SnapshotUserOrder>) {
    var orders := A.OrdersAt(ao, symbol, side, price);
    seq(|orders|, i requires 0 <= i < |orders| => SnapshotUserOrder(orders[i].id, orders[i].pendingAmount, orders[i].queuePosition))
  }

  /** A snapshot entry as `buildLevels` writes it, each field as the property read
      gives it (`None` or `Undefined` for `undefined`). */
  datatype SnapshotUserOrderAsWritten = SnapshotUserOrderAsWritten(id: Option<int>, amount: A.JsNumber, queuePosition: A.JsNumber)

  /** `userOrders` at one price as written: when the price has an entry (an
      array, which is truthy) one snapshot entry is built from that entry's
      `id`, `pending_amount` and `queue_position`, and all three are undefined;
      otherwise there is none. */
  function UserOrdersAtAsWritten(ao: A.OrderBook, symbol: string, side: Side, price: Tick): (r: seq<SnapshotUserOrderAsWritten>)
    ensures |r| <= 1
    ensures r == [] <==> A.LevelOf(ao, symbol, side, price).None?
    ensures forall u :: u in r ==> u.id.None? && u.amount == A.Undefined && u.queuePosition == A.Undefined
  {
    match A.EntryAt(ao, symbol, side, price)
    case None => []
    case Some(order) => [SnapshotUserOrderAsWritten(A.IdProperty(order), A.PendingProperty(order), A.QueueProperty(order))]
  }

  /** Two orders resting at 100: the intended level lists both with their ids,
      the level as written one entry with every field undefined. */
  lemma UserOrdersLostAsWritten()
    ensures var o1 := A.ActiveOrder(7, 2.0, 5.0, 0.0, "BTCUSDT", Buy, 100);
            var o2 := A.ActiveOrder(8, 1.0, 7.0, 0.0, "BTCUSDT", Buy, 100);
            var ao := map["BTCUSDT" := A.TokenOrders(map[100 := [o1, o2]], map[])];
            && UserOrdersAt(ao, "BTCUSDT", Buy, 100) == [SnapshotUserOrder(7, 2.0, 5.0), SnapshotUserOrder(8, 1.0, 7.0)]
            && UserOrdersAtAsWritten(ao, "BTCUSDT", Buy, 100) == [SnapshotUserOrderAsWritten(None, A.Undefined, A.Undefined)]
  {
    var o1 := A.ActiveOrder(7, 2.0, 5.0, 0.0, "BTCUSDT", Buy, 100);
    var o2 := A.ActiveOrder(8, 1.0, 7.0, 0.0, "BTCUSDT", Buy, 100);
    var ao := map["BTCUSDT" := A.TokenOrders(map[100 := [o1, o2]], map[])];
    assert A.OrdersAt(ao, "BTCUSDT", Buy, 100) == [o1, o2];
  }

  /** One snapshot level: the market amount at the price (0 when absent) and
      the trader's orders there. */
  function LevelAt(book: D.TokenDepth, ao: A.OrderBook, symbol: string, side: Side, price: Tick): SnapshotLevel {
    var levels := book.Levels(side);
    SnapshotLevel(price, side, if price in levels then levels[price] else 0.0, UserOrdersAt(ao, symbol, side, price))
  }

  function SideLevels(book: D.TokenDepth, ao: A.OrderBook, symbol: string, side: Side, prices: seq<Tick>): (r: seq<SnapshotLevel>)
    ensures |r| == |prices|
  {
    seq(|prices|, i requires 0 <= i < |prices| => LevelAt(book, ao, symbol, side, prices[i]))
  }

  lemma SideLevelsStep(book: D.TokenDepth, ao: A.OrderBook, symbol: string, side: Side, prices: seq<Tick>, i: nat)
    requires i < |prices|
    ensures SideLevels(book, ao, symbol, side, prices[..i + 1]) ==
      SideLevels(book, ao, symbol, side, prices[..i]) + [LevelAt(book, ao, symbol, side, prices[i])]
  {
  }

  /** The loop of `buildLevels` that turns one side's selected prices into levels. */
  method BuildSideLevels(book: D.TokenDepth, ao: A.OrderBook, symbol: string, side: Side, prices: seq<Tick>) returns (built: seq<SnapshotLevel>)
    ensures built == SideLevels(book, ao, symbol, side, prices)
  {
    built := [];
    for i := 0 to |prices|
      invariant built == SideLevels(book, ao, symbol, side, prices[..i])
    {
      SideLevelsStep(book, ao, symbol, side, prices, i);
      built := built + [LevelAt(book, ao, symbol, side, prices[i])];
    }
    assert prices[..|prices|] == prices;
  }

  function LevelRank(l: SnapshotLevel): Rank {
    At(l.price)
  }

  function Take6<T>(s: seq<T>): seq<T> {
    if |s| <= 6 then s else s[..6]
  }

  function Min3(n: nat): nat {
    if n <= 3 then n else 3
  }

  /** The prices selected on one side of a token's book. */
  function Selection(book: D.TokenDepth, central: Option<Tick>, side: Side): seq<Tick> {
    SelectedPrices(SortedKeys(book.Levels(side).Keys), central, side)
  }

  /** min(3, n) prices of the side, the central one first when the book has it. */
  lemma SelectionShape(book: D.TokenDepth, central: Option<Tick>, side: Side)
    ensures var r := Selection(book, central, side);
      (forall x :: x in r ==> x in book.Levels(side)) &&
      |r| == Min3(|book.Levels(side)|) &&
      (central.Some? && central.value in book.Levels(side) ==> r[0] == central.value)
  {
    var prices := SortedKeys(book.Levels(side).Keys);
    SelectedPricesShape(prices, central, side);
    assert |book.Levels(side).Keys| == |book.Levels(side)|;
  }

  /** Every level built for listed prices carries the book's amount and the
      trader's orders at its price. */
  lemma SideLevelsFaithful(book: D.TokenDepth, ao: A.OrderBook, symbol: string, side: Side, prices: seq<Tick>)
    requires forall x :: x in prices ==> x in book.Levels(side)
    ensures forall l :: l in SideLevels(book, ao, symbol, side, prices) ==>
      l.side == side && l.price in book.Levels(side) &&
      l.marketAmount == book.Levels(side)[l.price] &&
      l.userOrders == UserOrdersAt(ao, symbol, side, l.price)
  {
    var r := SideLevels(book, ao, symbol, side, prices);
    forall l | l in r
      ensures l.side == side && l.price in book.Levels(side) &&
        l.marketAmount == book.Levels(side)[l.price] &&
        l.userOrders == UserOrdersAt(ao, symbol, side, l.price)
    {
      var k :| 0 <= k < |r| && r[k] == l;
      assert prices[k] in prices;
    }
  }

  /** The levels of both sides before sorting. */
  function UnsortedLevels(book: D.TokenDepth, e: C.CentralStateEntry, ao: A.OrderBook, symbol: string): seq<SnapshotLevel> {
    SideLevels(book, ao, symbol, Buy, Selection(book, e.centralBuyPrice, Buy)) +
    SideLevels(book, ao, symbol, Sell, Selection(book, e.centralSellPrice, Sell))
  }

  /** The levels `buildLevels` returns for `symbol`, given the depth store, the
      token's central entry and the active orders. */
  function LevelsOf(d: D.DepthLevels, e: C.CentralStateEntry, ao: A.OrderBook, symbol: string): (r: seq<SnapshotLevel>) {
    if symbol !in d then [] else Take6(SortBy(UnsortedLevels(d[symbol], e, ao, symbol), LevelRank))
  }

  /** A level as the snapshot shows it for a price of the book. */
  ghost predicate ShowsBook(book: D.TokenDepth, ao: A.OrderBook, symbol: string, l: SnapshotLevel) {
    l.price in book.Levels(l.side) &&
    l.marketAmount == book.Levels(l.side)[l.price] &&
    l.userOrders == UserOrdersAt(ao, symbol, l.side, l.price)
  }

  lemma UnsortedLevelsShape(book: D.TokenDepth, e: C.CentralStateEntry, ao: A.OrderBook, symbol: string)
    ensures var u := UnsortedLevels(book, e, ao, symbol);
      |u| == Min3(|book.buy|) + Min3(|book.sell|) &&
      (forall l :: l in u ==> ShowsBook(book, ao, symbol, l)) &&
      (e.centralBuyPrice.Some? && e.centralBuyPrice.value in book.buy ==>
        LevelAt(book, ao, symbol, Buy, e.centralBuyPrice.value) in u) &&
      (e.centralSellPrice.Some? && e.centralSellPrice.value in book.sell ==>
        LevelAt(book, ao, symbol, Sell, e.centralSellPrice.value) in u)
  {
    var sb := Selection(book, e.centralBuyPrice, Buy);
    var ss := Selection(book, e.centralSellPrice, Sell);
    SelectionShape(book, e.centralBuyPrice, Buy);
    SelectionShape(book, e.centralSellPrice, Sell);
    var bl := SideLevels(book, ao, symbol, Buy, sb);
    var sl := SideLevels(book, ao, symbol, Sell, ss);
    SideLevelsFaithful(book, ao, symbol, Buy, sb);
    SideLevelsFaithful(book, ao, symbol, Sell, ss);
    var u := bl + sl;
    forall l | l in u ensures ShowsBook(book, ao, symbol, l) {
      if l in bl {
      } else {
        assert l in sl;
      }
    }
    if e.centralBuyPrice.Some? && e.centralBuyPrice.value in book.buy {
      assert u[0] == bl[0];
    }
    if e.centralSellPrice.Some? && e.centralSellPrice.value in book.sell {
      assert u[|bl|] == sl[0];
    }
  }

  /** The snapshot shows min(3, n) levels of each side in ascending price order;
      each level is a price of that side with the book's amount and the trader's
      orders at that price; each central price in the book is among them. */
  lemma LevelsShape(d: D.DepthLevels, e: C.CentralStateEntry, ao: A.OrderBook, symbol: string)
    ensures symbol !in d ==> LevelsOf(d, e, ao, symbol) == []
    ensures symbol in d ==>
      var book := d[symbol];
      var r := LevelsOf(d, e, ao, symbol);
      |r| == Min3(|book.buy|) + Min3(|book.sell|) &&
      SortedBy(r, LevelRank) &&
      (forall l :: l in r ==> ShowsBook(book, ao, symbol, l)) &&
      (e.centralBuyPrice.Some? && e.centralBuyPrice.value in book.buy ==>
        SnapshotLevel(e.centralBuyPrice.value, Buy, book.buy[e.centralBuyPrice.value], UserOrdersAt(ao, symbol, Buy, e.centralBuyPrice.value)) in r) &&
      (e.centralSellPrice.Some? && e.centralSellPrice.value in book.sell ==>
        SnapshotLevel(e.centralSellPrice.value, Sell, book.sell[e.centralSellPrice.value], UserOrdersAt(ao, symbol, Sell, e.centralSellPrice.value)) in r)
  {
    if symbol in d {
      var book := d[symbol];
      var u := UnsortedLevels(book, e, ao, symbol);
      UnsortedLevelsShape(book, e, ao, symbol);
      var r := SortBy(u, LevelRank);
      SortBySorted(u, LevelRank);
      assert LevelsOf(d, e, ao, symbol) == r;
      forall l | l in r ensures ShowsBook(book, ao, symbol, l) {
        assert l in multiset(u);
      }
      if e.centralBuyPrice.Some? && e.centralBuyPrice.value in book.buy {
        assert LevelAt(book, ao, symbol, Buy, e.centralBuyPrice.value) in multiset(r);
      }
      if e.centralSellPrice.Some? && e.centralSellPrice.value in book.sell {
        assert LevelAt(book, ao, symbol, Sell, e.centralSellPrice.value) in multiset(r);
      }
    }
  }

  // ---------------------------------------------------------------- probability row

  /** When the row is produced for a book and two central prices: both prices
      are in the book, a bid lies below the central BUY price, an ask above the
      central SELL price, and the two central amounts have a positive sum. */
  ghost predicate RowDefinedFor(book: D.TokenDepth, cb: Tick, cs: Tick) {
    cb in book.buy && cs in book.sell &&
    (exists x :: x in book.buy && x < cb) &&
    (exists x :: x in book.sell && x > cs) &&
    book.buy[cb] + book.sell[cs] > 0.0
  }

  ghost predicate RowDefined(d: D.DepthLevels, e: C.CentralStateEntry, symbol: string) {
    symbol in d && e.centralBuyPrice.Some? && e.centralSellPrice.Some? &&
    RowDefinedFor(d[symbol], e.centralBuyPrice.value, e.centralSellPrice.value)
  }

  /** `buildProbabilityRow` once the token's book, its ascending bid and ask
      prices and both central prices are known. */
  function RowFromPrices(book: D.TokenDepth, buyPrices: seq<Tick>, sellPrices: seq<Tick>, cb: Tick, cs: Tick): seq<ProbabilityEntry> {
    var buyIdx := IndexOf(buyPrices, cb);
    var sellIdx := IndexOf(sellPrices, cs);
    if buyIdx.None? || buyIdx.value == 0 then []
    else if sellIdx.None? || sellIdx.value >= |sellPrices| - 1 then []
    else
      var amountBuy := if cb in book.buy then book.buy[cb] else 0.0;
      var amountSell := if cs in book.sell then book.sell[cs] else 0.0;
      ShareRow(buyPrices[buyIdx.value - 1], sellPrices[sellIdx.value + 1], cb, cs, amountBuy, amountSell)
  }

  /** The four entries once the neighbouring prices are known: each side's
      share of the two central amounts, or nothing when they sum to 0. */
  function ShareRow(bidBelow: Tick, askAbove: Tick, cb: Tick, cs: Tick, amountBuy: real, amountSell: real): seq<ProbabilityEntry> {
    var total := amountBuy + amountSell;
    if total <= 0.0 then []
    else
      [ProbabilityEntry(bidBelow, Buy, amountBuy / total),
       ProbabilityEntry(cs, Buy, amountSell / total),
       ProbabilityEntry(cb, Sell, amountBuy / total),
       ProbabilityEntry(askAbove, Sell, amountSell / total)]
  }

  /** A positive total gives the four entries. */
  lemma ShareRowPositive(bidBelow: Tick, askAbove: Tick, cb: Tick, cs: Tick, amountBuy: real, amountSell: real, total: real)
    requires total == amountBuy + amountSell && total > 0.0
    ensures ShareRow(bidBelow, askAbove, cb, cs, amountBuy, amountSell) ==
      [ProbabilityEntry(bidBelow, Buy, amountBuy / total),
       ProbabilityEntry(cs, Buy, amountSell / total),
       ProbabilityEntry(cb, Sell, amountBuy / total),
       ProbabilityEntry(askAbove, Sell, amountSell / total)]
  {
  }

  /** The row on the path where both neighbouring prices exist. */
  lemma RowFromPricesFound(book: D.TokenDepth, buyPrices: seq<Tick>, sellPrices: seq<Tick>, cb: Tick, cs: Tick, bi: nat, si: nat)
    requires IndexOf(buyPrices, cb) == Some(bi) && 0 < bi
    requires IndexOf(sellPrices, cs) == Some(si) && si < |sellPrices| - 1
    ensures RowFromPrices(book, buyPrices, sellPrices, cb, cs) ==
      ShareRow(buyPrices[bi - 1], sellPrices[si + 1], cb, cs,
        if cb in book.buy then book.buy[cb] else 0.0, if cs in book.sell then book.sell[cs] else 0.0)
  {
  }

  function RowFor(book: D.TokenDepth, cb: Tick, cs: Tick): seq<ProbabilityEntry> {
    RowFromPrices(book, SortedKeys(book.buy.Keys), SortedKeys(book.sell.Keys), cb, cs)
  }

  /** `buildProbabilityRow` for `symbol`. */
  function ProbabilityRow(d: D.DepthLevels, e: C.CentralStateEntry, symbol: string): (r: seq<ProbabilityEntry>) {
    if symbol !in d || e.centralBuyPrice.None? || e.centralSellPrice.None? then []
    else RowFor(d[symbol], e.centralBuyPrice.value, e.centralSellPrice.value)
  }

  /** The two lists are the book's bid and ask prices in ascending order. */
  ghost predicate ListsBook(book: D.TokenDepth, buyPrices: seq<Tick>, sellPrices: seq<Tick>) {
    StrictlyAscending(buyPrices) && StrictlyAscending(sellPrices) &&
    (forall x :: x in buyPrices <==> x in book.buy) &&
    (forall x :: x in sellPrices <==> x in book.sell)
  }

  lemma RowFromPricesNonEmpty(book: D.TokenDepth, buyPrices: seq<Tick>, sellPrices: seq<Tick>, cb: Tick, cs: Tick)
    requires ListsBook(book, buyPrices, sellPrices)
    ensures RowFromPrices(book, buyPrices, sellPrices, cb, cs) != [] <==> RowDefinedFor(book, cb, cs)
  {
    var buyIdx := IndexOf(buyPrices, cb);
    var sellIdx := IndexOf(sellPrices, cs);
    if RowDefinedFor(book, cb, cs) {
      var lo :| lo in book.buy && lo < cb;
      var i :| 0 <= i < |buyPrices| && buyPrices[i] == lo;
      assert i < buyIdx.value;
      var hi :| hi in book.sell && hi > cs;
      var j :| 0 <= j < |sellPrices| && sellPrices[j] == hi;
      assert sellIdx.value < j;
    }
    if buyIdx.Some? && buyIdx.value > 0 && sellIdx.Some? && sellIdx.value < |sellPrices| - 1 {
      assert buyPrices[buyIdx.value - 1] in book.buy && buyPrices[buyIdx.value - 1] < cb;
      assert sellPrices[sellIdx.value + 1] in book.sell && sellPrices[sellIdx.value + 1] > cs;
    }
  }

  lemma RowFromPricesEntries(book: D.TokenDepth, buyPrices: seq<Tick>, sellPrices: seq<Tick>, cb: Tick, cs: Tick)
    requires ListsBook(book, buyPrices, sellPrices)
    requires RowFromPrices(book, buyPrices, sellPrices, cb, cs) != []
    ensures cb in book.buy && cs in book.sell
    ensures var r := RowFromPrices(book, buyPrices, sellPrices, cb, cs);
      var total := book.buy[cb] + book.sell[cs];
      |r| == 4 &&
      r[0].side == Buy && r[0].price in book.buy && r[0].price < cb &&
      (forall x :: x in book.buy && x < cb ==> x <= r[0].price) &&
      r[1] == ProbabilityEntry(cs, Buy, book.sell[cs] / total) &&
      r[2] == ProbabilityEntry(cb, Sell, book.buy[cb] / total) &&
      r[3].side == Sell && r[3].price in book.sell && r[3].price > cs &&
      (forall x :: x in book.sell && x > cs ==> r[3].price <= x) &&
      r[0].prob == r[2].prob && r[1].prob == r[3].prob &&
      r[0].prob + r[1].prob == 1.0
  {
    var bi := IndexOf(buyPrices, cb).value;
    var si := IndexOf(sellPrices, cs).value;
    PredecessorIsLargestBelow(buyPrices, bi);
    SuccessorIsSmallestAbove(sellPrices, si);
    assert buyPrices[bi - 1] in book.buy;
    assert sellPrices[si + 1] in book.sell;
    SharesOfTotal(book.buy[cb], book.sell[cs]);
  }

  /** The row is produced exactly when `RowDefinedFor` holds. */
  lemma RowForNonEmpty(book: D.TokenDepth, cb: Tick, cs: Tick)
    ensures RowFor(book, cb, cs) != [] <==> RowDefinedFor(book, cb, cs)
  {
    RowFromPricesNonEmpty(book, SortedKeys(book.buy.Keys), SortedKeys(book.sell.Keys), cb, cs);
  }

  /** A produced row names the nearest bid below the central BUY price, the
      central SELL price, the central BUY price and the nearest ask above the
      central SELL price; "up" is the BUY central amount's share of the two
      central amounts and "down" the SELL share, so they sum to 1. */
  lemma RowForEntries(book: D.TokenDepth, cb: Tick, cs: Tick)
    requires RowFor(book, cb, cs) != []
    ensures cb in book.buy && cs in book.sell
    ensures var r := RowFor(book, cb, cs);
      var total := book.buy[cb] + book.sell[cs];
      |r| == 4 &&
      r[0].side == Buy && r[0].price in book.buy && r[0].price < cb &&
      (forall x :: x in book.buy && x < cb ==> x <= r[0].price) &&
      r[1] == ProbabilityEntry(cs, Buy, book.sell[cs] / total) &&
      r[2] == ProbabilityEntry(cb, Sell, book.buy[cb] / total) &&
      r[3].side == Sell && r[3].price in book.sell && r[3].price > cs &&
      (forall x :: x in book.sell && x > cs ==> r[3].price <= x) &&
      r[0].prob == r[2].prob && r[1].prob == r[3].prob &&
      r[0].prob + r[1].prob == 1.0
  {
    RowFromPricesEntries(book, SortedKeys(book.buy.Keys), SortedKeys(book.sell.Keys), cb, cs);
  }

  /** `buildProbabilityRow` yields a row exactly when `RowDefined` holds. */
  lemma ProbabilityRowMeaning(d: D.DepthLevels, e: C.CentralStateEntry, symbol: string)
    ensures ProbabilityRow(d, e, symbol) != [] <==> RowDefined(d, e, symbol)
    ensures ProbabilityRow(d, e, symbol) != [] ==>
      ProbabilityRow(d, e, symbol) == RowFor(d[symbol], e.centralBuyPrice.value, e.centralSellPrice.value)
  {
    if symbol in d && e.centralBuyPrice.Some? && e.centralSellPrice.Some? {
      RowForNonEmpty(d[symbol], e.centralBuyPrice.value, e.centralSellPrice.value);
    }
  }

  /** `TokenSnapshot` for `symbol` in terms of the three stores. */
  function TokenSnapshotOf(d: D.DepthLevels, c: map<string, C.CentralStateEntry>, ao: A.OrderBook, symbol: string): (r: TokenSnapshot) {
    var e := C.EntryOf(c, symbol);
    TokenSnapshot(LevelsOf(d, e, ao, symbol), ProbabilityRow(d, e, symbol), e)
  }

  /** The body of `buildProbabilityRow` once the depth and the central entry
      of the token have been read. */
  method RowOfState(depthAll: D.DepthLevels, central: C.CentralStateEntry, symbol: string) returns (row: seq<ProbabilityEntry>)
    requires symbol in depthAll
    ensures row == ProbabilityRow(depthAll, central, symbol)
  {
    var tokenDepth := depthAll[symbol];
    ghost var goal := ProbabilityRow(depthAll, central, symbol);
    if central.centralBuyPrice.None? || central.centralSellPrice.None? {
      return [];
    }
    var cb := central.centralBuyPrice.value;
    var cs := central.centralSellPrice.value;
    var buyPrices := SortedKeys(tokenDepth.buy.Keys);
    var sellPrices := SortedKeys(tokenDepth.sell.Keys);
    assert goal == RowFromPrices(tokenDepth, buyPrices, sellPrices, cb, cs);
    var buyIdx := IndexOf(buyPrices, cb);
    var sellIdx := IndexOf(sellPrices, cs);
    if buyIdx.None? || buyIdx.value == 0 {
      return [];
    }
    if sellIdx.None? || sellIdx.value >= |sellPrices| - 1 {
      return [];
    }
    var amountBuy := if cb in tokenDepth.buy then tokenDepth.buy[cb] else 0.0;
    var amountSell := if cs in tokenDepth.sell then tokenDepth.sell[cs] else 0.0;
    RowFromPricesFound(tokenDepth, buyPrices, sellPrices, cb, cs, buyIdx.value, sellIdx.value);
    var total := amountBuy + amountSell;
    if total <= 0.0 {
      return [];
    }
    var probUp := amountBuy / total;
    var probDown := amountSell / total;
    ShareRowPositive(buyPrices[buyIdx.value - 1], sellPrices[sellIdx.value + 1], cb, cs, amountBuy, amountSell, total);
    row := [
      ProbabilityEntry(buyPrices[buyIdx.value - 1], Buy, probUp),
      ProbabilityEntry(cs, Buy, probDown),
      ProbabilityEntry(cb, Sell, probUp),
      ProbabilityEntry(sellPrices[sellIdx.value + 1], Sell, probDown)];
  }

  /** Reading a token's entry again after `get` created it finds the same entry. */
  lemma GetAgain(m: map<string, C.CentralStateEntry>, symbol: string)
    ensures C.EntryOf(m[symbol := C.EntryOf(m, symbol)], symbol) == C.EntryOf(m, symbol)
    ensures m[symbol := C.EntryOf(m, symbol)][symbol := C.EntryOf(m, symbol)] == m[symbol := C.EntryOf(m, symbol)]
  {
  }

  /** The `SnapshotBuilder` service; it only reads the stores, except that
      `CentralState.get` creates a default entry for a token without one. */
  class SnapshotBuilder {
    const depthState: D.DepthState
    const centralState: C.CentralState
    const activeOrders: A.ActiveOrdersState

    constructor(depthState: D.DepthState, centralState: C.CentralState, activeOrders: A.ActiveOrdersState)
      ensures this.depthState == depthState && this.centralState == centralState && this.activeOrders == activeOrders
    {
      this.depthState := depthState;
      this.centralState := centralState;
      this.activeOrders := activeOrders;
    }

    method BuildLevels(symbol: string) returns (levels: seq<SnapshotLevel>)
      modifies centralState
      ensures levels == LevelsOf(depthState.depthLevels, C.EntryOf(old(centralState.centralState), symbol), activeOrders.activeOrders, symbol)
      ensures centralState.centralState ==
        if symbol in depthState.depthLevels then old(centralState.centralState)[symbol := C.EntryOf(old(centralState.centralState), symbol)]
        else old(centralState.centralState)
    {
      var depthAll := depthState.GetAll();
      if symbol !in depthAll {
        return [];
      }
      var tokenDepth := depthAll[symbol];
      var central := centralState.Get(symbol);
      var buyPrices := SortedKeys(tokenDepth.buy.Keys);
      var sellPrices := SortedKeys(tokenDepth.sell.Keys);
      var selectedBuy := SelectSide(buyPrices, central.centralBuyPrice, Buy);
      var selectedSell := SelectSide(sellPrices, central.centralSellPrice, Sell);
      assert selectedBuy == Selection(tokenDepth, central.centralBuyPrice, Buy);
      assert selectedSell == Selection(tokenDepth, central.centralSellPrice, Sell);
      var ao := activeOrders.GetAll();
      var buyLevels := BuildSideLevels(tokenDepth, ao, symbol, Buy, selectedBuy);
      var sellLevels := BuildSideLevels(tokenDepth, ao, symbol, Sell, selectedSell);
      var built := buyLevels + sellLevels;
      assert built == UnsortedLevels(tokenDepth, central, ao, symbol);
      levels := Take6(SortBy(built, LevelRank));
    }

    method BuildProbabilityRow(symbol: string) returns (row: seq<ProbabilityEntry>)
      modifies centralState
      ensures row == ProbabilityRow(depthState.depthLevels, C.EntryOf(old(centralState.centralState), symbol), symbol)
      ensures centralState.centralState ==
        if symbol in depthState.depthLevels then old(centralState.centralState)[symbol := C.EntryOf(old(centralState.centralState), symbol)]
        else old(centralState.centralState)
    {
      var depthAll := depthState.GetAll();
      if symbol !in depthAll {
        return [];
      }
      var central := centralState.Get(symbol);
      row := RowOfState(depthAll, central, symbol);
    }

    method BuildTokenSnapshot(symbol: string) returns (snap: TokenSnapshot)
      modifies centralState
      ensures snap == TokenSnapshotOf(depthState.depthLevels, old(centralState.centralState), activeOrders.activeOrders, symbol)
      ensures centralState.centralState == old(centralState.centralState)[symbol := C.EntryOf(old(centralState.centralState), symbol)]
    {
      ghost var c0 := centralState.centralState;
      ghost var e := C.EntryOf(c0, symbol);
      ghost var c1 := c0[symbol := e];
      GetAgain(c0, symbol);
      var levels := BuildLevels(symbol);
      assert centralState.centralState == c0 || centralState.centralState == c1;
      var probabilityRow := BuildProbabilityRow(symbol);
      assert centralState.centralState == c0 || centralState.centralState == c1;
      var central := centralState.Get(symbol);
      assert central == e && centralState.centralState == c1;
      snap := TokenSnapshot(levels, probabilityRow, central);
    }

    /** One snapshot per token that has active orders; the central store gains a
        default entry for each of those tokens that had none. */
    method BuildFullSnapshot() returns (result: map<string, TokenSnapshot>)
      modifies centralState
      ensures result.Keys == activeOrders.activeOrders.Keys
      ensures forall t :: t in result ==> result[t] == TokenSnapshotOf(depthState.depthLevels, old(centralState.centralState), activeOrders.activeOrders, t)
      ensures centralState.centralState.Keys == old(centralState.centralState).Keys + activeOrders.activeOrders.Keys
      ensures forall t :: C.EntryOf(centralState.centralState, t) == C.EntryOf(old(centralState.centralState), t)
    {
      result := map[];
      var tokens := activeOrders.GetAll().Keys;
      while tokens != {}
        invariant tokens <= activeOrders.activeOrders.Keys
        invariant result.Keys == activeOrders.activeOrders.Keys - tokens
        invariant forall t :: t in result ==> result[t] == TokenSnapshotOf(depthState.depthLevels, old(centralState.centralState), activeOrders.activeOrders, t)
        invariant centralState.centralState.Keys == old(centralState.centralState).Keys + (activeOrders.activeOrders.Keys - tokens)
        invariant forall t :: C.EntryOf(centralState.centralState, t) == C.EntryOf(old(centralState.centralState), t)
        decreases tokens
      {
        ghost var sample := PickMember(tokens);
        var symbol :| symbol in tokens;
        ghost var before := centralState.centralState;
        var snap := BuildTokenSnapshot(symbol);
        assert TokenSnapshotOf(depthState.depthLevels, before, activeOrders.activeOrders, symbol) ==
          TokenSnapshotOf(depthState.depthLevels, old(centralState.centralState), activeOrders.activeOrders, symbol);
        result := result[symbol := snap];
        tokens := tokens - {symbol};
      }
    }
  }
}
