/** `computeCollision`: the best bid against the best ask of one token's book and
    the share of the combined top-of-book depth on each side. The source only
    logs these four values; the model returns them. */
module Collision {
  import opened Wrappers
  import opened Market
  import opened DepthStore

  datatype CollisionPoint = CollisionPoint(
    bidPrice: Tick, bidDepth: real,
    askPrice: Tick, askDepth: real,
    topBid: real, topAsk: real)

  /** `depthState` is `None` when the depth store was never initialised. The result
      is `None` exactly when the store or the token's book is missing, a side has
      no levels, or the two top depths add up to zero. */
  function ComputeCollision(depthState: Option<DepthLevels>, symbol: string): (r: Option<CollisionPoint>)
    ensures r.None? <==>
      depthState.None? || symbol !in depthState.value
      || |depthState.value[symbol].buy| == 0 || |depthState.value[symbol].sell| == 0
      || depthState.value[symbol].buy[MaxOf(depthState.value[symbol].buy.Keys)]
         + depthState.value[symbol].sell[MinOf(depthState.value[symbol].sell.Keys)] == 0.0
    ensures r.Some? ==>
      var book := depthState.value[symbol];
      && r.value.bidPrice in book.buy && r.value.bidDepth == book.buy[r.value.bidPrice]
      && r.value.askPrice in book.sell && r.value.askDepth == book.sell[r.value.askPrice]
      && (forall p :: p in book.buy ==> p <= r.value.bidPrice)
      && (forall p :: p in book.sell ==> r.value.askPrice <= p)
      && r.value.topBid * (r.value.bidDepth + r.value.askDepth) == r.value.bidDepth
      && r.value.topAsk * (r.value.bidDepth + r.value.askDepth) == r.value.askDepth
  {
    if depthState.None? then None
    else if symbol !in depthState.value then None
    else
      var book := depthState.value[symbol];
      if |book.buy| == 0 || |book.sell| == 0 then None
      else
        var bidPrice := MaxOf(book.buy.Keys);
        var askPrice := MinOf(book.sell.Keys);
        var bidDepth := book.buy[bidPrice];
        var askDepth := book.sell[askPrice];
        var depthSum := bidDepth + askDepth;
        if depthSum == 0.0 then None
        else Some(CollisionPoint(bidPrice, bidDepth, askPrice, askDepth, bidDepth / depthSum, askDepth / depthSum))
  }

  /** The two shares always add up to one. */
  lemma SharesSumToOne(depthState: Option<DepthLevels>, symbol: string)
    requires ComputeCollision(depthState, symbol).Some?
    ensures var c := ComputeCollision(depthState, symbol).value; c.topBid + c.topAsk == 1.0
  {
    var c := ComputeCollision(depthState, symbol).value;
    var book := depthState.value[symbol];
    var s := book.buy[MaxOf(book.buy.Keys)] + book.sell[MinOf(book.sell.Keys)];
    assert s != 0.0;
    assert c.topBid == c.bidDepth / s && c.topAsk == c.askDepth / s;
    assert c.bidDepth / s + c.askDepth / s == (c.bidDepth + c.askDepth) / s;
  }

  /** With non-negative depths each share is a proportion between 0 and 1. */
  lemma SharesAreProportions(depthState: Option<DepthLevels>, symbol: string)
    requires ComputeCollision(depthState, symbol).Some?
    requires forall p :: p in depthState.value[symbol].buy ==> depthState.value[symbol].buy[p] >= 0.0
    requires forall p :: p in depthState.value[symbol].sell ==> depthState.value[symbol].sell[p] >= 0.0
    ensures var c := ComputeCollision(depthState, symbol).value;
            0.0 <= c.topBid <= 1.0 && 0.0 <= c.topAsk <= 1.0
  {
    var c := ComputeCollision(depthState, symbol).value;
    SharesSumToOne(depthState, symbol);
    var book := depthState.value[symbol];
    var s := book.buy[MaxOf(book.buy.Keys)] + book.sell[MinOf(book.sell.Keys)];
    assert s > 0.0;
    assert c.topBid == c.bidDepth / s && c.topAsk == c.askDepth / s;
  }
}
