/** The per-token order book (`DepthState`): for each token, a map from price to
    resting quantity for the BUY side and for the SELL side. A quantity of zero
    written through `setLevel` removes the price. */
module DepthStore {
  import opened Wrappers
  import opened Market

  /** One token's book. */
  datatype TokenDepth = TokenDepth(buy: map<Tick, real>, sell: map<Tick, real>) {
    function Levels(side: Side): map<Tick, real> {
      if side == Buy then buy else sell
    }

    function WithLevels(side: Side, m: map<Tick, real>): (r: TokenDepth)
      ensures r.Levels(side) == m
      ensures forall other :: other != side ==> r.Levels(other) == Levels(other)
    {
      if side == Buy then TokenDepth(m, sell) else TokenDepth(buy, m)
    }
  }

  const EmptyDepth := TokenDepth(map[], map[])

  /** The whole store: token -> book. */
  type DepthLevels = map<string, TokenDepth>

  /** `getLevel`: the stored amount, or `None` (the source's `null`) when the
      token, the side entry or the price is absent. */
  function LevelIn(d: DepthLevels, token: string, side: Side, price: Tick): (r: Option<real>)
    ensures r.Some? <==> token in d && price in d[token].Levels(side)
    ensures r.Some? ==> r.value == d[token].Levels(side)[price]
  {
    if token in d && price in d[token].Levels(side) then Some(d[token].Levels(side)[price]) else None
  }

  /** `ensureToken`: the token's book, or a fresh empty one. */
  function BookOf(d: DepthLevels, token: string): (b: TokenDepth)
    ensures token in d ==> b == d[token]
    ensures token !in d ==> b == EmptyDepth
  {
    if token in d then d[token] else EmptyDepth
  }

  /** The store after `setLevel(token, side, price, amount)`. */
  function SetLevelIn(d: DepthLevels, token: string, side: Side, price: Tick, amount: real): (r: DepthLevels)
    ensures r.Keys == d.Keys + {token}
    ensures LevelIn(r, token, side, price) == if amount == 0.0 then None else Some(amount)
    ensures forall t, s, p :: (t != token || s != side || p != price) ==> LevelIn(r, t, s, p) == LevelIn(d, t, s, p)
  {
    var book := BookOf(d, token);
    var levels := book.Levels(side);
    if amount == 0.0 then d[token := book.WithLevels(side, levels - {price})]
    else d[token := book.WithLevels(side, levels[price := amount])]
  }

  /** The store after `deleteLevel`: the key goes only when its stored amount is
      truthy, i.e. present and non-zero; a stored zero survives. */
  function DeleteLevelIn(d: DepthLevels, token: string, side: Side, price: Tick): (r: DepthLevels)
    ensures r.Keys == d.Keys
    ensures var v := LevelIn(d, token, side, price);
      if v.Some? && v.value != 0.0 then LevelIn(r, token, side, price).None? else r == d
    ensures forall t, s, p :: (t != token || s != side || p != price) ==> LevelIn(r, t, s, p) == LevelIn(d, t, s, p)
  {
    if token in d && price in d[token].Levels(side) && d[token].Levels(side)[price] != 0.0 then
      d[token := d[token].WithLevels(side, d[token].Levels(side) - {price})]
    else d
  }

  /** The store after `clearToken`: that token's entry is gone, every other entry is kept. */
  function ClearTokenIn(d: DepthLevels, token: string): (r: DepthLevels)
    ensures r.Keys == d.Keys - {token}
    ensures forall t :: t in r ==> r[t] == d[t]
  {
    d - {token}
  }

  /** The store after `resetToken`: both sides of the token empty, the rest kept. */
  function ResetTokenIn(d: DepthLevels, token: string): (r: DepthLevels)
    ensures r.Keys == d.Keys + {token}
    ensures forall s, p :: LevelIn(r, token, s, p).None?
    ensures forall t :: t in d && t != token ==> r[t] == d[t]
  {
    d[token := EmptyDepth]
  }

  /** The store after `setSnapshot`: the token's sides are exactly the given maps. */
  function SetSnapshotIn(d: DepthLevels, token: string, buy: map<Tick, real>, sell: map<Tick, real>): (r: DepthLevels)
    ensures r.Keys == d.Keys + {token}
    ensures forall p :: LevelIn(r, token, Buy, p) == (if p in buy then Some(buy[p]) else None)
    ensures forall p :: LevelIn(r, token, Sell, p) == (if p in sell then Some(sell[p]) else None)
    ensures forall t :: t in d && t != token ==> r[t] == d[t]
  {
    d[token := TokenDepth(buy, sell)]
  }

  /** No stored amount is zero. */
  ghost predicate NoZeroAmounts(d: DepthLevels) {
    forall t, s, p :: LevelIn(d, t, s, p) != Some(0.0)
  }

  /** Writes through `setLevel` never store a zero amount. */
  lemma SetLevelKeepsNoZero(d: DepthLevels, token: string, side: Side, price: Tick, amount: real)
    requires NoZeroAmounts(d)
    ensures NoZeroAmounts(SetLevelIn(d, token, side, price, amount))
  {
    var r := SetLevelIn(d, token, side, price, amount);
    forall t, s, p ensures LevelIn(r, t, s, p) != Some(0.0) {
      if t != token || s != side || p != price {
        assert LevelIn(r, t, s, p) == LevelIn(d, t, s, p);
      }
    }
  }

  /** `deleteLevel`, `clearToken` and `resetToken` keep the store free of zero amounts. */
  lemma RemovalsKeepNoZero(d: DepthLevels, token: string, side: Side, price: Tick)
    requires NoZeroAmounts(d)
    ensures NoZeroAmounts(DeleteLevelIn(d, token, side, price))
    ensures NoZeroAmounts(ClearTokenIn(d, token))
    ensures NoZeroAmounts(ResetTokenIn(d, token))
  {
    var c := ClearTokenIn(d, token);
    forall t, s, p ensures LevelIn(c, t, s, p) != Some(0.0) {
      assert LevelIn(d, t, s, p) != Some(0.0);
    }
    var z := ResetTokenIn(d, token);
    forall t, s, p ensures LevelIn(z, t, s, p) != Some(0.0) {
      assert LevelIn(d, t, s, p) != Some(0.0);
    }
  }

  /** Setting an amount of zero on an absent price changes nothing. */
  lemma ZeroOnAbsentPriceIsNoOp(d: DepthLevels, token: string, side: Side, price: Tick)
    requires token in d
    requires LevelIn(d, token, side, price).None?
    ensures SetLevelIn(d, token, side, price, 0.0) == d
  {
    var b := d[token];
    assert b.Levels(side) - {price} == b.Levels(side);
    assert b.WithLevels(side, b.Levels(side)) == b;
    assert d[token := b] == d;
  }

  /** The in-memory `DepthState` service. */
  class DepthState {
    var depthLevels: DepthLevels

    constructor()
      ensures depthLevels == map[]
    {
      depthLevels := map[];
    }

    function GetAll(): DepthLevels
      reads this
    {
      depthLevels
    }

    method EnsureToken(token: string)
      modifies this
      ensures depthLevels == old(depthLevels)[token := BookOf(old(depthLevels), token)]
    {
      if token !in depthLevels {
        depthLevels := depthLevels[token := EmptyDepth];
      }
    }

    method SetLevel(token: string, side: Side, price: Tick, amount: real)
      modifies this
      ensures depthLevels == SetLevelIn(old(depthLevels), token, side, price, amount)
    {
      EnsureToken(token);
      var book := depthLevels[token];
      if amount == 0.0 {
        depthLevels := depthLevels[token := book.WithLevels(side, book.Levels(side) - {price})];
        return;
      }
      depthLevels := depthLevels[token := book.WithLevels(side, book.Levels(side)[price := amount])];
    }

    function GetLevel(token: string, side: Side, price: Tick): Option<real>
      reads this
    {
      LevelIn(depthLevels, token, side, price)
    }

    method DeleteLevel(token: string, side: Side, price: Tick)
      modifies this
      ensures depthLevels == DeleteLevelIn(old(depthLevels), token, side, price)
    {
      var level := GetLevel(token, side, price);
      if level.Some? && level.value != 0.0 {
        var book := depthLevels[token];
        depthLevels := depthLevels[token := book.WithLevels(side, book.Levels(side) - {price})];
      }
    }

    method ClearToken(token: string)
      modifies this
      ensures depthLevels == ClearTokenIn(old(depthLevels), token)
    {
      if token in depthLevels {
        depthLevels := depthLevels - {token};
      }
    }

    method ClearAll()
      modifies this
      ensures depthLevels == map[]
    {
      depthLevels := map[];
    }

    method ResetToken(token: string)
      modifies this
      ensures depthLevels == ResetTokenIn(old(depthLevels), token)
    {
      depthLevels := depthLevels[token := EmptyDepth];
    }

    method SetSnapshot(token: string, buy: map<Tick, real>, sell: map<Tick, real>)
      modifies this
      ensures depthLevels == SetSnapshotIn(old(depthLevels), token, buy, sell)
    {
      depthLevels := depthLevels[token := TokenDepth(buy, sell)];
    }
  }
}
