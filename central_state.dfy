/** Best bid / best ask tracking (`CentralState`): per token, the central BUY and
    SELL prices, a counter of executed volume per side that restarts whenever that
    side's central price changes, the last notified depth levels and the depths at
    the central prices. */
module CentralStore {
  import opened Wrappers
  import opened Market

  datatype CentralStateEntry = CentralStateEntry(
    centralBuyPrice: Option<Tick>,
    executedSinceBuyPriceChange: real,
    centralSellPrice: Option<Tick>,
    executedSinceSellPriceChange: real,
    buyCurrentLevel: Option<int>,
    sellCurrentLevel: Option<int>,
    centralBuyDepth: Option<real>,
    centralSellDepth: Option<real>)
  {
    function Price(side: Side): Option<Tick> {
      if side == Buy then centralBuyPrice else centralSellPrice
    }

    function Executed(side: Side): real {
      if side == Buy then executedSinceBuyPriceChange else executedSinceSellPriceChange
    }
  }

  /** The entry `ensureToken` creates: no prices, levels or depths, both counters 0. */
  const DefaultEntry := CentralStateEntry(None, 0.0, None, 0.0, None, None, None, None)

  /** `updateCentralBuyPrice` / `updateCentralSellPrice` on one entry: a different
      price is stored and restarts that side's counter; the same price changes nothing. */
  function UpdateCentralPrice(e: CentralStateEntry, side: Side, newPrice: Tick): (r: CentralStateEntry)
    ensures r.Price(side) == Some(newPrice)
    ensures r.Executed(side) == if e.Price(side) == Some(newPrice) then e.Executed(side) else 0.0
    ensures e.Price(side) == Some(newPrice) ==> r == e
    ensures forall other :: other != side ==> r.Price(other) == e.Price(other) && r.Executed(other) == e.Executed(other)
    ensures r.buyCurrentLevel == e.buyCurrentLevel && r.sellCurrentLevel == e.sellCurrentLevel
    ensures r.centralBuyDepth == e.centralBuyDepth && r.centralSellDepth == e.centralSellDepth
  {
    if e.Price(side) == Some(newPrice) then e
    else if side == Buy then e.(centralBuyPrice := Some(newPrice), executedSinceBuyPriceChange := 0.0)
    else e.(centralSellPrice := Some(newPrice), executedSinceSellPriceChange := 0.0)
  }

  /** `addExecutedBuy` / `addExecutedSell` on one entry: only that side's counter grows. */
  function AddExecuted(e: CentralStateEntry, side: Side, executed: real): (r: CentralStateEntry)
    ensures r.Executed(side) == e.Executed(side) + executed
    ensures forall s :: r.Price(s) == e.Price(s)
    ensures forall other :: other != side ==> r.Executed(other) == e.Executed(other)
    ensures r.buyCurrentLevel == e.buyCurrentLevel && r.sellCurrentLevel == e.sellCurrentLevel
    ensures r.centralBuyDepth == e.centralBuyDepth && r.centralSellDepth == e.centralSellDepth
  {
    if side == Buy then e.(executedSinceBuyPriceChange := e.executedSinceBuyPriceChange + executed)
    else e.(executedSinceSellPriceChange := e.executedSinceSellPriceChange + executed)
  }

  /** The entry of a token, or the default one `get` would create. */
  function EntryOf(m: map<string, CentralStateEntry>, token: string): (e: CentralStateEntry)
    ensures token in m ==> e == m[token]
    ensures token !in m ==> e == DefaultEntry
  {
    if token in m then m[token] else DefaultEntry
  }

  /** One call on a token's entry, for reasoning about call sequences. */
  datatype EntryOp =
    | SetPrice(side: Side, price: Tick)
    | AddVolume(side: Side, amount: real)
    | SetLevels(buyLevel: Option<int>, sellLevel: Option<int>)
    | SetDepths(buyDepth: Option<real>, sellDepth: Option<real>)

  function ApplyOp(e: CentralStateEntry, op: EntryOp): CentralStateEntry {
    match op
    case SetPrice(side, p) => UpdateCentralPrice(e, side, p)
    case AddVolume(side, x) => AddExecuted(e, side, x)
    case SetLevels(b, s) => e.(buyCurrentLevel := b, sellCurrentLevel := s)
    case SetDepths(b, s) => e.(centralBuyDepth := b, centralSellDepth := s)
  }

  /** The entry after a sequence of calls, applied left to right. */
  function ApplyOps(e: CentralStateEntry, ops: seq<EntryOp>): CentralStateEntry
    decreases |ops|
  {
    if ops == [] then e else ApplyOp(ApplyOps(e, ops[..|ops| - 1]), ops[|ops| - 1])
  }

  /** The central price of `side` after `ops`: the last price set, or the starting one. */
  function PriceAfter(start: Option<Tick>, side: Side, ops: seq<EntryOp>): Option<Tick>
    decreases |ops|
  {
    if ops == [] then start
    else
      var last := ops[|ops| - 1];
      if last.SetPrice? && last.side == side then Some(last.price)
      else PriceAfter(start, side, ops[..|ops| - 1])
  }

  /** Total volume added to `side` by `ops`. */
  function VolumeOf(side: Side, ops: seq<EntryOp>): real
    decreases |ops|
  {
    if ops == [] then 0.0
    else
      var last := ops[|ops| - 1];
      VolumeOf(side, ops[..|ops| - 1]) + (if last.AddVolume? && last.side == side then last.amount else 0.0)
  }

  /** The position of the last call in `ops` that changed the central price of `side`. */
  function LastPriceChange(start: Option<Tick>, side: Side, ops: seq<EntryOp>): (r: Option<nat>)
    ensures r.Some? ==> r.value < |ops|
    decreases |ops|
  {
    if ops == [] then None
    else
      var n := |ops| - 1;
      var before := ops[..n];
      if ops[n].SetPrice? && ops[n].side == side && Some(ops[n].price) != PriceAfter(start, side, before) then Some(n)
      else LastPriceChange(start, side, before)
  }

  /** Each counter equals the volume added to its side since the last change of
      that side's central price, or the starting counter plus everything added
      when the price never changed. */
  lemma {:induction false} CounterCountsSinceLastChange(e: CentralStateEntry, side: Side, ops: seq<EntryOp>)
    ensures ApplyOps(e, ops).Price(side) == PriceAfter(e.Price(side), side, ops)
    ensures ApplyOps(e, ops).Executed(side) ==
      match LastPriceChange(e.Price(side), side, ops)
      case None => e.Executed(side) + VolumeOf(side, ops)
      case Some(k) => VolumeOf(side, ops[k + 1..])
    decreases |ops|
  {
    if ops != [] {
      var n := |ops| - 1;
      var before := ops[..n];
      CounterCountsSinceLastChange(e, side, before);
      var mid := ApplyOps(e, before);
      var op := ops[n];
      if op.SetPrice? && op.side == side && Some(op.price) != PriceAfter(e.Price(side), side, before) {
        assert ops[n + 1..] == [];
      } else {
        match LastPriceChange(e.Price(side), side, before)
        case None =>
        case Some(k) =>
          assert ops[k + 1..][..|ops[k + 1..]| - 1] == before[k + 1..];
      }
    }
  }

  /** The in-memory `CentralState` service. */
  class CentralState {
    var centralState: map<string, CentralStateEntry>

    constructor()
      ensures centralState == map[]
    {
      centralState := map[];
    }

    function GetAll(): map<string, CentralStateEntry>
      reads this
    {
      centralState
    }

    method EnsureToken(token: string)
      modifies this
      ensures centralState == old(centralState)[token := EntryOf(old(centralState), token)]
    {
      if token !in centralState {
        centralState := centralState[token := DefaultEntry];
      }
    }

    /** `get`: returns the token's entry, creating the default one first if needed. */
    method Get(token: string) returns (e: CentralStateEntry)
      modifies this
      ensures e == EntryOf(old(centralState), token)
      ensures centralState == old(centralState)[token := e]
    {
      EnsureToken(token);
      e := centralState[token];
    }

    method UpdateCentralBuyPrice(token: string, newPrice: Tick)
      modifies this
      ensures centralState == old(centralState)[token := UpdateCentralPrice(EntryOf(old(centralState), token), Buy, newPrice)]
    {
      EnsureToken(token);
      var entry := centralState[token];
      if entry.centralBuyPrice != Some(newPrice) {
        entry := entry.(centralBuyPrice := Some(newPrice), executedSinceBuyPriceChange := 0.0);
        centralState := centralState[token := entry];
      }
    }

    method UpdateCentralSellPrice(token: string, newPrice: Tick)
      modifies this
      ensures centralState == old(centralState)[token := UpdateCentralPrice(EntryOf(old(centralState), token), Sell, newPrice)]
    {
      EnsureToken(token);
      var entry := centralState[token];
      if entry.centralSellPrice != Some(newPrice) {
        entry := entry.(centralSellPrice := Some(newPrice), executedSinceSellPriceChange := 0.0);
        centralState := centralState[token := entry];
      }
    }

    method AddExecutedBuy(token: string, executed: real)
      modifies this
      ensures centralState == old(centralState)[token := AddExecuted(EntryOf(old(centralState), token), Buy, executed)]
    {
      EnsureToken(token);
      var entry := centralState[token];
      centralState := centralState[token := entry.(executedSinceBuyPriceChange := entry.executedSinceBuyPriceChange + executed)];
    }

    method AddExecutedSell(token: string, executed: real)
      modifies this
      ensures centralState == old(centralState)[token := AddExecuted(EntryOf(old(centralState), token), Sell, executed)]
    {
      EnsureToken(token);
      var entry := centralState[token];
      centralState := centralState[token := entry.(executedSinceSellPriceChange := entry.executedSinceSellPriceChange + executed)];
    }

    /** `updateCurrentLevels`: both levels overwritten, whatever they were. */
    method UpdateCurrentLevels(token: string, buyLevel: Option<int>, sellLevel: Option<int>)
      modifies this
      ensures token in centralState
      ensures centralState[token] == EntryOf(old(centralState), token).(buyCurrentLevel := buyLevel, sellCurrentLevel := sellLevel)
      ensures forall t :: t != token ==> (t in centralState <==> t in old(centralState))
      ensures forall t :: t != token && t in centralState ==> centralState[t] == old(centralState)[t]
    {
      EnsureToken(token);
      var entry := centralState[token];
      centralState := centralState[token := entry.(buyCurrentLevel := buyLevel, sellCurrentLevel := sellLevel)];
    }

    /** `updateCentralDepths`: both depths overwritten, whatever they were. */
    method UpdateCentralDepths(token: string, buyDepth: Option<real>, sellDepth: Option<real>)
      modifies this
      ensures token in centralState
      ensures centralState[token] == EntryOf(old(centralState), token).(centralBuyDepth := buyDepth, centralSellDepth := sellDepth)
      ensures forall t :: t != token ==> (t in centralState <==> t in old(centralState))
      ensures forall t :: t != token && t in centralState ==> centralState[t] == old(centralState)[t]
    {
      EnsureToken(token);
      var entry := centralState[token];
      centralState := centralState[token := entry.(centralBuyDepth := buyDepth, centralSellDepth := sellDepth)];
    }

    /** `clearToken`: drops the entry, so a later `get` yields a fresh default one. */
    method ClearToken(token: string)
      modifies this
      ensures centralState == old(centralState) - {token}
      ensures EntryOf(centralState, token) == DefaultEntry
    {
      if token in centralState {
        centralState := centralState - {token};
      }
    }

    method ClearAll()
      modifies this
      ensures centralState == map[]
    {
      centralState := map[];
    }
  }
}
