/** `UserEventsLogic`: reacts to the exchange's execution reports for the
    trader's own orders by activating or deactivating a token and opening or
    closing its market streams. */
module UserEvents {
  import opened TokenSets
  import S = Streams

  /** The fields of an execution report the handler reads: symbol (`s`), order
      type (`o`), execution type (`x`) and order status (`X`). */
  datatype ExecutionReport = ExecutionReport(symbol: string, orderType: string, execType: string, orderStatus: string)

  /** The active tokens and the stream calls after handling one report. */
  datatype Reaction = Reaction(active: seq<string>, effects: seq<S.StreamEffect>)

  /** Reports about allowed tokens and LIMIT orders are acted on. */
  predicate Relevant(allowed: seq<string>, msg: ExecutionReport) {
    msg.symbol in allowed && msg.orderType == "LIMIT"
  }

  /** `handleUserExecutionReport` on the token sets: NEW activates the token
      (opening its streams if it was inactive), CANCELED always deactivates it
      and closes both streams; anything else, and any report that is not
      relevant, changes nothing. */
  function HandleReport(allowed: seq<string>, active: seq<string>, msg: ExecutionReport): (r: Reaction) {
    if !Relevant(allowed, msg) then Reaction(active, [])
    else if msg.execType == "NEW" then
      Reaction(SetAdd(active, msg.symbol), S.ActivationEffects(active, msg.symbol))
    else if msg.execType == "CANCELED" then
      Reaction(SetRemove(active, msg.symbol), S.DeactivationEffects(msg.symbol))
    else Reaction(active, [])
  }

  /** Only a relevant NEW or CANCELED report changes anything, and only for its
      own symbol: NEW leaves the symbol active, CANCELED leaves it inactive. */
  lemma ReportTouchesOnlyItsSymbol(allowed: seq<string>, active: seq<string>, msg: ExecutionReport)
    ensures var r := HandleReport(allowed, active, msg);
      (forall t :: t != msg.symbol ==> (t in r.active <==> t in active)) &&
      (Relevant(allowed, msg) && msg.execType == "NEW" ==> msg.symbol in r.active) &&
      (Relevant(allowed, msg) && msg.execType == "CANCELED" ==> msg.symbol !in r.active) &&
      (!Relevant(allowed, msg) || (msg.execType != "NEW" && msg.execType != "CANCELED") ==> r == Reaction(active, []))
  {
  }

  /** Only allowed tokens ever become active. */
  lemma ActiveStaysAllowed(allowed: seq<string>, active: seq<string>, msg: ExecutionReport)
    requires forall t :: t in active ==> t in allowed
    ensures forall t :: t in HandleReport(allowed, active, msg).active ==> t in allowed
  {
  }

  /** A token's depth and aggTrade streams are open exactly while it is active:
      handling a report keeps that correspondence. */
  lemma StreamsFollowActive(allowed: seq<string>, active: seq<string>, log: seq<S.StreamEffect>, msg: ExecutionReport)
    requires S.DepthOpen(log) == (set t | t in active) && S.AggTradeOpen(log) == (set t | t in active)
    ensures var r := HandleReport(allowed, active, msg);
      S.DepthOpen(log + r.effects) == (set t | t in r.active) &&
      S.AggTradeOpen(log + r.effects) == (set t | t in r.active)
  {
    var r := HandleReport(allowed, active, msg);
    if Relevant(allowed, msg) && msg.execType == "NEW" {
      S.ActivationOpensBoth(log, active, msg.symbol);
    } else if Relevant(allowed, msg) && msg.execType == "CANCELED" {
      S.DeactivationClosesBoth(log, msg.symbol);
    } else {
      assert log + r.effects == log;
    }
  }

  /** A NEW report followed by a CANCELED one for the same allowed LIMIT token
      leaves the token inactive and its streams closed, whatever came before. */
  lemma NewThenCanceled(allowed: seq<string>, active: seq<string>, log: seq<S.StreamEffect>, symbol: string, status: string)
    requires symbol in allowed
    requires NoDuplicates(active)
    ensures var first := HandleReport(allowed, active, ExecutionReport(symbol, "LIMIT", "NEW", status));
      var second := HandleReport(allowed, first.active, ExecutionReport(symbol, "LIMIT", "CANCELED", status));
      var after := log + first.effects + second.effects;
      second.active == SetRemove(active, symbol) &&
      symbol !in S.DepthOpen(after) && symbol !in S.AggTradeOpen(after)
  {
    var first := HandleReport(allowed, active, ExecutionReport(symbol, "LIMIT", "NEW", status));
    var second := HandleReport(allowed, first.active, ExecutionReport(symbol, "LIMIT", "CANCELED", status));
    var after := log + first.effects + second.effects;
    assert SetRemove(SetAdd(active, symbol), symbol) == SetRemove(active, symbol) by {
      if symbol !in active {
        SetRemoveAppended(active, symbol);
      }
    }
    S.DeactivationClosesBoth(log + first.effects, symbol);
  }

  /** Removing a token that was just appended gives the original sequence back. */
  lemma {:induction false} SetRemoveAppended(s: seq<string>, t: string)
    requires t !in s
    ensures SetRemove(s + [t], t) == s
  {
    if s != [] {
      assert (s + [t])[1..] == s[1..] + [t];
      SetRemoveAppended(s[1..], t);
    }
  }

  /** The `UserEventsLogic` service over the token sets and the stream services. */
  class UserEventsLogic {
    const allowedTokens: AllowedTokensState
    const activeTokens: ActiveTokensState
    const streams: S.StreamLog

    constructor(allowedTokens: AllowedTokensState, activeTokens: ActiveTokensState, streams: S.StreamLog)
      ensures this.allowedTokens == allowedTokens && this.activeTokens == activeTokens && this.streams == streams
    {
      this.allowedTokens := allowedTokens;
      this.activeTokens := activeTokens;
      this.streams := streams;
    }

    method HandleUserExecutionReport(msg: ExecutionReport)
      requires activeTokens.Valid()
      modifies activeTokens, streams
      ensures activeTokens.Valid()
      ensures var r := HandleReport(old(allowedTokens.allowed), old(activeTokens.active), msg);
        activeTokens.active == r.active && streams.effects == old(streams.effects) + r.effects
    {
      var symbol := msg.symbol;
      if !allowedTokens.Has(symbol) {
        return;
      }
      if msg.orderType != "LIMIT" {
        return;
      }
      if msg.execType == "NEW" {
        if !activeTokens.Has(symbol) {
          activeTokens.Add(symbol);
          streams.OpenDepthStream(symbol);
          streams.OpenAggTradeStream(symbol);
        }
        return;
      }
      if msg.execType == "CANCELED" {
        activeTokens.Remove(symbol);
        streams.CloseDepthStream(symbol);
        streams.CloseAggTradeStream(symbol);
        return;
      }
      // TRADE with PARTIALLY_FILLED or FILLED, and every other execution type:
      // nothing to do yet.
    }
  }
}
