/** The market-data stream services (depth and aggTrade), seen only through the
    open and close calls the bot makes on them. The connections themselves are
    not modelled; each call is recorded as an effect, in order. */
module Streams {

  datatype StreamEffect =
    | OpenDepth(symbol: string)
    | OpenAggTrade(symbol: string)
    | CloseDepth(symbol: string)
    | CloseAggTrade(symbol: string)

  /** What activating `symbol` opens: both streams when it was inactive, nothing otherwise. */
  function ActivationEffects(active: seq<string>, symbol: string): (r: seq<StreamEffect>)
    ensures symbol in active ==> r == []
    ensures symbol !in active ==> r == [OpenDepth(symbol), OpenAggTrade(symbol)]
  {
    if symbol in active then [] else [OpenDepth(symbol), OpenAggTrade(symbol)]
  }

  /** What deactivating `symbol` closes: always both streams. */
  function DeactivationEffects(symbol: string): (r: seq<StreamEffect>) {
    [CloseDepth(symbol), CloseAggTrade(symbol)]
  }

  /** The symbols whose depth stream is open after the calls in `log`. */
  function DepthOpen(log: seq<StreamEffect>): set<string>
    decreases |log|
  {
    if log == [] then {}
    else
      var before := DepthOpen(log[..|log| - 1]);
      match log[|log| - 1]
      case OpenDepth(s) => before + {s}
      case CloseDepth(s) => before - {s}
      case _ => before
  }

  /** The symbols whose aggTrade stream is open after the calls in `log`. */
  function AggTradeOpen(log: seq<StreamEffect>): set<string>
    decreases |log|
  {
    if log == [] then {}
    else
      var before := AggTradeOpen(log[..|log| - 1]);
      match log[|log| - 1]
      case OpenAggTrade(s) => before + {s}
      case CloseAggTrade(s) => before - {s}
      case _ => before
  }

  /** Activation opens both streams of the symbol, unless it was already active. */
  lemma ActivationOpensBoth(log: seq<StreamEffect>, active: seq<string>, symbol: string)
    ensures var after := log + ActivationEffects(active, symbol);
      DepthOpen(after) == DepthOpen(log) + (if symbol in active then {} else {symbol}) &&
      AggTradeOpen(after) == AggTradeOpen(log) + (if symbol in active then {} else {symbol})
  {
    if symbol !in active {
      var mid := log + [OpenDepth(symbol)];
      assert mid[..|mid| - 1] == log;
      var after := mid + [OpenAggTrade(symbol)];
      assert after == log + ActivationEffects(active, symbol);
      assert after[..|after| - 1] == mid;
    } else {
      assert log + ActivationEffects(active, symbol) == log;
    }
  }

  /** Deactivation closes both streams of the symbol. */
  lemma DeactivationClosesBoth(log: seq<StreamEffect>, symbol: string)
    ensures DepthOpen(log + DeactivationEffects(symbol)) == DepthOpen(log) - {symbol}
    ensures AggTradeOpen(log + DeactivationEffects(symbol)) == AggTradeOpen(log) - {symbol}
  {
    var mid := log + [CloseDepth(symbol)];
    assert mid[..|mid| - 1] == log;
    var after := mid + [CloseAggTrade(symbol)];
    assert after == log + DeactivationEffects(symbol);
    assert after[..|after| - 1] == mid;
  }

  class StreamLog {
    var effects: seq<StreamEffect>

    constructor()
      ensures effects == []
    {
      effects := [];
    }

    method OpenDepthStream(symbol: string)
      modifies this
      ensures effects == old(effects) + [OpenDepth(symbol)]
    {
      effects := effects + [OpenDepth(symbol)];
    }

    method OpenAggTradeStream(symbol: string)
      modifies this
      ensures effects == old(effects) + [OpenAggTrade(symbol)]
    {
      effects := effects + [OpenAggTrade(symbol)];
    }

    method CloseDepthStream(symbol: string)
      modifies this
      ensures effects == old(effects) + [CloseDepth(symbol)]
    {
      effects := effects + [CloseDepth(symbol)];
    }

    method CloseAggTradeStream(symbol: string)
      modifies this
      ensures effects == old(effects) + [CloseAggTrade(symbol)]
    {
      effects := effects + [CloseAggTrade(symbol)];
    }
  }
}
