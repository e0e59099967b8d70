# LifeOS back end: trading state, order tracking and authentication, in Dafny

This project models the core of the LifeOS back end, a NestJS service that does two jobs:
- it follows a trader's limit orders on the Binance exchange;
- it authenticates the users of the companion app.

The model covers the following parts of the service:

- **The investments state.**
  - `DepthState` is the per-token order book, keyed by price.
  - `ActiveOrdersState` holds the trader's resting orders, keyed by token, side and price.
  - `CentralState` holds the best bid and best ask, each with the volume traded since it last changed.
  - The token sets are `AllowedTokensState` and `ActiveTokensState`.
  - `BotState` is the bot's on/off switch.
- **`StateUpdaterLogic`.** It connects those stores:
  - it stores REST depth snapshots and recomputes the central prices;
  - it inserts, finds, partially fills and cancels orders (the last three only as intended; as written they never find an order, see "## Findings");
  - it applies streamed depth deltas and, as intended, re-estimates queue positions (as written no queue position changes).
- **Depth and collision helpers.**
  - `calculateDepthLevel` buckets the depth in front of an order.
  - `computeCollision` compares the best bid with the best ask.
- **`SnapshotBuilder`.** It selects three levels per side around the central price and builds the probability row.
- **`UserEventsLogic`.** It activates and deactivates tokens, and opens and closes their market streams, from execution reports.
- **The buy decision.**
  - `getPendingTokens` lists the allowed tokens that are not active.
  - `determineBuyPrice` chooses the price and quantity of a buy.
- **The older `src/trading` module.**
  - `TradingService` keeps the order lists, the stream bookkeeping, the trade ticks and the depth events.
  - `StateBuilder` builds the six-level view and the probability row.
- **Authentication.**
  - From `AuthService`: the login and register input checks, the conflict rule, the parsing of durations such as `15m` or `999ms`, the token lifetimes, the refresh and access tokens, and the normalisation of the IP address and user agent.
  - From `jwt-sign.ts`: the stand-alone HS256 signer (RFC 7519, with the base64url alphabet of section 5 of RFC 4648).
  - From `bcrypt-hasher.ts`: the bcrypt cost checks.
- **`DeviceTokenState`.** The push-notification token cell.

Conventions:
- **Prices** are integer ticks (`Market.Tick`). The source keys its books by the decimal string of a price; the model keys them by the tick itself, so `normalizePriceKey` is the identity.
- **Quantities** are exact `real`s.
- **JavaScript `Set`s** are sequences without duplicates, because insertion order is visible through `getAll`.
- **Services whose fields change in place** are classes. Each method states its new state as a function of the old one, and the lemmas about those functions carry the properties.
- **An `ActiveOrdersState` price entry** is an array of orders, but `findOrderById`, the queue re-estimation and the snapshot's `userOrders` read it as if it were one order. Reading `id`, `pending_amount` or `queue_position` off an array gives `undefined` (`ActiveOrders.EntryValue`, `IdProperty`, `QueueProperty`, `PendingProperty`). As written, therefore:
  - `findOrderById` finds nothing, so `cancelOrder` and `applyPartialFill` always log "not found" and return;
  - no queue position ever changes after a depth delta, because `undefined + undefined` is `NaN` and `newDepth < NaN` is false;
  - each snapshot level shows at most one user order, with all three fields undefined.

  The members whose names end in `AsWritten` model this behaviour. The members without the suffix model the evidently intended reading, which acts on every order in the array, and the rest of the model uses them. The discrepancies are listed under "## Findings".
- **The database, the exchange's REST and WebSocket APIs, crypto and the clock** become parameters:
  - a user lookup function `findUser` and a password check `passwordMatches`;
  - a fetched depth snapshot;
  - a `Library` of UTF-8 encoding, JSON serialisation and HMAC-SHA256;
  - random bytes;
  - `nowMs`;
  - a log of stream open and close calls (`Streams.StreamLog`).

## Model

| member | source | states |
|---|---|---|
| DepthStore.LevelIn | src/investments/state/depth.state.ts:53-55 | `getLevel` returns the stored amount, and `None` exactly when the token or the price is absent |
| DepthStore.BookOf | src/investments/state/depth.state.ts:26-33 | `ensureToken` keeps an existing book and creates an empty one otherwise |
| DepthStore.SetLevelIn | src/investments/state/depth.state.ts:36-50 | after `setLevel` the token exists; the price holds the amount, or is absent when the amount is 0; every other level is unchanged |
| DepthStore.DeleteLevelIn | src/investments/state/depth.state.ts:58-62 | `deleteLevel` removes the price only when its stored amount is non-zero (truthy); otherwise nothing changes; other levels are kept |
| DepthStore.ClearTokenIn | src/investments/state/depth.state.ts:65-69 | `clearToken` removes the token and keeps every other token's book |
| DepthStore.ResetTokenIn | src/investments/state/depth.state.ts:78-83 | `resetToken` leaves the token with two empty sides and keeps the other tokens |
| DepthStore.SetSnapshotIn | src/investments/state/depth.state.ts:86-95 | `setSnapshot` makes the token's sides exactly the given maps and keeps the other tokens |
| DepthStore.SetLevelKeepsNoZero | src/investments/state/depth.state.ts:44-49 | `setLevel` never stores a zero amount, so a store free of zeros stays free of zeros |
| DepthStore.RemovalsKeepNoZero | src/investments/state/depth.state.ts:58-83 | `deleteLevel`, `clearToken` and `resetToken` keep the store free of zero amounts |
| DepthStore.ZeroOnAbsentPriceIsNoOp | src/investments/state/depth.state.ts:42-47 | setting 0 on an absent price of an existing token changes nothing |
| DepthStore.DepthState.SetLevel | src/investments/state/depth.state.ts:36-50 | the new store is `SetLevelIn` of the old one |
| DepthStore.DepthState.DeleteLevel | src/investments/state/depth.state.ts:58-62 | the new store is `DeleteLevelIn` of the old one |
| DepthStore.DepthState.ClearToken | src/investments/state/depth.state.ts:65-69 | the new store is `ClearTokenIn` of the old one |
| DepthStore.DepthState.ClearAll | src/investments/state/depth.state.ts:73-75 | the store is empty |
| DepthStore.DepthState.ResetToken | src/investments/state/depth.state.ts:78-83 | the new store is `ResetTokenIn` of the old one |
| DepthStore.DepthState.SetSnapshot | src/investments/state/depth.state.ts:86-95 | the new store is `SetSnapshotIn` of the old one |
| DepthStore.DepthState.EnsureToken | src/investments/state/depth.state.ts:26-33 | the token maps to `BookOf` the old store; nothing else changes |
| ActiveOrders.FirstIndexOfId | src/investments/state/active-orders.state.ts:57 | `findIndex`: the first position holding the id, and `None` exactly when no order has the id |
| ActiveOrders.Upsert | src/investments/state/active-orders.state.ts:55-63 | a known id is replaced (same length); an unknown id is appended at the end; the other orders keep their slots; ids stay distinct |
| ActiveOrders.WithoutId | src/investments/state/active-orders.state.ts:87 | `filter(order => order.id !== orderId)`: exactly the orders with a different id, and never more than before |
| ActiveOrders.WithoutIdKeepsUnique | src/investments/state/active-orders.state.ts:87 | filtering a list whose ids are distinct leaves a list whose ids are distinct |
| ActiveOrders.LevelOf | src/investments/state/active-orders.state.ts:78-80 | the stored list at (token, side, price), or `None` when any of the three is missing |
| ActiveOrders.OrdersAt | src/investments/state/active-orders.state.ts:68-70 | `getOrder` returns the stored list, or `[]` when it is absent |
| ActiveOrders.SetOrderIn | src/investments/state/active-orders.state.ts:47-66 | `setOrder` creates the token if needed, upserts the order in the list at the price, and changes no other (token, side, price) |
| ActiveOrders.DeleteOrderIn | src/investments/state/active-orders.state.ts:72-92 | a missing entry means no change; without an id the entry goes; with an id the matching orders go, and an entry left empty is deleted; other entries are kept |
| ActiveOrders.ClearTokenIn | src/investments/state/active-orders.state.ts:94-98 | `clearToken` removes the token and keeps every other entry |
| ActiveOrders.SetOrderKeepsValid | src/investments/state/active-orders.state.ts:47-66 | `setOrder` keeps both invariants: no empty price list, and distinct ids within a list |
| ActiveOrders.DeleteOrderKeepsValid | src/investments/state/active-orders.state.ts:72-92 | `deleteOrder` keeps both invariants, because it prunes a list left empty |
| ActiveOrders.ClearTokenKeepsValid | src/investments/state/active-orders.state.ts:94-98 | `clearToken` keeps both invariants |
| ActiveOrders.ActiveOrdersState.SetOrder | src/investments/state/active-orders.state.ts:47-66 | the new book is `SetOrderIn` of the old one |
| ActiveOrders.ActiveOrdersState.DeleteOrder | src/investments/state/active-orders.state.ts:72-92 | the new book is `DeleteOrderIn` of the old one |
| ActiveOrders.ActiveOrdersState.ClearToken | src/investments/state/active-orders.state.ts:94-98 | the new book is `ClearTokenIn` of the old one |
| ActiveOrders.ActiveOrdersState.ClearAll | src/investments/state/active-orders.state.ts:101-103 | the book is empty |
| ActiveOrders.ActiveOrdersState.EnsureToken | src/investments/state/active-orders.state.ts:38-45 | an unseen token gets two empty sides; nothing else changes |
| ActiveOrders.ActiveOrdersState.constructor | src/investments/state/active-orders.state.ts:26-28 | the book starts empty, and the new object becomes the static instance |
| ActiveOrders.Registry.constructor | src/investments/state/active-orders.state.ts:16 | the static instance starts out `null` |
| CentralStore.UpdateCentralPrice | src/investments/state/central-state.state.ts:48-68 | the side's price becomes the new price; its counter resets to 0 only when the price differs; the other side, the levels and the depths are kept |
| CentralStore.AddExecuted | src/investments/state/central-state.state.ts:70-78 | only the side's counter grows, by the executed amount |
| CentralStore.EntryOf | src/investments/state/central-state.state.ts:21-46 | the stored entry, or the default entry `ensureToken` creates (no prices, counters 0) |
| CentralStore.CounterCountsSinceLastChange | src/investments/state/central-state.state.ts:48-78 | after any sequence of calls, each side's price is the last one set, and its counter is the volume added since the last call that changed that price |
| CentralStore.CentralState.Get | src/investments/state/central-state.state.ts:43-46 | returns `EntryOf` the old map and stores it under the token |
| CentralStore.CentralState.UpdateCentralBuyPrice | src/investments/state/central-state.state.ts:48-57 | the token's entry becomes `UpdateCentralPrice(…, Buy, …)`; other tokens are unchanged |
| CentralStore.CentralState.UpdateCentralSellPrice | src/investments/state/central-state.state.ts:59-68 | the same for the SELL side |
| CentralStore.CentralState.AddExecutedBuy | src/investments/state/central-state.state.ts:70-73 | the token's entry becomes `AddExecuted(…, Buy, …)` |
| CentralStore.CentralState.AddExecutedSell | src/investments/state/central-state.state.ts:75-78 | the token's entry becomes `AddExecuted(…, Sell, …)` |
| CentralStore.CentralState.UpdateCurrentLevels | src/investments/state/central-state.state.ts:80-90 | both levels are overwritten; other fields and other tokens are kept |
| CentralStore.CentralState.UpdateCentralDepths | src/investments/state/central-state.state.ts:92-98 | both depths are overwritten; other fields and other tokens are kept |
| CentralStore.CentralState.ClearToken | src/investments/state/central-state.state.ts:100-104 | the entry is dropped, so a later `get` yields the default entry |
| CentralStore.CentralState.ClearAll | src/investments/state/central-state.state.ts:107-109 | the map is empty |
| CentralStore.CentralState.EnsureToken | src/investments/state/central-state.state.ts:21-37 | the token maps to `EntryOf` the old map |
| TokenSets.SetAdd | src/investments/state/active-tokens.state.ts:7-9 | `Set.add`: a member set is unchanged; a new token is appended; no duplicates arise |
| TokenSets.SetRemove | src/investments/state/active-tokens.state.ts:11-13 | `Set.delete`: exactly the token goes; in a duplicate-free set the result is the set with that one slot cut out, so the others keep their order |
| TokenSets.AddTwiceIsAddOnce | src/investments/state/active-tokens.state.ts:7-9 | adding a token twice is the same as adding it once |
| TokenSets.ActiveTokensState.Add | src/investments/state/active-tokens.state.ts:7-9 | the set becomes `SetAdd` of the old one and stays duplicate-free |
| TokenSets.ActiveTokensState.Remove | src/investments/state/active-tokens.state.ts:11-13 | the set becomes `SetRemove` of the old one |
| TokenSets.ActiveTokensState.Clear | src/investments/state/active-tokens.state.ts:23-25 | the set is empty |
| TokenSets.AllowedTokensState.OnModuleInit | src/investments/state/allowed-tokens.state.ts:7-11 | ACAUSDT, BTCUSDT and ETHUSDT are added in that order |
| TokenSets.AllowedTokensState.Add | src/investments/state/allowed-tokens.state.ts:21-23 | the set becomes `SetAdd` of the old one |
| TokenSets.AllowedTokensState.Remove | src/investments/state/allowed-tokens.state.ts:25-27 | the set becomes `SetRemove` of the old one |
| TokenSets.AllowedTokensState.Clear | src/investments/state/allowed-tokens.state.ts:29-31 | the set is empty |
| Bot.BotState.constructor | src/investments/state/bot-state.state.ts:5 | the bot starts switched off |
| Bot.BotState.Activate | src/investments/state/bot-state.state.ts:11-13 | the bot is on |
| Bot.BotState.Deactivate | src/investments/state/bot-state.state.ts:15-17 | the bot is off |
| Bot.BotState.Toggle | src/investments/state/bot-state.state.ts:19-21 | the status is inverted |
| Bot.ToggleTwiceRestores | src/investments/state/bot-state.state.ts:19-21 | toggling twice restores the status |
| DeviceToken.Registry.GetInstance | src/state/device-token.state.ts:12-17 | fails before any construction, and afterwards yields the last constructed state |
| DeviceToken.DeviceTokenState.constructor | src/state/device-token.state.ts:6-10 | the token starts `null`, and the object becomes the static instance |
| DeviceToken.DeviceTokenState.SetDeviceToken | src/state/device-token.state.ts:19-21 | the stored token is the given one |
| DeviceToken.DeviceTokenState.Clear | src/state/device-token.state.ts:27-29 | the stored token is `null` |
| Market.Max0 | src/investments/logic/state-updater.logic.ts:170 | `Math.max(x, 0)` is non-negative, at least x, and equal to x or to 0 |
| Market.MaxOf | src/investments/logic/state-updater.logic.ts:142 | `Math.max` over a non-empty side: a member that no member exceeds |
| Market.MinOf | src/investments/logic/state-updater.logic.ts:143 | `Math.min` over a non-empty side: a member that no member undercuts |
| Market.SortedKeys | src/investments/snapshot/snapshot.builder.ts:84-90 | the parsed keys sorted with `a - b`: strictly ascending, the same members, the same count |
| Market.IndexOf | src/investments/snapshot/snapshot.builder.ts:100-102 | `findIndex(p => p === x)`: the first position holding x, `None` exactly when x is absent |
| Market.PredecessorIsLargestBelow | src/investments/snapshot/snapshot.builder.ts:100-122 | in an ascending list the previous entry is the largest price below the current one |
| Market.SuccessorIsSmallestAbove | src/investments/snapshot/snapshot.builder.ts:135-165 | in an ascending list the next entry is the smallest price above the current one |
| Sorting.SortBy | src/investments/snapshot/snapshot.builder.ts:225-228 | the sort is a permutation of its input |
| Sorting.SortBySorted | src/investments/snapshot/snapshot.builder.ts:225-228 | the sort's output is in ascending key order |
| Sorting.SortByStable | src/investments/snapshot/snapshot.builder.ts:225-228 | the sort is stable: for every key, the elements with that key keep their input order |
| DepthLevel.CalculateDepthLevel | src/investments/logic/depth-level.helper.ts:3-19 | a missing, zero or negative depth has no level; any other depth has a level in 1..23 |
| DepthLevel.LevelIsLeastCoveringBand | src/investments/logic/depth-level.helper.ts:8-18 | the level is the least band (50 000 wide up to 300 000, then 100 000 wide) whose ceiling reaches the depth, capped at 23 |
| DepthLevel.CapSaturates | src/investments/logic/depth-level.helper.ts:15-18 | every depth of 2 000 000 or more gets the top level, 23 |
| DepthLevel.LevelIsMonotone | src/investments/logic/depth-level.helper.ts:3-19 | more depth in front never gives a lower level |
| Collision.ComputeCollision | src/investments/bot/decisions/computeCollisionPoint.ts:3-54 | no result when the store is missing, the token is missing, a side is empty or the two depths sum to 0; otherwise the highest bid and the lowest ask with their depths, and each share is its depth over the sum |
| Collision.SharesSumToOne | src/investments/bot/decisions/computeCollisionPoint.ts:47-48 | the two shares add up to 1 |
| Collision.SharesAreProportions | src/investments/bot/decisions/computeCollisionPoint.ts:47-48 | with non-negative depths each share lies in [0, 1] |
| Streams.ActivationEffects | src/investments/logic/user-events.logic.ts:31-40 | an inactive token opens its depth and aggTrade streams; an active one opens nothing |
| Streams.ActivationOpensBoth | src/investments/logic/state-updater.logic.ts:64-72 | after activation both streams of a newly active token are open, and no others change |
| Streams.DeactivationEffects | src/investments/logic/user-events.logic.ts:50-51 | the two close calls of a CANCELED report; its contract is `DeactivationClosesBoth`: afterwards neither stream of the token is open |
| Streams.DeactivationClosesBoth | src/investments/logic/user-events.logic.ts:45-54 | after deactivation neither stream of the token is open |
| Streams.StreamLog.OpenDepthStream | src/investments/stream/binance-depth-stream.service.ts:8-40 | the call is recorded |
| Streams.StreamLog.OpenAggTradeStream | src/investments/stream/binance-aggtrade-stream.service.ts:8-40 | the call is recorded |
| Streams.StreamLog.CloseDepthStream | src/investments/stream/binance-depth-stream.service.ts:42-49 | the call is recorded |
| Streams.StreamLog.CloseAggTradeStream | src/investments/stream/binance-aggtrade-stream.service.ts:42-49 | the call is recorded |
| UserEvents.HandleReport | src/investments/logic/user-events.logic.ts:16-69 | `handleUserExecutionReport`; its contract is `ReportTouchesOnlyItsSymbol`, `ActiveStaysAllowed` and `StreamsFollowActive`: only allowed LIMIT NEW or CANCELED reports change their own symbol, and streams stay open exactly while the token is active |
| UserEvents.ReportTouchesOnlyItsSymbol | src/investments/logic/user-events.logic.ts:16-69 | only an allowed LIMIT report that is NEW or CANCELED changes anything: NEW makes the symbol active, CANCELED makes it inactive, and no other token changes |
| UserEvents.ActiveStaysAllowed | src/investments/logic/user-events.logic.ts:23-33 | only allowed tokens ever become active |
| UserEvents.StreamsFollowActive | src/investments/logic/user-events.logic.ts:31-54 | a token's two streams are open exactly while it is active, and every report preserves this |
| UserEvents.NewThenCanceled | src/investments/logic/user-events.logic.ts:31-54 | NEW then CANCELED for the same token restores the active set and leaves both streams closed |
| UserEvents.SetRemoveAppended | src/investments/state/active-tokens.state.ts:7-13 | removing a token that was just appended gives back the original set |
| UserEvents.UserEventsLogic.HandleUserExecutionReport | src/investments/logic/user-events.logic.ts:16-69 | the active set and the stream calls are those of `HandleReport` on the old state |
| StateUpdater.FindExistingPriceKey | src/investments/logic/state-updater.logic.ts:37-62 | a key numerically equal to the price, found exactly when the price is finite and listed |
| StateUpdater.LevelMapLastWins | src/investments/logic/state-updater.logic.ts:111-130 | `buyMap[key] = qty` over a level list keeps exactly the listed prices, each with the quantity of its last occurrence |
| StateUpdater.SnapshotSide | src/investments/logic/state-updater.logic.ts:111-130 | the stored side holds exactly the snapshot's prices, each with a quantity listed for it |
| StateUpdater.SnapshotKeepsEveryLevel | src/investments/logic/state-updater.logic.ts:111-130 | when each price is listed once, every level arrives unchanged |
| StateUpdater.CentralAfterRecompute | src/investments/logic/state-updater.logic.ts:131-147 | a missing token or an empty side means no change; otherwise the central BUY price is the highest bid and the central SELL price is the lowest ask, each counter resets exactly when its price changes, and other tokens are kept |
| StateUpdater.FirstLevelAt | src/investments/logic/state-updater.logic.ts:162-168 | `find(([p]) => p === price)`: the first level at the price, or none exactly when no level has it |
| StateUpdater.NewOrder | src/investments/logic/state-updater.logic.ts:149-182 | the stored order has the whole quantity pending, nothing filled, and a queue position of max(depth at price − qty, 0) |
| StateUpdater.LocationWitnessesId | src/investments/logic/state-updater.logic.ts:184-215 | intended search (see Findings): a location found in a price list shows that the id is stored |
| StateUpdater.Filled | src/investments/logic/state-updater.logic.ts:276-284 | the fill is added to `filled_amount`; `pending_amount` drops by the fill but not below 0; nothing else changes |
| StateUpdater.FillsAccumulate | src/investments/logic/state-updater.logic.ts:268-291 | two non-negative partial fills equal one fill of their sum |
| StateUpdater.UpsertReplacesInPlace | src/investments/state/active-orders.state.ts:57-61 | with distinct ids, upserting a known id replaces that slot |
| StateUpdater.PartialFillUpdatesOnlyThatOrder | src/investments/logic/state-updater.logic.ts:268-291 | writing back a filled order keeps the list's length and every other order, and the list holds the filled order |
| StateUpdater.ApplyLevelDeltas | src/investments/logic/state-updater.logic.ts:309-326 | the two delta loops of `applyDelta`; its contract is `DeltasTouchOnlyExistingLevels`: no price is added, a zero removes, a survivor holds the last delta's quantity |
| StateUpdater.DeltasTouchOnlyExistingLevels | src/investments/logic/state-updater.logic.ts:293-329 | deltas never add a price; a price survives exactly when it was there and no delta zeroed it; a survivor holds the last delta's quantity, or its old one |
| StateUpdater.DepthAfterDelta | src/investments/logic/state-updater.logic.ts:293-329 | an unseen token gets an empty book; only that token changes; neither side gains a price |
| StateUpdater.Reestimate | src/investments/logic/state-updater.logic.ts:331-381 | only the queue position changes, and only when the new depth is below position + pending; it never grows and never goes below 0 |
| StateUpdater.ReestimateList | src/investments/logic/state-updater.logic.ts:341-360 | intended re-estimation (see Findings): the rule is applied to every order of the list, slot for slot |
| StateUpdater.QueuesAfterDelta | src/investments/logic/state-updater.logic.ts:331-381 | the intended `updateQueuePositionsAfterDepthDelta` (see Findings); its contract is `ReestimationOnlyShrinksQueues`: every order keeps its slot and fields and its queue position never grows |
| StateUpdater.ReestimationOnlyShrinksQueues | src/investments/logic/state-updater.logic.ts:331-381 | after any deltas every order keeps its slot and fields except the queue position, which stays non-negative and never grows |
| StateUpdater.CancelAt | src/investments/logic/state-updater.logic.ts:217-265 | the price entry is removed; if the token still has orders, its book becomes the fetched snapshot and the central prices are recomputed; otherwise the token leaves orders, depth, central state and the active set, and its streams close |
| StateUpdater.FindInList | src/investments/logic/state-updater.logic.ts:199-209 | intended search (see Findings): an order with the id from the price list, or `None` exactly when none has it |
| StateUpdater.FindInSide | src/investments/logic/state-updater.logic.ts:196-210 | intended search (see Findings): an order with the id at some price of the side, or `None` exactly when none has it |
| StateUpdater.BuildSideMap | src/investments/logic/state-updater.logic.ts:111-130 | the loop builds `LevelMap` of the levels |
| StateUpdater.StateUpdaterLogic.MaybeActivateToken | src/investments/logic/state-updater.logic.ts:64-72 | the active set becomes `SetAdd`, and the streams of a newly active token open |
| StateUpdater.StateUpdaterLogic.UpdateDepthState | src/investments/logic/state-updater.logic.ts:111-130 | the token's book becomes exactly the snapshot's sides |
| StateUpdater.StateUpdaterLogic.UpdateCentralState | src/investments/logic/state-updater.logic.ts:131-147 | the central map becomes `CentralAfterRecompute` of the old one |
| StateUpdater.StateUpdaterLogic.CreateOrUpdateOrder | src/investments/logic/state-updater.logic.ts:149-182 | the book becomes `SetOrderIn` with `NewOrder` |
| StateUpdater.StateUpdaterLogic.FindOrderById | src/investments/logic/state-updater.logic.ts:184-215 | intended `findOrderById` (see Findings): a found location holds an order with the id; `None` exactly when no stored order has it |
| StateUpdater.StateUpdaterLogic.CancelOrder | src/investments/logic/state-updater.logic.ts:217-265 | intended `cancelOrder` (see Findings): an unknown id changes nothing; otherwise the stores become `CancelAt` at the order's location |
| StateUpdater.StateUpdaterLogic.ForgetToken | src/investments/logic/state-updater.logic.ts:247-257 | the token is cleared from orders, depth and central state and removed from the active set, and its streams close |
| StateUpdater.StateUpdaterLogic.ApplyPartialFill | src/investments/logic/state-updater.logic.ts:268-291 | intended `applyPartialFill` (see Findings): an unknown id changes nothing; otherwise the found order is written back filled |
| StateUpdater.StateUpdaterLogic.ReestimateOrdersAt | src/investments/logic/state-updater.logic.ts:341-360 | intended re-estimation (see Findings): the list at the price becomes `ReestimateList` |
| StateUpdater.StateUpdaterLogic.UpdateQueuePositionsAfterDepthDelta | src/investments/logic/state-updater.logic.ts:331-381 | intended `updateQueuePositionsAfterDepthDelta` (see Findings): the book becomes `QueuesAfterDelta` |
| StateUpdater.StateUpdaterLogic.ApplyDelta | src/investments/logic/state-updater.logic.ts:293-329 | the depth becomes `DepthAfterDelta`, as written; the queues become `QueuesAfterDelta`, the intended re-estimation (see Findings) |
| StateUpdater.StateUpdaterLogic.ApplyBookDelta | src/investments/logic/state-updater.logic.ts:299-326 | the streamed changes turn the token's book into `DepthAfterDelta` |
| StateUpdater.SearchEntries | src/investments/logic/state-updater.logic.ts:184-215 | `findOrderById` as written, over the entries the store hands out: a hit is an entry whose `id` property equals the id; `None` exactly when no entry's does |
| StateUpdater.RuntimeEntriesHaveNoId | src/investments/state/active-orders.state.ts:21-22 | every entry the store hands out is an array, so no entry's `id` property matches any id |
| StateUpdater.StoredOrderMissedAsWritten | src/investments/logic/state-updater.logic.ts:200-202 | with order 7 stored at BTCUSDT BUY 100, the book holds id 7 and yet no entry's `id` matches it |
| StateUpdater.StateUpdaterLogic.FindOrderByIdAsWritten | src/investments/logic/state-updater.logic.ts:184-215 | `findOrderById` as written returns `null` whatever the store holds |
| StateUpdater.StateUpdaterLogic.CancelOrderAsWritten | src/investments/logic/state-updater.logic.ts:217-223 | `cancelOrder` as written always takes the not-found return and changes no store |
| StateUpdater.StateUpdaterLogic.ApplyPartialFillAsWritten | src/investments/logic/state-updater.logic.ts:268-274 | `applyPartialFill` as written always takes the not-found return and changes no order |
| StateUpdater.ReestimateEntryAsWritten | src/investments/logic/state-updater.logic.ts:345-358 | the queue rule as written: on a single order it is exactly `Reestimate`; on the array the store holds, the comparison is false and the entry is unchanged |
| StateUpdater.StaleQueueAsWritten | src/investments/logic/state-updater.logic.ts:345-358 | an order with 5 ahead and 2 pending and a delta leaving 1: the intended rule moves it to the front, the rule as written leaves its entry as it was |
| StateUpdater.StateUpdaterLogic.UpdateQueuePositionsAfterDepthDeltaAsWritten | src/investments/logic/state-updater.logic.ts:331-381 | `updateQueuePositionsAfterDepthDelta` as written changes no order |
| StateUpdater.StateUpdaterLogic.ApplyDeltaAsWritten | src/investments/logic/state-updater.logic.ts:293-329 | `applyDelta` as written: the book becomes `DepthAfterDelta` and the orders stay as they were |
| SnapshotBuilding.AroundCentral | src/investments/snapshot/snapshot.builder.ts:100-122 | the walk out from the central price; its contract is `AroundCentralCases` and `AroundCentralShape`: central, then lower and higher in turn, min(3, n) distinct listed prices |
| SnapshotBuilding.AroundCentralCases | src/investments/snapshot/snapshot.builder.ts:100-122 | the walk from the central price yields central, lower, higher when both exist; otherwise it continues on the side that remains |
| SnapshotBuilding.AroundCentralShape | src/investments/snapshot/snapshot.builder.ts:100-122 | the walk yields min(3, n) distinct listed prices, central first |
| SnapshotBuilding.SelectedPricesShape | src/investments/snapshot/snapshot.builder.ts:95-165 | at most three distinct listed prices; central first when it is listed; otherwise the top three bids or the bottom three asks |
| SnapshotBuilding.WalkFromCentral | src/investments/snapshot/snapshot.builder.ts:100-122 | the `while` loop over the two cursors computes `AroundCentral` |
| SnapshotBuilding.SelectSide | src/investments/snapshot/snapshot.builder.ts:95-165 | the per-side selection computes `SelectedPrices` |
| SnapshotBuilding.SideLevels | src/investments/snapshot/snapshot.builder.ts:169-222 | one level per selected price, with the intended `userOrders` (see Findings) |
| SnapshotBuilding.BuildSideLevels | src/investments/snapshot/snapshot.builder.ts:169-222 | the loop computes `SideLevels` |
| SnapshotBuilding.SelectionShape | src/investments/snapshot/snapshot.builder.ts:95-165 | min(3, n) prices of the side, central first when the book lists it |
| SnapshotBuilding.UserOrdersAt | src/investments/snapshot/snapshot.builder.ts:179-214 | the intended `userOrders` at one price (see Findings); its contract is `SideLevelsFaithful`: one entry per resting order with its id, pending amount and queue position |
| SnapshotBuilding.SideLevelsFaithful | src/investments/snapshot/snapshot.builder.ts:169-222 | each level carries its side and the book's amount at its price, as the source builds them, and the intended `userOrders`: every order resting there (see Findings) |
| SnapshotBuilding.UserOrdersAtAsWritten | src/investments/snapshot/snapshot.builder.ts:179-214 | `userOrders` at one price as written: no entry when the price has no orders; otherwise exactly one entry, whose id, amount and queue position are all undefined |
| SnapshotBuilding.UserOrdersLostAsWritten | src/investments/snapshot/snapshot.builder.ts:180-189 | with orders 7 and 8 resting at 100, the intended level lists both with their fields, while the level as written holds one entry of undefined fields |
| SnapshotBuilding.UnsortedLevelsShape | src/investments/snapshot/snapshot.builder.ts:80-222 | before sorting: min(3, n) levels per side, each showing the book, and both central levels included |
| SnapshotBuilding.LevelsOf | src/investments/snapshot/snapshot.builder.ts:80-229 | `buildLevels`; its contract is `LevelsShape`: nothing for an unknown token, otherwise min(3, n) levels per side in ascending price order, each showing the book |
| SnapshotBuilding.LevelsShape | src/investments/snapshot/snapshot.builder.ts:80-229 | `buildLevels`: nothing for an unknown token; otherwise min(3, n) levels per side in ascending price order, each showing the book, with both central levels present |
| SnapshotBuilding.RowFromPricesNonEmpty | src/investments/snapshot/snapshot.builder.ts:246-311 | the row is non-empty exactly when the central prices and their neighbours exist and the two depths do not sum to 0 |
| SnapshotBuilding.RowFromPricesEntries | src/investments/snapshot/snapshot.builder.ts:246-311 | a produced row has four entries: the nearest bid below central BUY, central SELL, central BUY, and the nearest ask above central SELL; the probabilities are the depth shares and sum to 1 |
| SnapshotBuilding.RowForNonEmpty | src/investments/snapshot/snapshot.builder.ts:246-311 | the same iff, over the book's sorted prices |
| SnapshotBuilding.RowForEntries | src/investments/snapshot/snapshot.builder.ts:246-311 | the same four entries, over the book's sorted prices |
| SnapshotBuilding.ProbabilityRow | src/investments/snapshot/snapshot.builder.ts:246-311 | `buildProbabilityRow`; its contract is `ProbabilityRowMeaning`, `RowFromPricesNonEmpty` and `RowFromPricesEntries`: a row exactly when `RowDefined` holds, with four entries whose depth shares sum to 1 |
| SnapshotBuilding.ProbabilityRowMeaning | src/investments/snapshot/snapshot.builder.ts:246-311 | `buildProbabilityRow` yields a row exactly when `RowDefined` holds, and that row is `RowFor` the token's book and central prices |
| SnapshotBuilding.SnapshotBuilder.BuildLevels | src/investments/snapshot/snapshot.builder.ts:80-229 | returns `LevelsOf` the stores; the central store only gains the default entry `get` creates |
| SnapshotBuilding.RowOfState | src/investments/snapshot/snapshot.builder.ts:246-311 | once the token's depth and central entry are read, the method computes `ProbabilityRow` |
| SnapshotBuilding.SnapshotBuilder.BuildProbabilityRow | src/investments/snapshot/snapshot.builder.ts:246-311 | returns `ProbabilityRow` of the stores |
| SnapshotBuilding.TokenSnapshotOf | src/investments/snapshot/snapshot.builder.ts:64-74 | `buildTokenSnapshot` over the stores; its parts carry the contracts `LevelsShape` and `ProbabilityRowMeaning`, and the central entry is `EntryOf` the store |
| SnapshotBuilding.SnapshotBuilder.BuildTokenSnapshot | src/investments/snapshot/snapshot.builder.ts:64-74 | returns `TokenSnapshotOf` the stores; the only change to the central store is a default entry for the symbol when it had none |
| SnapshotBuilding.SnapshotBuilder.BuildFullSnapshot | src/investments/snapshot/snapshot.builder.ts:48-59 | one snapshot per token with active orders; the central entries seen through `get` are unchanged |
| BuyDecision.NotActive | src/investments/bot/actions/buy/getPendingTokens.ts:15-17 | exactly the allowed tokens that are not active |
| BuyDecision.NotActiveKeepsOrder | src/investments/bot/actions/buy/getPendingTokens.ts:15-17 | the pending tokens keep the allow-list order and have no duplicates |
| BuyDecision.GetPendingTokens | src/investments/bot/actions/buy/getPendingTokens.ts:4-21 | no state means no pending tokens; otherwise a token is pending exactly when it is allowed and not active, and the pending tokens keep the allow-list's order without duplicates |
| BuyDecision.PendingSplitsAllowed | src/investments/bot/actions/buy/getPendingTokens.ts:4-21 | a token is pending exactly when it is allowed and inactive; without either state the list is empty |
| BuyDecision.LexLeTotal | src/investments/bot/actions/buy/determineBuyPrice.ts:11 | the default `sort` order, which compares UTF-16 code units, is total |
| BuyDecision.LexLeTransitive | src/investments/bot/actions/buy/determineBuyPrice.ts:11 | the default `sort` order is transitive |
| BuyDecision.FirstSorted | src/investments/bot/actions/buy/determineBuyPrice.ts:11-12 | `sort()[0]` is a member that sorts before or equal to every other in UTF-16 code-unit order |
| BuyDecision.SurrogatesSortFirst | src/investments/bot/actions/buy/determineBuyPrice.ts:11-12 | the order is that of code units, not code points: of U+FF5E and U+1F600, `sort()[0]` is U+1F600 |
| BuyDecision.DetermineBuyPrice | src/investments/bot/actions/buy/determineBuyPrice.ts:11-49 | no pending token means failure; a success buys the least token in sort order, at the best bid when at least 70 000 rest on it and at the second bid otherwise, for `floor(usd / price)` units |
| BuyDecision.BuyFailsOnlyForCause | src/investments/bot/actions/buy/determineBuyPrice.ts:11-40 | failure happens exactly when there is no token, a book level is missing, or the chosen price is 0 |
| BuyDecision.QuantityMonotone | src/investments/bot/actions/buy/determineBuyPrice.ts:40-41 | at a positive price, more dollars never buy fewer units |
| TradingView.Head3 | src/trading/state.builder.ts:48-49 | `slice(0, 3)` keeps min(3, n) quotes |
| TradingView.Padded | src/trading/state.builder.ts:48-52 | exactly three slots |
| TradingView.PadToThree | src/trading/state.builder.ts:51-52 | the padding loop computes `Padded` |
| TradingView.OrdersAtPriceMeaning | src/trading/state.builder.ts:60-71 | exactly the orders at that price show up, whatever their token: the i-th view is that of the order at the i-th position holding the price (`PositionsAt`, increasing and onto those positions) |
| TradingView.PositionsAt | src/trading/state.builder.ts:60-71 | the positions of the orders at a price, in increasing order and each one of them |
| TradingView.ViewsFollowPositions | src/trading/state.builder.ts:60-71 | the i-th view at a price is that of the order at the i-th such position |
| TradingView.SixLevels | src/trading/state.builder.ts:45-99 | `buildSixLevels`; its contract is `SixLevelsShape`: three sorted padded BUY levels, then the three asks, each showing its slot |
| TradingView.SixLevelsShape | src/trading/state.builder.ts:45-99 | six levels: three BUY levels, a permutation of the padded bids sorted ascending with pads last, then the three asks in their order; each shows its slot faithfully |
| TradingView.BuildSixLevels | src/trading/state.builder.ts:45-99 | the method computes `SixLevels` |
| TradingView.ProbabilityRowOf | src/trading/state.builder.ts:104-146 | `buildProbabilityRow`; its contract is `ProbabilityRowShape`: empty exactly when a side is empty or the top amounts sum to 0, four entries otherwise |
| TradingView.ProbabilityRowShape | src/trading/state.builder.ts:104-146 | the row is empty exactly when a side is empty or the top amounts sum to 0; otherwise four entries whose probabilities are the two shares, and a second bid or ask price is present exactly when it exists |
| TradingView.TokensOf | src/trading/state.builder.ts:23-33 | `extractTokens`; its contract is `TokensOfMeaning`: a token is listed exactly when the depth map has it or an order carries it |
| TradingView.TokensOfMeaning | src/trading/state.builder.ts:23-33 | a token is listed exactly when the depth map has it or an order carries it as a non-empty token |
| TradingView.AddOrderTokens | src/trading/state.builder.ts:29-30 | the loop adds the truthy tokens of the list |
| TradingView.ExtractTokens | src/trading/state.builder.ts:23-33 | the method computes `TokensOf` |
| TradingView.MissingDepthShowsPads | src/trading/state.builder.ts:16 | a token without depth shows six pads and no probability row |
| TradingView.BuildState | src/trading/state.builder.ts:7-21 | one view per extracted token, built from its depth or an empty book |
| TradingDesk.FirstQuoteIndex | src/trading/trading.service.ts:164 | `levels.find` by price (also the search at line 429): the first quote at the price, or none exactly when no quote has it |
| TradingDesk.WithDepth | src/trading/trading.service.ts:161-191 | `processDepthForOrder` on one record; its contract is `WithDepthMeaning` and `WithDepthWithoutQuote`: both bounds become max(quote − amount, 0) and the position the list length when the side has a quote at the price, and nothing changes otherwise |
| TradingDesk.WithDepthMeaning | src/trading/trading.service.ts:161-191 | when the first quote at the order's price on its side is the j-th, both bounds become max(quote − amount, 0), the position becomes the list length, and the order's identity fields are kept |
| TradingDesk.WithDepthWithoutQuote | src/trading/trading.service.ts:163-169 | without a quote at the order's price the order is unchanged |
| TradingDesk.IndexOfId | src/trading/trading.service.ts:100 | `findIndex`: the first record holding the id, and `None` exactly when no record has it |
| TradingDesk.RemoveFirstId | src/trading/trading.service.ts:98-114 | `findIndex` then `splice`; its contract is `RemoveFirstIdMeaning`: exactly the first record with the id goes and the others keep their order |
| TradingDesk.RemoveFirstIdMeaning | src/trading/trading.service.ts:98-114 | exactly the first record with the id is removed, and the other records keep their order |
| TradingDesk.AfterTradeAll | src/trading/trading.service.ts:134-144 | one record out per record in |
| TradingDesk.AfterTrade | src/trading/trading.service.ts:134-144 | a trade on one record; its contract is `TradeTouchesOnlyMatching` and `TradesAccumulate`: only a record of that token and price changes, in `min_delante`, which drops by the quantity |
| TradingDesk.TradeTouchesOnlyMatching | src/trading/trading.service.ts:134-144 | only records of that token and price change, and only in `min_delante`, which drops by the traded quantity (from 0 when unset) |
| TradingDesk.ApplyTrade | src/trading/trading.service.ts:134-144 | the in-place loop over the chosen list leaves exactly `AfterTradeAll` of it |
| TradingDesk.TradesAccumulate | src/trading/trading.service.ts:134-144 | two trades on a level lower the bound by their sum |
| TradingDesk.TopQuotes | src/trading/trading.service.ts:409-422 | at most six shown quotes |
| TradingDesk.Touch | src/trading/trading.service.ts:426-441 | a depth event on one record; its contract is `MaxDelanteNeverIncreases` and `TouchAllKeepsTokens`: only `max_delante` of the token's orders at a shown price changes, and it never grows |
| TradingDesk.MaxDelanteNeverIncreases | src/trading/trading.service.ts:426-441 | `max_delante` only changes for the token's orders at a shown price; it becomes set and never grows, and it ends at or below the shown amount |
| TradingDesk.TouchAll | src/trading/trading.service.ts:426-450 | one record out per record in |
| TradingDesk.BareLevels | src/trading/trading.service.ts:409-422 | one bare level per shown quote |
| TradingDesk.StreamLevels | src/trading/trading.service.ts:405-450 | one broadcast level per shown quote |
| TradingDesk.TouchAllKeepsTokens | src/trading/trading.service.ts:426-441 | depth events keep every record's token |
| TradingDesk.AfterTradeKeepsTokens | src/trading/trading.service.ts:134-144 | trades keep every record's token |
| TradingDesk.TouchList | src/trading/trading.service.ts:424-450 | the loop over one list computes `TouchAll` and appends each matching record's view to its level |
| TradingDesk.TradingService.constructor | src/trading/trading.service.ts:17-35 | no orders, no active tokens, no streams |
| TradingDesk.TradingService.CollectTokens | src/trading/trading.service.ts:226-231 | the truthy tokens of both order lists |
| TradingDesk.TradingService.CollectedTokensAreActive | src/trading/trading.service.ts:64-93 | under the service invariant every order's token is active |
| TradingDesk.TradingService.EnsureStreamsForSymbol | src/trading/trading.service.ts:276-282 | the symbol is active with both streams open; the orders are unchanged |
| TradingDesk.TradingService.CleanupStreamsIfNoOrders | src/trading/trading.service.ts:284-294 | the symbol stays active exactly when some order still has it |
| TradingDesk.TradingService.HandleNewOrder | src/trading/trading.service.ts:64-93 | the symbol becomes active; the new record is appended to its side's list and gets its depth estimate |
| TradingDesk.TradingService.ProcessDepthForOrder | src/trading/trading.service.ts:161-191 | the last record of the side becomes `WithDepth` of it |
| TradingDesk.TradingService.HandleCanceledOrder | src/trading/trading.service.ts:98-114 | an unknown id changes nothing; otherwise the first record with the id is removed and the symbol's streams are cleaned up |
| TradingDesk.TradingService.HandleTradeOrder | src/trading/trading.service.ts:119-156 | the maker flag picks the BUY list, otherwise the SELL list; that list becomes `AfterTradeAll`; streams are unchanged |
| TradingDesk.TradingService.HandleDepthStreamEvent | src/trading/trading.service.ts:405-465 | both lists become `TouchAll`; the broadcast levels are `StreamLevels` of the old lists and the row is `ProbabilityRowOf` the depth |
| TradingDesk.TradingService.OnDepthMessage | src/trading/trading.service.ts:300-311 | a message for a token outside the allow-list is dropped; otherwise it is handled |
| TradingDesk.TradingService.HandleEvent | src/trading/trading.service.ts:47-59 | NEW, CANCELED and TRADE each leave the full state their handler promises (order lists, active tokens and, through `Valid`, the streams); other events change nothing |
| JsNumber.Floor | src/auth/utils/jwt-sign.ts:28-32 | `Math.floor`: the greatest integer not above x |
| JsNumber.Trunc | src/auth/utils/bcrypt-hasher.ts:14 | `Math.trunc` rounds toward zero |
| JsNumber.TruncInRange | src/auth/utils/bcrypt-hasher.ts:14-22 | for positive bounds, trunc(x) is in lo..hi exactly when lo ≤ x < hi + 1 |
| Text.TrimStart | src/auth/auth.service.ts:270 | drops exactly a leading run of white space |
| Text.TrimEnd | src/auth/auth.service.ts:270 | drops exactly a trailing run of white space |
| Text.TrimMeaning | src/auth/auth.service.ts:54 | `trim` keeps a contiguous middle bordered only by white space, with no white space at either end |
| Text.TrimEmptyIff | src/auth/auth.service.ts:58 | a string trims to empty exactly when it is all white space |
| Text.TrimIdempotent | src/auth/auth.service.ts:334 | trimming twice is trimming once |
| Text.TrimOfTrimmed | src/auth/auth.service.ts:334 | a string without white space at either end is its own trim |
| Text.DecimalOf | src/auth/auth.service.ts:271 | the decimal digits of a number |
| Text.DecimalOfValue | src/auth/auth.service.ts:277 | reading the decimal digits of n back gives n |
| Text.LeadingDigits | src/auth/auth.service.ts:271 | the leading run of `\d`, followed by a non-digit or the end |
| Text.LeadingDigitsOfSplit | src/auth/auth.service.ts:271 | digits followed by a text that does not start with a digit split exactly there |
| Text.LowerChar | src/auth/auth.service.ts:66 | lower-casing a character leaves no capital and keeps white space |
| Text.ToLower | src/auth/auth.service.ts:66 | `toLowerCase` works character by character |
| Text.ToLowerMeaning | src/auth/auth.service.ts:171 | a lower-cased string has no capitals, and lower-casing is idempotent |
| Text.FirstIndex | src/auth/auth.service.ts:16 | the first position of a character, `None` exactly when it is absent |
| Text.CodeUnits | src/investments/bot/actions/buy/determineBuyPrice.ts:11 | a JavaScript string stores each character as one code unit below U+10000 and as a high and a low surrogate above |
| Text.CodeUnitsRoundTrip | src/investments/bot/actions/buy/determineBuyPrice.ts:11 | the code units read back give the character |
| Text.Utf16OfBasicPlane | src/investments/bot/actions/buy/determineBuyPrice.ts:11 | a string without characters above U+FFFF is stored as its code points, so for such symbols the order is that of code points |
| Base64.Sextets | src/auth/utils/jwt-sign.ts:3-9 | the six-bit groups of the bytes, each below 64 |
| Base64.BytesOfSextets | src/auth/utils/jwt-sign.ts:3-9 | regrouping the six-bit groups gives back the bytes |
| Base64.StdChar | src/auth/auth.service.ts:315-321 | the standard alphabet: letters, digits, `+` and `/` |
| Base64.UrlChar | src/auth/auth.service.ts:315-321 | the URL-safe alphabet: letters, digits, `-` and `_` |
| Base64.Padding | src/auth/utils/jwt-sign.ts:5 | `=` padding up to a multiple of four characters |
| Base64.StdEncode | src/auth/utils/jwt-sign.ts:4-5 | `Buffer.toString('base64')`; its contract is `EncodedLengths` and `ToUrlSafeOfStd`: 4⌈n/3⌉ characters, which the URL-safe edits turn into the unpadded URL-safe encoding |
| Base64.EncodedLengths | src/auth/utils/jwt-sign.ts:3-9 | standard base64 has 4⌈n/3⌉ characters; the unpadded URL-safe form has ⌈4n/3⌉ |
| Base64.UrlEncodeIsUrlSafe | src/auth/utils/jwt-sign.ts:3-9 | an encoded segment holds no `=`, `+`, `/` or `.` |
| Base64.UrlValues | src/auth/utils/jwt-sign.ts:3-9 | decoding characters to six-bit values, or `None` on a foreign character |
| Base64.UrlRoundTrip | src/auth/utils/jwt-sign.ts:3-9 | decoding undoes encoding |
| Base64.UrlEncodeInjective | src/auth/utils/jwt-sign.ts:3-9 | different bytes give different segments |
| Base64.RemoveAll | src/auth/utils/jwt-sign.ts:6 | `replace(/=/g, '')` leaves no `=` |
| Base64.ReplaceAll | src/auth/utils/jwt-sign.ts:7-8 | `replace(/x/g, y)` changes exactly the occurrences of x |
| Base64.StripTrailing | src/auth/auth.service.ts:318 | `replace(/=+$/, '')` keeps a prefix |
| Base64.StripPadding | src/auth/auth.service.ts:318 | stripping a trailing run of `=` removes exactly the padding |
| Base64.ToUrlSafeOfStd | src/auth/auth.service.ts:315-329 | on standard base64, the global and the trailing `=` removal both give the unpadded URL-safe encoding |
| JwtSign.SignJwt | src/auth/utils/jwt-sign.ts:15-50 | an empty secret fails; a non-finite or non-positive lifetime fails; otherwise it succeeds |
| JwtSign.SplitOn | src/auth/utils/jwt-sign.ts:42-50 | splitting yields at least one piece |
| JwtSign.JoinSplit | src/auth/utils/jwt-sign.ts:42-50 | three URL-safe segments joined by `.` split back into themselves, with exactly two dots |
| JwtSign.Base64UrlEncode | src/auth/utils/jwt-sign.ts:3-9 | `base64UrlEncode`; its contract is `Base64.ToUrlSafeOfStd` and `SegmentDecodes`: the unpadded URL-safe encoding, whose segments decode back to the bytes |
| JwtSign.SegmentDecodes | src/auth/utils/jwt-sign.ts:3-9 | each segment is URL-safe and decodes to its bytes |
| JwtSign.SignedTokenShape | src/auth/utils/jwt-sign.ts:20-50 | a signed token has three segments, which decode to the header, the claims with iat and exp, and the HMAC of the first two; exp ≥ iat |
| JwtSign.ExpiryAfterIssue | src/auth/utils/jwt-sign.ts:28-33 | exp > iat exactly when the lifetime is at least one second |
| BcryptHasher.TruncNum | src/auth/utils/bcrypt-hasher.ts:14 | `Math.trunc` keeps NaN and the infinities |
| BcryptHasher.GenerateBcryptHash | src/auth/utils/bcrypt-hasher.ts:6-25 | an empty password fails; a success hashes the password with the truncated cost in 4..31, or 12 when the cost is omitted |
| BcryptHasher.CostAcceptedIff | src/auth/utils/bcrypt-hasher.ts:14-22 | a non-empty password is hashed exactly when the cost is omitted or is a finite number in [4, 32) |
| BcryptHasher.DefaultCostIsTwelve | src/auth/utils/bcrypt-hasher.ts:8 | the default cost is 12 |
| BcryptHasher.FractionalCostTruncates | src/auth/utils/bcrypt-hasher.ts:14-22 | 4.9 hashes with 4 rounds; 3.9 is refused |
| Auth.UnitMultiplier | src/auth/auth.service.ts:278-292 | every accepted unit has a positive multiplier and neither starts with a digit nor borders on white space |
| Auth.ParseDuration | src/auth/auth.service.ts:269-295 | `parseDurationToMilliseconds`; its contract is `ParseDurationMeaning`, `ParseDurationAcceptsOnlyDigitsAndUnit` and `DurationRoundTrip`: it accepts exactly a digit run and a known unit, and its value is their product |
| Auth.ParseDurationMeaning | src/auth/auth.service.ts:269-295 | digits then a unit give digits × the unit's milliseconds (minutes when the unit is omitted); an unknown unit fails |
| Auth.ParseDurationAcceptsOnlyDigitsAndUnit | src/auth/auth.service.ts:269-295 | every accepted text is a non-empty digit run followed by a known unit, and its value is their product |
| Auth.DurationRoundTrip | src/auth/auth.service.ts:269-295 | writing n with a unit and parsing it back gives n × the multiplier |
| Auth.RefreshLifetimeMs | src/auth/auth.service.ts:224-231 | the refresh lifetime succeeds exactly when the variable is set, parses and is above 0 ms |
| Auth.AccessLifetimeSeconds | src/auth/auth.service.ts:211-219 | the access lifetime succeeds exactly when the variable is set, parses and is at least 1000 ms; it is the whole seconds of the duration |
| Auth.SubSecondLifetime | src/auth/auth.service.ts:211-231 | any lifetime of 1 to 999 ms (such as "999ms") is a valid refresh lifetime but is refused as an access lifetime |
| Auth.MinutesLifetime | src/auth/auth.service.ts:211-222 | n minutes (such as "15m") give an access lifetime of 60n seconds |
| Auth.IsEmail | src/auth/auth.service.ts:16 | `EMAIL_REGEX.test`; its contract is `IsEmailMeaning`: it accepts exactly what the expression matches |
| Auth.IsEmailMeaning | src/auth/auth.service.ts:16 | the e-mail check accepts exactly what `EMAIL_REGEX` matches |
| Auth.CheckLoginInput | src/auth/auth.service.ts:50-66 | each error holds exactly in its case (no body; empty e-mail or blank password; bad format); a success yields the trimmed, lower-cased e-mail |
| Auth.CheckRegisterInput | src/auth/auth.service.ts:151-171 | each error holds exactly in its case, including a password shorter than 8 |
| Auth.NormalizedEmail | src/auth/auth.service.ts:54-66 | the normalised e-mail has no surrounding white space and no capitals |
| Auth.BlankPasswordRegistersButCannotLogIn | src/auth/auth.service.ts:58-167 | a password of eight spaces passes the register checks but fails the login checks |
| Auth.Prefix | src/auth/auth.service.ts:335 | `slice(0, n)` keeps a prefix of at most n characters |
| Auth.NormalizeIp | src/auth/auth.service.ts:332-336 | the trimmed address cut to 255 characters, or `unknown` when it is absent or blank |
| Auth.NormalizeUserAgent | src/auth/auth.service.ts:338-344 | `null` when absent or empty; otherwise a non-empty prefix of at most 255 characters |
| Auth.NormalizeUserAgentIdempotent | src/auth/auth.service.ts:338-344 | normalising a user agent twice changes nothing |
| Auth.NormalizeIpExamples | src/auth/auth.service.ts:332-336 | a blank address is recorded as `unknown`, and a short one is recorded trimmed |
| Auth.RefreshToken | src/auth/auth.service.ts:224-237 | succeeds exactly when the refresh lifetime does |
| Auth.RefreshTokenShape | src/auth/auth.service.ts:233-235 | 64 random bytes give 86 URL-safe characters that decode back to them |
| Auth.AccessToken | src/auth/auth.service.ts:211-222 | succeeds exactly when the access lifetime is valid and the secret is set |
| Auth.EncodeSegment | src/auth/auth.service.ts:315-329 | the service's `base64UrlEncode` and `toBase64Url`; its contract is `EncodeSegmentIsUrlEncode`: the unpadded URL-safe encoding, equal to jwt-sign's encoder, which `Base64.UrlRoundTrip` decodes back |
| Auth.EncodeSegmentIsUrlEncode | src/auth/auth.service.ts:315-329 | the service's encoder equals the unpadded URL-safe encoding and `jwt-sign.ts`'s encoder |
| Auth.EncodersAgreeOnToken | src/auth/auth.service.ts:302-312 | both encoders give the same data and signature |
| Auth.ServiceSignJwt | src/auth/auth.service.ts:297-313 | `signJwt` of the service; its contract is `ServiceSignJwtIsStandard` and `SignersAgree`: the three-segment token of the header, the claims with `iat` and `exp` and their HMAC, identical to what `signJwt` of jwt-sign returns for a whole positive lifetime and a set secret |
| Auth.ServiceSignJwtIsStandard | src/auth/auth.service.ts:297-313 | the service's signer builds the standard token |
| Auth.SignJwtIsStandard | src/auth/utils/jwt-sign.ts:15-50 | the stand-alone signer builds the standard token |
| Auth.SignersAgree | src/auth/auth.service.ts:297-313 | for a whole positive lifetime and a set secret, the service's signer and `signJwt` produce the same token |
| Auth.Login | src/auth/auth.service.ts:46-148 | `login`; its contract is `LoginMeaning`: an attempt is recorded exactly when the input passes, a refusal exactly when the user is unknown, inactive, deleted or the password is wrong, and tokens exactly for an accepted user |
| Auth.LoginMeaning | src/auth/auth.service.ts:46-148 | an attempt is recorded exactly when the input passes, with the normalised fields and success exactly when the user is active, not deleted and the password matches; a refusal happens exactly when the user is not accepted; tokens are issued exactly when the user is accepted and the configuration is valid |
| Auth.Register | src/auth/auth.service.ts:150-170 | a failed input check is returned as is |
| Auth.RegisterMeaning | src/auth/auth.service.ts:173-183 | a conflict happens exactly when a user holds the e-mail and is active or not deleted; otherwise the password is hashed with cost 12 under the normalised e-mail |

## Findings

| source | as written | input that shows it | evidently intended | confidence | as-written member | corrected member |
|---|---|---|---|---|---|---|
| src/investments/logic/state-updater.logic.ts:196-202 | `findOrderById` compares `ordersAtSide[price].id` with the id, but the entry is an `ActiveOrder[]`, whose `id` is `undefined`; it returns `null` for every stored order | order 7 stored at BTCUSDT BUY 100, then `findOrderById(7)` | find the order with that id inside the price's list | not executed | StateUpdater.StateUpdaterLogic.FindOrderByIdAsWritten, StateUpdater.StoredOrderMissedAsWritten | StateUpdater.StateUpdaterLogic.FindOrderById |
| src/investments/logic/state-updater.logic.ts:217-223 | `cancelOrder` never finds the order, so it only logs "not found" and returns | order 7 stored at BTCUSDT BUY 100, then `cancelOrder(7)` | remove the order's price entry and clean up the token or refresh its depth | not executed | StateUpdater.StateUpdaterLogic.CancelOrderAsWritten | StateUpdater.StateUpdaterLogic.CancelOrder |
| src/investments/logic/state-updater.logic.ts:268-274 | `applyPartialFill` never finds the order, so no fill is ever recorded | order 7 stored at BTCUSDT BUY 100, then `applyPartialFill(7, 1)` | add the fill to the order and reduce its pending amount | not executed | StateUpdater.StateUpdaterLogic.ApplyPartialFillAsWritten | StateUpdater.StateUpdaterLogic.ApplyPartialFill |
| src/investments/logic/state-updater.logic.ts:345-353 | `combined` sums two `undefined` properties of the array, so it is `NaN`, `newDepth < combined` is false and no queue position changes; the SELL loop at 366-374 is the same | order 7 at BTCUSDT BUY 100 with queue 5 and pending 2, then a bid delta `[100, 1]` | shrink each order's queue to max(newDepth − pending, 0) when the new depth is below queue + pending | not executed | StateUpdater.StateUpdaterLogic.UpdateQueuePositionsAfterDepthDeltaAsWritten, StateUpdater.ReestimateEntryAsWritten, StateUpdater.StaleQueueAsWritten | StateUpdater.StateUpdaterLogic.UpdateQueuePositionsAfterDepthDelta |
| src/investments/snapshot/snapshot.builder.ts:180-189 | `userOrders` gets one entry whenever the price has an entry, built from the array's `id`, `pending_amount` and `queue_position`, which are all `undefined`; the SELL loop at 204-214 is the same | orders 7 and 8 resting at BTCUSDT BUY 100 | one entry per order at the price, with its id, pending amount and queue position | not executed | SnapshotBuilding.UserOrdersAtAsWritten, SnapshotBuilding.UserOrdersLostAsWritten | SnapshotBuilding.SideLevelsFaithful |

## Left out

- **I/O and the exchange.** HTTP depth fetches (`fetchDepth`, `fetchDepths`, `buildDepthMap`), WebSocket connections, message parsing, `console.log` and the gateway broadcasts are left out. Fetched depth is a parameter, and stream calls are recorded in a log.
- **The `depthByToken` cache** of `TradingService` is not kept, since only the gateway reads it. `getFormattedState` and `getStreamsStatus` are left out for the same reason.
- **`handleTradeOrder`'s `extractMarketAmount` and `updateDepthLevel`.** They only feed the broadcast, so they are not modelled.
- **`order.symbol ?? order.s` and the other field aliases.** The model reads one field per value.
- **Numbers.**
  - Prices are integer ticks and quantities are exact reals, so floating-point rounding, `toFixed(5)` and string price keys are not modelled.
  - `normalizePriceKey` is the identity.
  - `Number()` of a malformed string is not modelled, except where the source tests for NaN or infinity (bcrypt cost, JWT lifetime, delta prices).
- **Strings.** JavaScript object key order is not modelled: the snapshot code sorts its keys, and `findOrderById` and the id searches are stated for any visiting order. `slice` and `length` count characters rather than UTF-16 code units, and `toLowerCase` is modelled on ASCII letters only. The default `sort()` of token symbols does compare UTF-16 code units (`Text.Utf16`).
- **Concurrency.** Interleavings between awaited calls are left out; each handler runs to completion.
- **The database (Prisma).**
  - Login: the session row, `lastLogin`, the attempt's `userId` and the hashing of the refresh token are left out.
  - Register: the unique-constraint race (`P2002`) is left out.
  - User lookup and password verification are function parameters.
- **Crypto and JSON.** bcrypt, HMAC-SHA256, UTF-8 encoding and `JSON.stringify` are parameters; `randomBytes` is an input.
- **Environment.** Environment variables are inputs (an empty string stands for "undefined"). The module-load environment checks are left out.
- **Singletons that the source calls but never defines.** `DepthState.getInstance`, `AllowedTokensState.getInstance` and `ActiveTokensState.getInstance` are replaced by passing the state in, with an `Option` where the source tests for `null`.
- **`BuyDecision.DetermineBuyPrice`:**
  - A zero chosen price is reported as a failure. The source returns `Infinity` units in that case.
  - With no pending token the source requests the book of `undefined`; the model fails at once.
- **`Auth.Register`:**
  - The contract does not state the user row that is written. `RegisterMeaning` states the e-mail and the hash call.
  - A password of spaces passes registration but can never log in (`BlankPasswordRegistersButCannotLogIn`). The model keeps this behaviour as written.
- **`Auth.ParseDurationMeaning`:** the digit value is exact, whereas `Number()` of a very long digit run loses precision.
- **`TradingView.OrdersAtPriceMeaning`:** each token's view includes orders of every token at that price, because `buildSixLevels` filters only by price. The model keeps this behaviour.
- **The unreachable code of the `AsWritten` methods.** After the lookup in `CancelOrderAsWritten` and `ApplyPartialFillAsWritten`, and in the `setOrder` branch of `UpdateQueuePositionsAfterDepthDeltaAsWritten`, the code cannot be reached: each such branch holds only `assert false`. `CancelOrder`, `ApplyPartialFill` and `ReestimateOrdersAt` model that code for the intended reading.
- **`Streams.StreamLog`:** records the open and close calls only, not the sockets, their reconnect handlers or the lower-cased connection keys.
