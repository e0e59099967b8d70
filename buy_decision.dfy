/** The buy side of the bot: which allowed tokens have no live orders yet
    (`getPendingTokens`), and at what price and quantity to buy the first of
    them (`determineBuyPrice`). */
module BuyDecision {
  import opened Wrappers
  import opened TokenSets
  import opened Text

  // ---------------------------------------------------------------- getPendingTokens

  /** The allowed tokens that are not active, in allow-list order. */
  function NotActive(allowed: seq<string>, active: seq<string>): (r: seq<string>)
    ensures forall t :: t in r <==> t in allowed && t !in active
    ensures |r| <= |allowed|
    decreases |allowed|
  {
    if allowed == [] then []
    else
      assert forall t :: t in allowed <==> t == allowed[0] || t in allowed[1..];
      (if allowed[0] in active then [] else [allowed[0]]) + NotActive(allowed[1..], active)
  }

  /** The tail of a duplicate-free list is duplicate-free and lacks the head. */
  lemma DistinctTail(s: seq<string>)
    requires s != [] && NoDuplicates(s)
    ensures NoDuplicates(s[1..]) && s[0] !in s[1..]
  {
    var tail := s[1..];
    forall i, j | 0 <= i < j < |tail| ensures tail[i] != tail[j] {
      assert tail[i] == s[i + 1] && tail[j] == s[j + 1];
    }
    forall k | 0 <= k < |tail| ensures tail[k] != s[0] {
      assert tail[k] == s[k + 1];
    }
  }

  /** The pending tokens of a duplicate-free allow-list have no duplicates. */
  lemma {:induction false} NotActiveDistinct(allowed: seq<string>, active: seq<string>)
    requires NoDuplicates(allowed)
    ensures NoDuplicates(NotActive(allowed, active))
    decreases |allowed|
  {
    if allowed != [] {
      var tail := allowed[1..];
      DistinctTail(allowed);
      NotActiveDistinct(tail, active);
      var rest := NotActive(tail, active);
      var head := if allowed[0] in active then [] else [allowed[0]];
      var r := head + rest;
      forall i, j | 0 <= i < j < |r| ensures r[i] != r[j] {
        if i < |head| {
          assert r[j] == rest[j - 1] && rest[j - 1] in tail;
        } else {
          assert r[i] == rest[i - |head|] && r[j] == rest[j - |head|];
        }
      }
    }
  }

  /** `r` is `s` with some entries left out, the rest in the same order. */
  predicate IsSubsequence(r: seq<string>, s: seq<string>)
    decreases |s|
  {
    if r == [] then true
    else if s == [] then false
    else if r[0] == s[0] then IsSubsequence(r[1..], s[1..])
    else IsSubsequence(r, s[1..])
  }

  /** The pending tokens keep the allow-list's order and have no duplicates. */
  lemma {:induction false} NotActiveKeepsOrder(allowed: seq<string>, active: seq<string>)
    requires NoDuplicates(allowed)
    ensures NoDuplicates(NotActive(allowed, active))
    ensures IsSubsequence(NotActive(allowed, active), allowed)
    decreases |allowed|
  {
    NotActiveDistinct(allowed, active);
    if allowed != [] {
      var tail := allowed[1..];
      DistinctTail(allowed);
      NotActiveKeepsOrder(tail, active);
      var rest := NotActive(tail, active);
      if allowed[0] in active {
        assert NotActive(allowed, active) == rest;
        assert rest != [] ==> rest[0] in tail;
      } else {
        var r := [allowed[0]] + rest;
        assert NotActive(allowed, active) == r;
        assert r[1..] == rest;
      }
    }
  }

  /** `getPendingTokens`: the allowed tokens without an active stream, or none
      when either token state is not available. */
  function GetPendingTokens(allowed: Option<seq<string>>, active: Option<seq<string>>): (r: seq<string>)
    ensures allowed.None? || active.None? ==> r == []
    ensures allowed.Some? && active.Some? ==> forall t :: t in r <==> t in allowed.value && t !in active.value
    ensures allowed.Some? && active.Some? && NoDuplicates(allowed.value) ==>
      NoDuplicates(r) && IsSubsequence(r, allowed.value)
  {
    if allowed.None? || active.None? then []
    else
      if NoDuplicates(allowed.value) then
        NotActiveKeepsOrder(allowed.value, active.value);
        NotActive(allowed.value, active.value)
      else NotActive(allowed.value, active.value)
  }

  /** A token is pending exactly when it is allowed and not active, so the
      pending and the active tokens split the allow-list. */
  lemma PendingSplitsAllowed(allowed: seq<string>, active: seq<string>)
    ensures forall t :: t in GetPendingTokens(Some(allowed), Some(active)) <==> t in allowed && t !in active
    ensures forall t :: t in allowed ==> (t in GetPendingTokens(Some(allowed), Some(active)) <==> t !in active)
    ensures GetPendingTokens(None, Some(active)) == [] && GetPendingTokens(Some(allowed), None) == []
  {
  }

  // ---------------------------------------------------------------- determineBuyPrice

  /** `a` sorts before or equal to `b` in `Array.prototype.sort`'s default
      order: UTF-16 code unit by code unit, a proper prefix first. */
  predicate LexLe(a: string, b: string) {
    UnitsLe(Utf16(a), Utf16(b))
  }

  predicate UnitsLe(a: seq<int>, b: seq<int>)
    decreases |a|
  {
    a == [] || (b != [] && (a[0] < b[0] || (a[0] == b[0] && UnitsLe(a[1..], b[1..]))))
  }

  lemma {:induction false} UnitsLeTotal(a: seq<int>, b: seq<int>)
    ensures UnitsLe(a, b) || UnitsLe(b, a)
    decreases |a|
  {
    if a != [] && b != [] && a[0] == b[0] {
      UnitsLeTotal(a[1..], b[1..]);
    }
  }

  lemma {:induction false} UnitsLeReflexive(a: seq<int>)
    ensures UnitsLe(a, a)
    decreases |a|
  {
    if a != [] {
      UnitsLeReflexive(a[1..]);
    }
  }

  lemma {:induction false} UnitsLeTransitive(a: seq<int>, b: seq<int>, c: seq<int>)
    requires UnitsLe(a, b) && UnitsLe(b, c)
    ensures UnitsLe(a, c)
    decreases |a|
  {
    if a != [] && a[0] == b[0] && b[0] == c[0] {
      UnitsLeTransitive(a[1..], b[1..], c[1..]);
    }
  }

  lemma LexLeTotal(a: string, b: string)
    ensures LexLe(a, b) || LexLe(b, a)
  {
    UnitsLeTotal(Utf16(a), Utf16(b));
  }

  lemma LexLeReflexive(a: string)
    ensures LexLe(a, a)
  {
    UnitsLeReflexive(Utf16(a));
  }

  lemma LexLeTransitive(a: string, b: string, c: string)
    requires LexLe(a, b) && LexLe(b, c)
    ensures LexLe(a, c)
  {
    UnitsLeTransitive(Utf16(a), Utf16(b), Utf16(c));
  }

  /** The first token of the sorted list: the least one in that order. */
  function FirstSorted(tokens: seq<string>): (r: string)
    requires tokens != []
    ensures r in tokens
    ensures forall t :: t in tokens ==> LexLe(r, t)
    decreases |tokens|
  {
    if |tokens| == 1 then
      LexLeReflexive(tokens[0]);
      tokens[0]
    else
      var m := FirstSorted(tokens[1..]);
      LexLeTotal(tokens[0], m);
      assert forall t :: t in tokens ==> t == tokens[0] || t in tokens[1..];
      if LexLe(tokens[0], m) then
        assert forall t :: t in tokens[1..] ==> LexLe(tokens[0], t) by {
          forall t | t in tokens[1..] ensures LexLe(tokens[0], t) {
            LexLeTransitive(tokens[0], m, t);
          }
        }
        LexLeReflexive(tokens[0]);
        tokens[0]
      else
        m
  }

  /** A character above U+FFFF sorts by its high surrogate: U+1F600 comes
      before U+FF5E although its code point is larger. */
  lemma SurrogatesSortFirst()
    ensures FirstSorted(["\U{FF5E}", "\U{1F600}"]) == "\U{1F600}"
  {
    var tokens := ["\U{FF5E}", "\U{1F600}"];
    var bmp: string := "\U{FF5E}";
    var astral: string := "\U{1F600}";
    assert Utf16(bmp) == [0xFF5E] by {
      assert bmp[1..] == [];
    }
    assert Utf16(astral) == [0xD83D, 0xDE00] by {
      assert astral[1..] == [];
    }
    assert !LexLe(bmp, astral);
    var r := FirstSorted(tokens);
    assert r in tokens && LexLe(r, astral);
  }

  /** One level of the public order book: price and quantity. */
  datatype Quote = Quote(price: real, qty: real)

  /** The top of the order book fetched for the selected token. */
  datatype BookTop = BookTop(bids: seq<Quote>, asks: seq<Quote>)

  datatype BuyError =
    | NoPendingToken   // no token to buy: the request is made for an undefined symbol
    | MissingLevel     // bids[0], bids[1] or asks[0] absent: reading it throws
    | ZeroPrice        // the chosen bid price is 0: the quantity is not finite

  datatype BuyOrder = BuyOrder(token: string, price: real, quantity: int)

  /** The best bid is used when at least this much rests on it. */
  const DeepBidQty: real := 70000.0

  /** `determineBuyPrice`: buys the first pending token in sorted order at the
      best bid when it holds at least `DeepBidQty`, otherwise at the second bid,
      for as many whole units as `usdAmount` pays for. `fetch` stands for the
      depth request for the selected token. */
  function DetermineBuyPrice(usdAmount: real, pendingTokens: seq<string>, fetch: string -> BookTop): (r: Result<BuyOrder, BuyError>)
    ensures pendingTokens == [] ==> r == Failure(NoPendingToken)
    ensures r.Success? ==>
      var book := fetch(r.value.token);
      r.value.token in pendingTokens &&
      (forall t :: t in pendingTokens ==> LexLe(r.value.token, t)) &&
      |book.bids| >= 2 && |book.asks| >= 1 &&
      r.value.price == (if book.bids[0].qty >= DeepBidQty then book.bids[0].price else book.bids[1].price) &&
      r.value.price != 0.0 &&
      r.value.quantity as real <= usdAmount / r.value.price < r.value.quantity as real + 1.0
  {
    if pendingTokens == [] then Failure(NoPendingToken)
    else
      var token := FirstSorted(pendingTokens);
      var book := fetch(token);
      if |book.bids| < 2 || |book.asks| < 1 then Failure(MissingLevel)
      else
        var chosen := if book.bids[0].qty >= DeepBidQty then book.bids[0].price else book.bids[1].price;
        if chosen == 0.0 then Failure(ZeroPrice)
        else Success(BuyOrder(token, chosen, (usdAmount / chosen).Floor))
  }

  /** Every failure has its cause: no token, a missing book level, or a zero price. */
  lemma BuyFailsOnlyForCause(usdAmount: real, pendingTokens: seq<string>, fetch: string -> BookTop)
    ensures var r := DetermineBuyPrice(usdAmount, pendingTokens, fetch);
      r.Failure? <==>
        pendingTokens == [] ||
        (var book := fetch(FirstSorted(pendingTokens));
         |book.bids| < 2 || |book.asks| < 1 ||
         (if book.bids[0].qty >= DeepBidQty then book.bids[0].price else book.bids[1].price) == 0.0)
  {
  }

  /** Spending more never buys fewer units (for a positive price). */
  lemma QuantityMonotone(u1: real, u2: real, pendingTokens: seq<string>, fetch: string -> BookTop)
    requires u1 <= u2
    requires DetermineBuyPrice(u1, pendingTokens, fetch).Success?
    requires DetermineBuyPrice(u1, pendingTokens, fetch).value.price > 0.0
    ensures DetermineBuyPrice(u2, pendingTokens, fetch).Success?
    ensures DetermineBuyPrice(u1, pendingTokens, fetch).value.quantity <= DetermineBuyPrice(u2, pendingTokens, fetch).value.quantity
  {
    var p := DetermineBuyPrice(u1, pendingTokens, fetch).value.price;
    assert u1 / p <= u2 / p by {
      assert u2 / p - u1 / p == (u2 - u1) / p;
    }
  }
}
