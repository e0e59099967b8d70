/** Shared vocabulary of the order-book model: book sides, integer price ticks and
    the ordered views of a book side that several components compute. */
module Market {
  import opened Wrappers

  datatype Side = Buy | Sell

  /** A price in integer ticks. The source keys its books by the decimal string of
      a floating-point price; with one tick as the smallest price step that
      normalisation is injective, so a tick is its own key here. */
  type Tick = int

  predicate StrictlyAscending(q: seq<int>) {
    forall i, j :: 0 <= i < j < |q| ==> q[i] < q[j]
  }

  /** `Math.max(x, 0)`. */
  function Max0(x: real): (r: real)
    ensures r >= 0.0 && r >= x && (r == 0.0 || r == x)
  {
    if x >= 0.0 then x else 0.0
  }

  /** Two shares of a non-zero total add up to 1. */
  lemma SharesOfTotal(a: real, b: real)
    requires a + b != 0.0
    ensures a / (a + b) + b / (a + b) == 1.0
  {
    var t := a + b;
    assert a / t + b / t == (a + b) / t;
  }

  /** A member of a non-empty set (obtained through extensionality). */
  lemma PickMember<T>(s: set<T>) returns (a: T)
    requires s != {}
    ensures a in s
  {
    var e: set<T> := {};
    assert s != e;
    assert !(forall x :: x in s <==> x in e);
    a :| a in s;
  }

  lemma {:induction false} MaxExists(s: set<int>)
    requires s != {}
    ensures exists x :: x in s && forall y :: y in s ==> y <= x
    decreases s
  {
    var a := PickMember(s);
    var rest := s - {a};
    if rest == {} {
      forall y | y in s ensures y == a { assert y !in rest; }
    } else {
      MaxExists(rest);
      var m :| m in rest && forall y :: y in rest ==> y <= m;
      var b := if a > m then a else m;
      forall y | y in s ensures y <= b { if y != a { assert y in rest; } }
      assert b in s;
    }
  }

  lemma {:induction false} MinExists(s: set<int>)
    requires s != {}
    ensures exists x :: x in s && forall y :: y in s ==> x <= y
    decreases s
  {
    var a := PickMember(s);
    var rest := s - {a};
    if rest == {} {
      forall y | y in s ensures y == a { assert y !in rest; }
    } else {
      MinExists(rest);
      var m :| m in rest && forall y :: y in rest ==> m <= y;
      var b := if a < m then a else m;
      forall y | y in s ensures b <= y { if y != a { assert y in rest; } }
      assert b in s;
    }
  }

  /** The highest price of a non-empty side (`Math.max(...)` over its keys). */
  function MaxOf(s: set<int>): (r: int)
    requires s != {}
    ensures r in s && forall y :: y in s ==> y <= r
  {
    MaxExists(s);
    var x :| x in s && forall y :: y in s ==> y <= x; x
  }

  /** The lowest price of a non-empty side (`Math.min(...)` over its keys). */
  function MinOf(s: set<int>): (r: int)
    requires s != {}
    ensures r in s && forall y :: y in s ==> r <= y
  {
    MinExists(s);
    var x :| x in s && forall y :: y in s ==> x <= y; x
  }

  /** The prices of a side in ascending order, as `Object.keys(..).map(parseFloat).sort((a, b) => a - b)`
      yields them. */
  function SortedKeys(s: set<int>): (r: seq<int>)
    ensures StrictlyAscending(r)
    ensures forall x :: x in r <==> x in s
    ensures |r| == |s|
    decreases s
  {
    if s == {} then []
    else
      var m := MinOf(s);
      var rest := SortedKeys(s - {m});
      assert forall x :: x in rest ==> m < x;
      [m] + rest
  }

  /** `findIndex(p => p === x)`: the first position holding `x`. */
  function IndexOf(q: seq<int>, x: int): (r: Option<nat>)
    ensures r.Some? ==> r.value < |q| && q[r.value] == x && x !in q[..r.value]
    ensures r.None? <==> x !in q
  {
    if q == [] then None
    else if q[0] == x then Some(0)
    else
      match IndexOf(q[1..], x)
      case None => None
      case Some(i) =>
        assert q[..i + 1] == [q[0]] + q[1..][..i];
        Some(i + 1)
  }

  /** In an ascending list the entry just below position `i` is the largest member below `q[i]`. */
  lemma PredecessorIsLargestBelow(q: seq<int>, i: nat)
    requires StrictlyAscending(q)
    requires 0 < i < |q|
    ensures forall x :: x in q && x < q[i] ==> x <= q[i - 1]
  {
    forall x | x in q && x < q[i] ensures x <= q[i - 1] {
      var j :| 0 <= j < |q| && q[j] == x;
      assert j < i;
    }
  }

  /** In an ascending list the entry just above position `i` is the smallest member above `q[i]`. */
  lemma SuccessorIsSmallestAbove(q: seq<int>, i: nat)
    requires StrictlyAscending(q)
    requires 0 <= i < |q| - 1
    ensures forall x :: x in q && x > q[i] ==> q[i + 1] <= x
  {
    forall x | x in q && x > q[i] ensures q[i + 1] <= x {
      var j :| 0 <= j < |q| && q[j] == x;
      assert j > i;
    }
  }
}
