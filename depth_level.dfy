/** `calculateDepthLevel`: buckets the resting depth in front of an order into a
    level number, 50 000 units per level up to 300 000, then 100 000 units per
    level up to the `MAX_LEVEL_DEPTH` cap. */
module DepthLevel {
  import opened Wrappers

  const MaxLevelDepth: real := 2000000.0

  /** The highest level the helper can return: 6 + ceil((2 000 000 - 300 000) / 100 000). */
  const TopLevel: int := 23

  /** `Math.ceil` on a real. */
  function Ceil(x: real): (r: int)
    ensures r as real - 1.0 < x <= r as real
  {
    -((-x).Floor)
  }

  /** `Math.min` on two reals. */
  function MinReal(a: real, b: real): (r: real)
    ensures r <= a && r <= b && (r == a || r == b)
  {
    if a <= b then a else b
  }

  /** A missing (`null`/`undefined`), zero or negative depth has no level. */
  function CalculateDepthLevel(depthAmount: Option<real>): (r: Option<int>)
    ensures r.None? <==> depthAmount.None? || depthAmount.value <= 0.0
    ensures r.Some? ==> 1 <= r.value <= TopLevel
  {
    if depthAmount.None? || depthAmount.value <= 0.0 then None
    else
      var d := depthAmount.value;
      if d <= 50000.0 then Some(1)
      else if d <= 100000.0 then Some(2)
      else if d <= 150000.0 then Some(3)
      else if d <= 200000.0 then Some(4)
      else if d <= 250000.0 then Some(5)
      else if d <= 300000.0 then Some(6)
      else
        var cappedDepth := MinReal(d, MaxLevelDepth);
        var additionalLevels := Ceil((cappedDepth - 300000.0) / 100000.0);
        Some(6 + additionalLevels)
  }

  /** The level of a positive depth `d` is the least `k` whose band ceiling reaches `d`:
      bands are 50 000 wide up to level 6 and 100 000 wide after, and every depth
      beyond level 22's ceiling (2 000 000 included) lands in the top level. */
  function BandCeiling(k: int): real
  {
    if k <= 6 then 50000.0 * k as real else 300000.0 + 100000.0 * (k - 6) as real
  }

  lemma LevelIsLeastCoveringBand(d: real)
    requires d > 0.0
    ensures var k := CalculateDepthLevel(Some(d)).value;
            (k == TopLevel || d <= BandCeiling(k)) && (k == 1 || d > BandCeiling(k - 1))
  {
    var k := CalculateDepthLevel(Some(d)).value;
    if d > 300000.0 {
      var c := MinReal(d, MaxLevelDepth);
      var q := (c - 300000.0) / 100000.0;
      assert k == 6 + Ceil(q);
      assert c - 300000.0 == 100000.0 * q;
      assert BandCeiling(k) == 300000.0 + 100000.0 * Ceil(q) as real;
      assert BandCeiling(k - 1) == 300000.0 + 100000.0 * (Ceil(q) - 1) as real;
    }
  }

  /** Depths at or past the cap all share the top level. */
  lemma CapSaturates(d: real)
    requires d >= MaxLevelDepth
    ensures CalculateDepthLevel(Some(d)) == Some(TopLevel)
  {
    assert MinReal(d, MaxLevelDepth) == MaxLevelDepth;
    assert (MaxLevelDepth - 300000.0) / 100000.0 == 17.0;
  }

  /** More depth in front never gives a lower level. */
  lemma {:induction false} LevelIsMonotone(d1: real, d2: real)
    requires 0.0 < d1 <= d2
    ensures CalculateDepthLevel(Some(d1)).value <= CalculateDepthLevel(Some(d2)).value
  {
    var k1 := CalculateDepthLevel(Some(d1)).value;
    var k2 := CalculateDepthLevel(Some(d2)).value;
    LevelIsLeastCoveringBand(d1);
    LevelIsLeastCoveringBand(d2);
    if k1 != 1 && k2 != TopLevel {
      assert BandCeiling(k1 - 1) < BandCeiling(k2);
      BandCeilingOrder(k1 - 1, k2);
    }
  }

  lemma BandCeilingOrder(i: int, j: int)
    requires 1 <= i && 1 <= j
    ensures BandCeiling(i) < BandCeiling(j) ==> i < j
  {
  }
}
