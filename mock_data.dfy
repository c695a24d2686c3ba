/** The older wardrobe aggregator (eco-wardrobe-frontend/src/data/mockData.ts), which pools
    the material percentages of all products before taking the natural share. Every other
    figure it reports is computed exactly as in `WardrobeStatistics`. */
module LegacyMockData {
  import opened JsMath
  import opened ProductTypes
  import opened WardrobeStatistics

  /** A JavaScript number as the pooled figure can produce it: `0 / 0` is `NaN` and a
      non-zero number over 0 is an infinity of that number's sign. */
  datatype JsNumber = Finite(value: int) | NaN | Infinity(positive: bool)

  /** The statistics record of the older aggregator: the natural and synthetic figures
      may not be finite. */
  datatype LegacyWardrobeStats = LegacyWardrobeStats(
    totalItems: int,
    avgEcoScore: int,
    ecoProductsPercent: int,
    naturalMaterialsPercent: JsNumber,
    syntheticMaterialsPercent: JsNumber,
    recyclablePercent: int,
    repairablePercent: int,
    avgDurability: int,
    categoryStats: map<Category, CategoryStat>)

  const EmptyLegacyStats: LegacyWardrobeStats :=
    LegacyWardrobeStats(0, 0, 0, Finite(0), Finite(0), 0, 0, 0, map[])

  /** `totalSynthetic`: the percentages of all non-natural materials of all products. */
  function TotalSyntheticPercent(ps: seq<Product>): real
  {
    if |ps| == 0 then 0.0 else TotalSyntheticPercent(ps[..|ps| - 1]) + SyntheticSum(ps[|ps| - 1].materials)
  }

  /** `Math.round((totalNatural / totalMaterials) * 100)` */
  function PooledShare(natural: real, total: real): (r: JsNumber)
    ensures total == 0.0 && natural == 0.0 ==> r == NaN
    ensures total == 0.0 && natural != 0.0 ==> r == Infinity(natural > 0.0)
    ensures total != 0.0 ==> r.Finite?
  {
    if total == 0.0 then
      if natural == 0.0 then NaN else Infinity(natural > 0.0)
    else
      Finite(Round(natural / total * 100.0))
  }

  /** `100 - x` */
  function HundredMinus(x: JsNumber): (r: JsNumber)
    ensures x.Finite? <==> r.Finite?
    ensures x.Finite? ==> x.value + r.value == 100
    ensures x == NaN <==> r == NaN
    ensures x.Infinity? ==> r == Infinity(!x.positive)
  {
    match x
    case Finite(v) => Finite(100 - v)
    case NaN => NaN
    case Infinity(positive) => Infinity(!positive)
  }

  /** The natural figure of the pooled convention. */
  function PooledNaturalPercent(ps: seq<Product>): JsNumber
  {
    var totalNatural := TotalNaturalPercent(ps);
    PooledShare(totalNatural, totalNatural + TotalSyntheticPercent(ps))
  }

  /** What the older `calculateWardrobeStats` returns. */
  function LegacyWardrobeStatsOf(ps: seq<Product>): LegacyWardrobeStats
  {
    if |ps| == 0 then EmptyLegacyStats
    else
      var totalItems := |ps|;
      var naturalMaterialsPercent := PooledNaturalPercent(ps);
      LegacyWardrobeStats(
        totalItems,
        RoundedMean(EcoScoreSum(ps), totalItems),
        Percent(EcoProductCount(ps), totalItems),
        naturalMaterialsPercent,
        HundredMinus(naturalMaterialsPercent),
        Percent(RecyclableCount(ps), totalItems),
        Percent(RepairableCount(ps), totalItems),
        RoundedMean(DurabilitySum(ps), totalItems),
        CategoryStatsFor(ps, AllCategories))
  }

  /** The nested `forEach` that accumulates `totalNatural` and `totalSynthetic` material by
      material. */
  method SumPooledPercentages(products: seq<Product>) returns (totalNatural: real, totalSynthetic: real)
    ensures totalNatural == TotalNaturalPercent(products)
    ensures totalSynthetic == TotalSyntheticPercent(products)
  {
    totalNatural, totalSynthetic := 0.0, 0.0;
    for i := 0 to |products|
      invariant totalNatural == TotalNaturalPercent(products[..i])
      invariant totalSynthetic == TotalSyntheticPercent(products[..i])
    {
      var p := products[i];
      assert products[..i + 1][..i] == products[..i];
      for j := 0 to |p.materials|
        invariant totalNatural == TotalNaturalPercent(products[..i]) + NaturalSum(p.materials[..j])
        invariant totalSynthetic == TotalSyntheticPercent(products[..i]) + SyntheticSum(p.materials[..j])
      {
        assert p.materials[..j + 1][..j] == p.materials[..j];
        var m := p.materials[j];
        if m.isNatural {
          totalNatural := totalNatural + m.percentage;
        } else {
          totalSynthetic := totalSynthetic + m.percentage;
        }
      }
      assert p.materials[..|p.materials|] == p.materials;
    }
    assert products[..|products|] == products;
  }

  /** The older `calculateWardrobeStats`; its category loop is the same code as the newer
      aggregator's, so `FillCategoryStats` is shared. */
  method CalculateLegacyWardrobeStats(products: seq<Product>) returns (stats: LegacyWardrobeStats)
    ensures stats == LegacyWardrobeStatsOf(products)
  {
    if |products| == 0 {
      return EmptyLegacyStats;
    }
    var totalItems := |products|;
    var avgEcoScore := RoundedMean(EcoScoreSum(products), totalItems);
    var ecoProductsPercent := Percent(EcoProductCount(products), totalItems);
    var totalNatural, totalSynthetic := SumPooledPercentages(products);
    var totalMaterials := totalNatural + totalSynthetic;
    var naturalMaterialsPercent := PooledShare(totalNatural, totalMaterials);
    var syntheticMaterialsPercent := HundredMinus(naturalMaterialsPercent);
    var recyclablePercent := Percent(RecyclableCount(products), totalItems);
    var repairablePercent := Percent(RepairableCount(products), totalItems);
    var avgDurability := RoundedMean(DurabilitySum(products), totalItems);
    var categoryStats := FillCategoryStats(products);
    stats := LegacyWardrobeStats(
      totalItems, avgEcoScore, ecoProductsPercent, naturalMaterialsPercent, syntheticMaterialsPercent,
      recyclablePercent, repairablePercent, avgDurability, categoryStats);
  }

  // ---------------------------------------------------------------------------
  // Properties.

  /** Apart from the natural and synthetic figures, both aggregators report the same record. */
  lemma LegacyAgreesElsewhere(ps: seq<Product>)
    ensures var l, s := LegacyWardrobeStatsOf(ps), WardrobeStatsOf(ps);
      l.totalItems == s.totalItems && l.avgEcoScore == s.avgEcoScore &&
      l.ecoProductsPercent == s.ecoProductsPercent && l.recyclablePercent == s.recyclablePercent &&
      l.repairablePercent == s.repairablePercent && l.avgDurability == s.avgDurability &&
      l.categoryStats == s.categoryStats
    ensures |ps| == 0 ==> LegacyWardrobeStatsOf(ps).naturalMaterialsPercent == Finite(WardrobeStatsOf(ps).naturalMaterialsPercent)
    ensures |ps| == 0 ==> LegacyWardrobeStatsOf(ps).syntheticMaterialsPercent == Finite(WardrobeStatsOf(ps).syntheticMaterialsPercent)
    ensures |ps| == 0 ==> LegacyWardrobeStatsOf(ps) == EmptyLegacyStats
  {
  }

  /** A non-empty wardrobe whose products list no materials at all gets `NaN` for both
      material figures. */
  lemma LegacyNaNWithoutMaterials(ps: seq<Product>)
    requires |ps| > 0
    requires forall i :: 0 <= i < |ps| ==> ps[i].materials == []
    ensures LegacyWardrobeStatsOf(ps).naturalMaterialsPercent == NaN
    ensures LegacyWardrobeStatsOf(ps).syntheticMaterialsPercent == NaN
  {
    NoMaterialsSumToZero(ps);
  }

  lemma {:induction false} NoMaterialsSumToZero(ps: seq<Product>)
    requires forall i :: 0 <= i < |ps| ==> ps[i].materials == []
    ensures TotalNaturalPercent(ps) == 0.0 && TotalSyntheticPercent(ps) == 0.0
  {
    if |ps| > 0 {
      NoMaterialsSumToZero(ps[..|ps| - 1]);
    }
  }

  /** With non-negative percentages and some material listed, the pooled natural figure is
      a finite share in [0, 100] and the synthetic figure is its complement. */
  lemma LegacyShareInRange(ps: seq<Product>)
    requires |ps| > 0
    requires forall i, j :: 0 <= i < |ps| && 0 <= j < |ps[i].materials| ==> ps[i].materials[j].percentage >= 0.0
    requires TotalNaturalPercent(ps) + TotalSyntheticPercent(ps) != 0.0
    ensures LegacyWardrobeStatsOf(ps).naturalMaterialsPercent.Finite?
    ensures 0 <= LegacyWardrobeStatsOf(ps).naturalMaterialsPercent.value <= 100
    ensures LegacyWardrobeStatsOf(ps).syntheticMaterialsPercent
            == Finite(100 - LegacyWardrobeStatsOf(ps).naturalMaterialsPercent.value)
  {
    PooledTotalsNonNegative(ps);
    var n, t := TotalNaturalPercent(ps), TotalNaturalPercent(ps) + TotalSyntheticPercent(ps);
    ShareBetween(n, t);
  }

  lemma ShareBetween(n: real, t: real)
    requires 0.0 <= n <= t && t != 0.0
    ensures 0 <= Round(n / t * 100.0) <= 100
  {
    assert 0.0 <= n / t <= 1.0;
    RoundBetween(n / t * 100.0, 0, 100);
  }

  lemma {:induction false} MaterialSumsNonNegative(ms: seq<Material>)
    requires forall j :: 0 <= j < |ms| ==> ms[j].percentage >= 0.0
    ensures NaturalSum(ms) >= 0.0 && SyntheticSum(ms) >= 0.0
  {
    if |ms| > 0 {
      MaterialSumsNonNegative(ms[..|ms| - 1]);
    }
  }

  lemma {:induction false} PooledTotalsNonNegative(ps: seq<Product>)
    requires forall i, j :: 0 <= i < |ps| && 0 <= j < |ps[i].materials| ==> ps[i].materials[j].percentage >= 0.0
    ensures TotalNaturalPercent(ps) >= 0.0 && TotalSyntheticPercent(ps) >= 0.0
  {
    if |ps| > 0 {
      PooledTotalsNonNegative(ps[..|ps| - 1]);
      var ms := ps[|ps| - 1].materials;
      MaterialSumsNonNegative(ms);
    }
  }

  /** When every product's materials add up to exactly 100 %, pooling and averaging give
      the same natural figure. */
  lemma ConventionsAgreeOnFullCompositions(ps: seq<Product>)
    requires |ps| > 0
    requires forall i :: 0 <= i < |ps| ==> NaturalSum(ps[i].materials) + SyntheticSum(ps[i].materials) == 100.0
    ensures LegacyWardrobeStatsOf(ps).naturalMaterialsPercent == Finite(WardrobeStatsOf(ps).naturalMaterialsPercent)
  {
    PooledTotalOfFullCompositions(ps);
    ShareOfFullTotal(TotalNaturalPercent(ps), |ps| as real);
  }

  lemma ShareOfFullTotal(n: real, k: real)
    requires k > 0.0
    ensures n / (100.0 * k) * 100.0 == n / k
  {
  }

  lemma {:induction false} PooledTotalOfFullCompositions(ps: seq<Product>)
    requires forall i :: 0 <= i < |ps| ==> NaturalSum(ps[i].materials) + SyntheticSum(ps[i].materials) == 100.0
    ensures TotalNaturalPercent(ps) + TotalSyntheticPercent(ps) == 100.0 * |ps| as real
  {
    if |ps| > 0 {
      PooledTotalOfFullCompositions(ps[..|ps| - 1]);
    }
  }

  /** One product of pure natural fibre listing only half its composition, next to one of
      pure synthetic fibre: averaging per product gives 25, pooling gives 33. */
  lemma ConventionsDisagree(a: Product, b: Product)
    requires a.materials == [Material("Bawełna", 50.0, true, false)]
    requires b.materials == [Material("Poliester", 100.0, false, false)]
    ensures WardrobeStatsOf([a, b]).naturalMaterialsPercent == 25
    ensures LegacyWardrobeStatsOf([a, b]).naturalMaterialsPercent == Finite(33)
  {
    assert a.materials[..0] == [] && b.materials[..0] == [];
    assert NaturalSum(a.materials) == 50.0 && SyntheticSum(a.materials) == 0.0;
    assert NaturalSum(b.materials) == 0.0 && SyntheticSum(b.materials) == 100.0;
    var ps := [a, b];
    assert ps[..1] == [a] && [a][..0] == [];
    assert TotalNaturalPercent([a]) == 50.0 && TotalSyntheticPercent([a]) == 0.0;
    assert TotalNaturalPercent(ps) == 50.0;
    assert TotalSyntheticPercent(ps) == 100.0;
    assert Round(50.0 / 2.0) == 25;
    assert Round(50.0 / 150.0 * 100.0) == 33;
  }
}
