/** Wardrobe statistics with the per-product convention for natural materials
    (eco-wardrobe-frontend/src/services/wardrobeStats.ts): each product's natural
    percentages are summed, and those sums are averaged over the products. */
module WardrobeStatistics {
  import opened JsMath
  import opened ProductTypes

  /** `emptyWardrobeStats`: every counter 0 and no category entries. */
  const EmptyWardrobeStats: WardrobeStats := WardrobeStats(0, 0, 0, 0, 0, 0, 0, 0, map[])

  // ---------------------------------------------------------------------------
  // Sums and filters over the product list.

  /** `reduce((sum, p) => sum + p.ecoScore, 0)` */
  function EcoScoreSum(ps: seq<Product>): real
  {
    if |ps| == 0 then 0.0 else EcoScoreSum(ps[..|ps| - 1]) + ps[|ps| - 1].ecoScore
  }

  /** `reduce((sum, p) => sum + p.durability, 0)` */
  function DurabilitySum(ps: seq<Product>): real
  {
    if |ps| == 0 then 0.0 else DurabilitySum(ps[..|ps| - 1]) + ps[|ps| - 1].durability
  }

  /** `filter(p => p.ecoScore >= 60).length` */
  function EcoProductCount(ps: seq<Product>): (n: nat)
    ensures n <= |ps|
  {
    if |ps| == 0 then 0 else EcoProductCount(ps[..|ps| - 1]) + (if ps[|ps| - 1].ecoScore >= 60.0 then 1 else 0)
  }

  /** `filter(p => p.recyclability !== 'none').length` */
  function RecyclableCount(ps: seq<Product>): (n: nat)
    ensures n <= |ps|
  {
    if |ps| == 0 then 0
    else RecyclableCount(ps[..|ps| - 1]) + (if ps[|ps| - 1].recyclability != NotRecyclable then 1 else 0)
  }

  /** `filter(p => p.repairable).length` */
  function RepairableCount(ps: seq<Product>): (n: nat)
    ensures n <= |ps|
  {
    if |ps| == 0 then 0 else RepairableCount(ps[..|ps| - 1]) + (if ps[|ps| - 1].repairable then 1 else 0)
  }

  /** `filter(p => p.category === cat)` */
  function InCategory(ps: seq<Product>, c: Category): (r: seq<Product>)
    ensures |r| <= |ps|
  {
    if |ps| == 0 then []
    else InCategory(ps[..|ps| - 1], c) + (if ps[|ps| - 1].category == c then [ps[|ps| - 1]] else [])
  }

  /** Every product kept by the category filter has that category and comes from the list. */
  lemma {:induction false} InCategoryMembers(ps: seq<Product>, c: Category)
    ensures forall i :: 0 <= i < |InCategory(ps, c)| ==> InCategory(ps, c)[i].category == c && InCategory(ps, c)[i] in ps
  {
    if |ps| > 0 {
      InCategoryMembers(ps[..|ps| - 1], c);
      forall i | 0 <= i < |InCategory(ps, c)|
        ensures InCategory(ps, c)[i].category == c && InCategory(ps, c)[i] in ps
      {
        var r := InCategory(ps[..|ps| - 1], c);
        if i < |r| {
          assert InCategory(ps, c)[i] == r[i];
          assert r[i] in ps[..|ps| - 1];
        }
      }
    }
  }

  /** The summed percentage of the natural materials of one product. */
  function NaturalSum(ms: seq<Material>): real
  {
    if |ms| == 0 then 0.0 else NaturalSum(ms[..|ms| - 1]) + (if ms[|ms| - 1].isNatural then ms[|ms| - 1].percentage else 0.0)
  }

  /** The summed percentage of the other materials of one product. */
  function SyntheticSum(ms: seq<Material>): real
  {
    if |ms| == 0 then 0.0 else SyntheticSum(ms[..|ms| - 1]) + (if ms[|ms| - 1].isNatural then 0.0 else ms[|ms| - 1].percentage)
  }

  /** `totalNaturalPercent`: the per-product natural sums, added up. */
  function TotalNaturalPercent(ps: seq<Product>): real
  {
    if |ps| == 0 then 0.0 else TotalNaturalPercent(ps[..|ps| - 1]) + NaturalSum(ps[|ps| - 1].materials)
  }

  // ---------------------------------------------------------------------------
  // The figures.

  /** `Math.round((count / total) * 100)` */
  function Percent(count: nat, total: nat): int
    requires total > 0
  {
    Round(count as real / total as real * 100.0)
  }

  /** `Math.round(sum / n)` */
  function RoundedMean(sum: real, n: nat): int
    requires n > 0
  {
    Round(sum / n as real)
  }

  /** One `categoryStats` entry: the count, and the rounded mean score or 0 when empty. */
  function CategoryStatOf(ps: seq<Product>, c: Category): (r: CategoryStat)
    ensures 0 <= r.count <= |ps|
    ensures r.count == 0 ==> r.avgEcoScore == 0
  {
    var catProducts := InCategory(ps, c);
    CategoryStat(|catProducts|, if |catProducts| > 0 then RoundedMean(EcoScoreSum(catProducts), |catProducts|) else 0)
  }

  /** The `categoryStats` record, filled for the categories in `cs`, in order. */
  function CategoryStatsFor(ps: seq<Product>, cs: seq<Category>): map<Category, CategoryStat>
  {
    if |cs| == 0 then map[]
    else CategoryStatsFor(ps, cs[..|cs| - 1])[cs[|cs| - 1] := CategoryStatOf(ps, cs[|cs| - 1])]
  }

  /** The record for `cs` has a key for each category in `cs`, holding that category's entry. */
  lemma {:induction false} CategoryStatsForFacts(ps: seq<Product>, cs: seq<Category>)
    ensures forall c :: c in CategoryStatsFor(ps, cs) <==> c in cs
    ensures forall c :: c in CategoryStatsFor(ps, cs) ==> CategoryStatsFor(ps, cs)[c] == CategoryStatOf(ps, c)
  {
    if |cs| > 0 {
      CategoryStatsForFacts(ps, cs[..|cs| - 1]);
      assert cs == cs[..|cs| - 1] + [cs[|cs| - 1]];
    }
  }

  /** The natural figure of the per-product convention. */
  function NaturalMaterialsPercent(ps: seq<Product>): int
    requires |ps| > 0
  {
    RoundedMean(TotalNaturalPercent(ps), |ps|)
  }

  /** What `calculateWardrobeStats` returns. */
  function WardrobeStatsOf(ps: seq<Product>): WardrobeStats
  {
    if |ps| == 0 then EmptyWardrobeStats
    else
      var totalItems := |ps|;
      var naturalMaterialsPercent := NaturalMaterialsPercent(ps);
      WardrobeStats(
        totalItems,
        RoundedMean(EcoScoreSum(ps), totalItems),
        Percent(EcoProductCount(ps), totalItems),
        naturalMaterialsPercent,
        100 - naturalMaterialsPercent,
        Percent(RecyclableCount(ps), totalItems),
        Percent(RepairableCount(ps), totalItems),
        RoundedMean(DurabilitySum(ps), totalItems),
        CategoryStatsFor(ps, AllCategories))
  }

  /** The nested `forEach` that accumulates `totalNaturalPercent`. */
  method SumNaturalPercent(products: seq<Product>) returns (totalNaturalPercent: real)
    ensures totalNaturalPercent == TotalNaturalPercent(products)
  {
    totalNaturalPercent := 0.0;
    for i := 0 to |products|
      invariant totalNaturalPercent == TotalNaturalPercent(products[..i])
    {
      var p := products[i];
      var productNaturalPercent := 0.0;
      for j := 0 to |p.materials|
        invariant productNaturalPercent == NaturalSum(p.materials[..j])
      {
        assert p.materials[..j + 1][..j] == p.materials[..j];
        if p.materials[j].isNatural {
          productNaturalPercent := productNaturalPercent + p.materials[j].percentage;
        }
      }
      assert p.materials[..|p.materials|] == p.materials;
      assert products[..i + 1][..i] == products[..i];
      totalNaturalPercent := totalNaturalPercent + productNaturalPercent;
    }
    assert products[..|products|] == products;
  }

  /** The `categories.forEach` loop that fills `categoryStats` key by key. */
  method FillCategoryStats(products: seq<Product>) returns (categoryStats: map<Category, CategoryStat>)
    ensures categoryStats == CategoryStatsFor(products, AllCategories)
  {
    var categories := AllCategories;
    categoryStats := map[];
    for k := 0 to |categories|
      invariant categoryStats == CategoryStatsFor(products, categories[..k])
    {
      var cat := categories[k];
      var catProducts := InCategory(products, cat);
      var stat := CategoryStat(
        |catProducts|,
        if |catProducts| > 0 then RoundedMean(EcoScoreSum(catProducts), |catProducts|) else 0);
      assert categories[..k + 1][..k] == categories[..k];
      categoryStats := categoryStats[cat := stat];
    }
    assert categories[..|categories|] == categories;
  }

  /** `calculateWardrobeStats` */
  method CalculateWardrobeStats(products: seq<Product>) returns (stats: WardrobeStats)
    ensures stats == WardrobeStatsOf(products)
  {
    if |products| == 0 {
      return EmptyWardrobeStats;
    }
    var totalItems := |products|;
    var avgEcoScore := RoundedMean(EcoScoreSum(products), totalItems);
    var ecoProductsPercent := Percent(EcoProductCount(products), totalItems);
    var totalNaturalPercent := SumNaturalPercent(products);
    var naturalMaterialsPercent := Round(totalNaturalPercent / totalItems as real);
    var syntheticMaterialsPercent := 100 - naturalMaterialsPercent;
    var recyclablePercent := Percent(RecyclableCount(products), totalItems);
    var repairablePercent := Percent(RepairableCount(products), totalItems);
    var avgDurability := RoundedMean(DurabilitySum(products), totalItems);
    var categoryStats := FillCategoryStats(products);
    stats := WardrobeStats(
      totalItems, avgEcoScore, ecoProductsPercent, naturalMaterialsPercent, syntheticMaterialsPercent,
      recyclablePercent, repairablePercent, avgDurability, categoryStats);
  }

  // ---------------------------------------------------------------------------
  // Properties.

  /** A share of a count out of a positive total, rounded, lies in [0, 100]. */
  lemma PercentBounds(count: nat, total: nat)
    requires 0 < total && count <= total
    ensures 0 <= Percent(count, total) <= 100
  {
    var x := count as real / total as real;
    assert 0.0 <= x <= 1.0 by {
      assert count as real <= total as real;
    }
    RoundBetween(x * 100.0, 0, 100);
  }

  /** The rounded mean of values that all lie between two integers lies between them. */
  lemma RoundedMeanBetween(sum: real, n: nat, lo: int, hi: int)
    requires n > 0 && lo as real * n as real <= sum <= hi as real * n as real
    ensures lo <= RoundedMean(sum, n) <= hi
  {
    var m := sum / n as real;
    assert lo as real <= m <= hi as real by {
      assert m * n as real == sum;
    }
    RoundBetween(m, lo, hi);
  }

  lemma {:induction false} EcoScoreSumBetween(ps: seq<Product>)
    requires forall i :: 0 <= i < |ps| ==> 0.0 <= ps[i].ecoScore <= 100.0
    ensures 0.0 <= EcoScoreSum(ps) <= 100.0 * |ps| as real
  {
    if |ps| > 0 {
      EcoScoreSumBetween(ps[..|ps| - 1]);
    }
  }

  lemma {:induction false} TotalNaturalPercentBetween(ps: seq<Product>)
    requires forall i :: 0 <= i < |ps| ==> 0.0 <= NaturalSum(ps[i].materials) <= 100.0
    ensures 0.0 <= TotalNaturalPercent(ps) <= 100.0 * |ps| as real
  {
    if |ps| > 0 {
      TotalNaturalPercentBetween(ps[..|ps| - 1]);
    }
  }

  /** An empty wardrobe gives `emptyWardrobeStats`, with no category keys at all. */
  lemma EmptyWardrobe()
    ensures WardrobeStatsOf([]) == EmptyWardrobeStats
    ensures WardrobeStatsOf([]).categoryStats.Keys == {}
    ensures WardrobeStatsOf([]).totalItems == 0 && WardrobeStatsOf([]).avgEcoScore == 0
  {
  }

  /** The natural and synthetic figures of a non-empty wardrobe always add up to 100, and the
      natural one is the rounded mean of the per-product natural sums. It lies in [0, 100]
      whenever each product's natural sum does; nothing clamps it otherwise. */
  lemma NaturalAndSynthetic(ps: seq<Product>)
    requires |ps| > 0
    ensures WardrobeStatsOf(ps).naturalMaterialsPercent + WardrobeStatsOf(ps).syntheticMaterialsPercent == 100
    ensures WardrobeStatsOf(ps).naturalMaterialsPercent == Round(TotalNaturalPercent(ps) / |ps| as real)
    ensures (forall i :: 0 <= i < |ps| ==> 0.0 <= NaturalSum(ps[i].materials) <= 100.0)
            ==> 0 <= WardrobeStatsOf(ps).naturalMaterialsPercent <= 100
  {
    if forall i :: 0 <= i < |ps| ==> 0.0 <= NaturalSum(ps[i].materials) <= 100.0 {
      NaturalFigureBetween(ps);
    }
  }

  lemma NaturalFigureBetween(ps: seq<Product>)
    requires |ps| > 0
    requires forall i :: 0 <= i < |ps| ==> 0.0 <= NaturalSum(ps[i].materials) <= 100.0
    ensures 0 <= NaturalMaterialsPercent(ps) <= 100
  {
    TotalNaturalPercentBetween(ps);
    RoundedMeanBetween(TotalNaturalPercent(ps), |ps|, 0, 100);
  }

  /** A product whose natural materials add up to 120 % pushes the natural figure above 100
      and the synthetic one below 0. */
  lemma NaturalFigureIsNotClamped(p: Product)
    requires p.materials == [Material("Bawełna", 120.0, true, false)]
    ensures WardrobeStatsOf([p]).naturalMaterialsPercent == 120
    ensures WardrobeStatsOf([p]).syntheticMaterialsPercent == -20
  {
    assert p.materials[..0] == [];
    assert NaturalSum(p.materials) == 120.0;
    assert [p][..0] == [];
    assert TotalNaturalPercent([p]) == 120.0;
    assert 120.0 / 1.0 == 120.0;
    RoundOfInt(120);
  }

  /** The eco-product, recyclable and repairable figures are rounded shares in [0, 100];
      the mean score lies in [0, 100] when every score does. */
  lemma PercentagesInRange(ps: seq<Product>)
    requires |ps| > 0
    ensures 0 <= WardrobeStatsOf(ps).ecoProductsPercent <= 100
    ensures 0 <= WardrobeStatsOf(ps).recyclablePercent <= 100
    ensures 0 <= WardrobeStatsOf(ps).repairablePercent <= 100
    ensures (forall i :: 0 <= i < |ps| ==> 0.0 <= ps[i].ecoScore <= 100.0)
            ==> 0 <= WardrobeStatsOf(ps).avgEcoScore <= 100
  {
    PercentBounds(EcoProductCount(ps), |ps|);
    PercentBounds(RecyclableCount(ps), |ps|);
    PercentBounds(RepairableCount(ps), |ps|);
    if forall i :: 0 <= i < |ps| ==> 0.0 <= ps[i].ecoScore <= 100.0 {
      MeanScoreBetween(ps);
    }
  }

  lemma MeanScoreBetween(ps: seq<Product>)
    requires |ps| > 0
    requires forall i :: 0 <= i < |ps| ==> 0.0 <= ps[i].ecoScore <= 100.0
    ensures 0 <= RoundedMean(EcoScoreSum(ps), |ps|) <= 100
  {
    EcoScoreSumBetween(ps);
    RoundedMeanBetween(EcoScoreSum(ps), |ps|, 0, 100);
  }

  /** A product counts as recyclable exactly when its tier is not 'none'. */
  lemma RecyclableCountsTiers(p: Product)
    ensures RecyclableCount([p]) == 1 <==> p.recyclability == Full || p.recyclability == Partial
  {
    assert [p][..0] == [];
  }

  /** The position of a category in `AllCategories`. */
  function RankOf(c: Category): (k: nat)
    ensures k < |AllCategories| && AllCategories[k] == c
  {
    match c
    case Koszulki => 0
    case Bluzy => 1
    case Spodnie => 2
    case Skarpety => 3
    case Inne => 4
  }

  /** The per-category counts add up over a split of the product list. */
  lemma {:induction false} CategoryCountsAdd(ps: seq<Product>)
    ensures |InCategory(ps, Koszulki)| + |InCategory(ps, Bluzy)| + |InCategory(ps, Spodnie)|
            + |InCategory(ps, Skarpety)| + |InCategory(ps, Inne)| == |ps|
  {
    if |ps| > 0 {
      CategoryCountsAdd(ps[..|ps| - 1]);
    }
  }

  /** The `categoryStats` record has an entry for every category. */
  lemma CategoryStatsKeys(ps: seq<Product>)
    ensures forall c: Category :: c in CategoryStatsFor(ps, AllCategories)
  {
    CategoryStatsForFacts(ps, AllCategories);
    forall c: Category ensures c in AllCategories {
      assert AllCategories[RankOf(c)] == c;
    }
  }

  /** The counts in `categoryStats` add up to the number of products. */
  lemma CategoryCountsTotal(ps: seq<Product>)
    ensures var cs := CategoryStatsFor(ps, AllCategories);
      Koszulki in cs && Bluzy in cs && Spodnie in cs && Skarpety in cs && Inne in cs &&
      cs[Koszulki].count + cs[Bluzy].count + cs[Spodnie].count + cs[Skarpety].count + cs[Inne].count == |ps|
  {
    var cs := CategoryStatsFor(ps, AllCategories);
    CategoryStatsKeys(ps);
    CategoryStatsForFacts(ps, AllCategories);
    assert cs[Koszulki].count == |InCategory(ps, Koszulki)|;
    assert cs[Bluzy].count == |InCategory(ps, Bluzy)|;
    assert cs[Spodnie].count == |InCategory(ps, Spodnie)|;
    assert cs[Skarpety].count == |InCategory(ps, Skarpety)|;
    assert cs[Inne].count == |InCategory(ps, Inne)|;
    CategoryCountsAdd(ps);
  }
}
