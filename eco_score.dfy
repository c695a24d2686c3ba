/** The current eco-score engine (eco-wardrobe-frontend/src/services/ecoScore.ts):
    a baseline of 50, weighted band scores for each passport section, a recycling
    synergy bonus and flat terms, rounded and clamped to [0, 100]. */
module EcoScore {
  import opened Text
  import opened JsMath
  import opened ProductTypes
  import opened DigitalProductPassport

  /** `EcoScoreWeights`: one multiplier per weighted term. */
  datatype Weights = Weights(
    carbonFootprint: real,
    recycledContent: real,
    recyclability: real,
    hazardousSubstances: real,
    repairability: real,
    certifications: real,
    durability: real,
    naturalMaterials: real)

  /** `DEFAULT_WEIGHTS` */
  const DefaultWeights: Weights := Weights(1.0, 1.2, 1.3, 1.5, 0.8, 0.7, 0.6, 1.1)

  // ---------------------------------------------------------------------------
  // Recyclability.

  /** `calculateRecyclabilityScore` */
  function RecyclabilityScore(recyclabilityPercentage: real): int
  {
    if recyclabilityPercentage >= 90.0 then 15
    else if recyclabilityPercentage >= 70.0 then 10
    else if recyclabilityPercentage >= 50.0 then 5
    else if recyclabilityPercentage >= 30.0 then -5
    else if recyclabilityPercentage >= 10.0 then -15
    else -25
  }

  /** The recyclability band takes one of six values and never falls as the percentage rises. */
  lemma RecyclabilityScoreBands(x: real, y: real)
    ensures RecyclabilityScore(x) in {15, 10, 5, -5, -15, -25}
    ensures x <= y ==> RecyclabilityScore(x) <= RecyclabilityScore(y)
  {
  }

  // ---------------------------------------------------------------------------
  // Recycled content.

  /** A certification that marks recycled material: it contains "recycled", "rpet"
      or "grs", ignoring case. */
  predicate RecycledCertification(c: string)
  {
    var certLower := Lower(c);
    Contains(certLower, "recycled") || Contains(certLower, "rpet") || Contains(certLower, "grs")
  }

  predicate HasRecycledCertification(certifications: seq<string>)
  {
    exists i :: 0 <= i < |certifications| && RecycledCertification(certifications[i])
  }

  /** The `isRecycled` test of `calculateRecycledContentScore`: a recycled certification,
      or a name containing "recykling" or "recycled" (lower-cased). */
  predicate IsRecycledMaterial(m: MaterialEntry)
  {
    HasRecycledCertification(m.certifications)
    || Contains(Lower(m.material), "recykling") || Contains(Lower(m.material), "recycled")
  }

  /** The recycled share found in the materials: the sum of the percentages of the
      recycled ones. */
  function RecycledMaterialsPercentage(ms: seq<MaterialEntry>): real
  {
    if |ms| == 0 then 0.0
    else RecycledMaterialsPercentage(ms[..|ms| - 1])
         + (if IsRecycledMaterial(ms[|ms| - 1]) then ms[|ms| - 1].percentage else 0.0)
  }

  /** `effectiveRecycledPercentage`: the larger of the declared and the found share. */
  function EffectiveRecycledPercentage(declared: real, ms: seq<MaterialEntry>): (r: real)
    ensures r >= declared && r >= RecycledMaterialsPercentage(ms)
    ensures r == declared || r == RecycledMaterialsPercentage(ms)
  {
    Max(declared, RecycledMaterialsPercentage(ms))
  }

  /** The band on the effective recycled share. */
  function RecycledContentBand(effective: real): int
  {
    if effective >= 80.0 then 15
    else if effective >= 60.0 then 12
    else if effective >= 40.0 then 8
    else if effective >= 20.0 then 4
    else if effective > 0.0 then 2
    else -10
  }

  /** `certifiedRecycled`: the materials with a recycled certification, in order. */
  function CertifiedRecycledMaterials(ms: seq<MaterialEntry>): seq<MaterialEntry>
  {
    if |ms| == 0 then []
    else CertifiedRecycledMaterials(ms[..|ms| - 1])
         + (if HasRecycledCertification(ms[|ms| - 1].certifications) then [ms[|ms| - 1]] else [])
  }

  /** `reduce((sum, m) => sum + m.percentage, 0)` */
  function PercentageSum(ms: seq<MaterialEntry>): real
  {
    if |ms| == 0 then 0.0 else PercentageSum(ms[..|ms| - 1]) + ms[|ms| - 1].percentage
  }

  /** What `calculateRecycledContentScore` returns: the band on the effective share, plus
      5 when the certified recycled materials make up at least half. */
  function RecycledContentScore(declared: real, ms: seq<MaterialEntry>): int
  {
    var certified := CertifiedRecycledMaterials(ms);
    RecycledContentBand(EffectiveRecycledPercentage(declared, ms))
    + (if |certified| > 0 && PercentageSum(certified) >= 50.0 then 5 else 0)
  }

  /** `calculateRecycledContentScore`: sums the recycled share in a loop, then applies the bands. */
  method CalculateRecycledContentScore(recycledContentPercentage: real, materialComposition: seq<MaterialEntry>)
    returns (score: int)
    ensures score == RecycledContentScore(recycledContentPercentage, materialComposition)
  {
    score := 0;
    var actualRecycledPercentage := 0.0;
    for i := 0 to |materialComposition|
      invariant actualRecycledPercentage == RecycledMaterialsPercentage(materialComposition[..i])
    {
      var m := materialComposition[i];
      assert materialComposition[..i + 1][..i] == materialComposition[..i];
      if IsRecycledMaterial(m) {
        actualRecycledPercentage := actualRecycledPercentage + m.percentage;
      }
    }
    assert materialComposition[..|materialComposition|] == materialComposition;
    var effectiveRecycledPercentage := Max(recycledContentPercentage, actualRecycledPercentage);
    if effectiveRecycledPercentage >= 80.0 {
      score := score + 15;
    } else if effectiveRecycledPercentage >= 60.0 {
      score := score + 12;
    } else if effectiveRecycledPercentage >= 40.0 {
      score := score + 8;
    } else if effectiveRecycledPercentage >= 20.0 {
      score := score + 4;
    } else if effectiveRecycledPercentage > 0.0 {
      score := score + 2;
    } else {
      score := score - 10;
    }
    var certifiedRecycled := CertifiedRecycledMaterials(materialComposition);
    if |certifiedRecycled| > 0 {
      var certifiedPercentage := PercentageSum(certifiedRecycled);
      if certifiedPercentage >= 50.0 {
        score := score + 5;
      }
    }
  }

  /** The recycled-content band never falls as the effective share rises. */
  lemma RecycledContentBandMonotone(x: real, y: real)
    requires x <= y
    ensures RecycledContentBand(x) <= RecycledContentBand(y)
  {
  }

  /** The found share adds up over a split of the material list. */
  lemma {:induction false} RecycledMaterialsPercentageConcat(a: seq<MaterialEntry>, b: seq<MaterialEntry>)
    ensures RecycledMaterialsPercentage(a + b) == RecycledMaterialsPercentage(a) + RecycledMaterialsPercentage(b)
    decreases |b|
  {
    if |b| > 0 {
      assert (a + b)[..|a + b| - 1] == a + b[..|b| - 1];
      RecycledMaterialsPercentageConcat(a, b[..|b| - 1]);
    } else {
      assert a + b == a;
    }
  }

  /** A material counts towards the found recycled share exactly when it is recycled. */
  lemma RecycledMaterialsPercentageOfOne(m: MaterialEntry)
    ensures RecycledMaterialsPercentage([m]) == (if IsRecycledMaterial(m) then m.percentage else 0.0)
  {
    assert [m][..0] == [];
  }

  /** With non-negative percentages the found share lies between 0 and the total. */
  lemma {:induction false} RecycledMaterialsPercentageBounds(ms: seq<MaterialEntry>)
    requires forall i :: 0 <= i < |ms| ==> ms[i].percentage >= 0.0
    ensures 0.0 <= RecycledMaterialsPercentage(ms) <= PercentageSum(ms)
  {
    if |ms| > 0 {
      RecycledMaterialsPercentageBounds(ms[..|ms| - 1]);
    }
  }

  // ---------------------------------------------------------------------------
  // Synergy and durability.

  /** `calculateRecyclingSynergyBonus`, on the declared recycled share. */
  function RecyclingSynergyBonus(recyclabilityPercentage: real, recycledContentPercentage: real): int
  {
    if recyclabilityPercentage >= 70.0 && recycledContentPercentage >= 50.0 then 8
    else if recyclabilityPercentage >= 50.0 && recycledContentPercentage >= 30.0 then 4
    else 0
  }

  /** The three synergy cases, each stated as the condition that produces it. */
  lemma RecyclingSynergyBonusCases(recyclability: real, recycled: real)
    ensures RecyclingSynergyBonus(recyclability, recycled) == 8 <==> recyclability >= 70.0 && recycled >= 50.0
    ensures RecyclingSynergyBonus(recyclability, recycled) == 4
            <==> !(recyclability >= 70.0 && recycled >= 50.0) && recyclability >= 50.0 && recycled >= 30.0
    ensures RecyclingSynergyBonus(recyclability, recycled) == 0
            <==> !(recyclability >= 50.0 && recycled >= 30.0)
  {
  }

  /** `calculateDurabilityScore` */
  function DurabilityScore(expectedLifetimeCycles: real): int
  {
    if expectedLifetimeCycles >= 100.0 then 8
    else if expectedLifetimeCycles >= 70.0 then 5
    else if expectedLifetimeCycles >= 50.0 then 2
    else if expectedLifetimeCycles >= 30.0 then 0
    else if expectedLifetimeCycles >= 15.0 then -5
    else -10
  }

  /** The durability band takes one of six values and never falls as the lifetime rises. */
  lemma DurabilityScoreBands(x: real, y: real)
    ensures DurabilityScore(x) in {8, 5, 2, 0, -5, -10}
    ensures x <= y ==> DurabilityScore(x) <= DurabilityScore(y)
  {
  }

  // ---------------------------------------------------------------------------
  // Natural materials.

  /** `naturalKeywords`, Polish and English stems. */
  const NaturalKeywords: seq<string> := [
    "cotton", "bawełn", "wool", "wełn", "silk", "jedwab", "linen", "len", "hemp", "konop",
    "bamboo", "bambus", "alpaca", "alpaka", "merino", "leather", "skór", "cashmere", "kaszmir",
    "tencel", "lyocell", "viscose", "wiskoz", "modal", "rayon", "jute", "juta", "ramie"]

  /** `syntheticKeywords` */
  const SyntheticKeywords: seq<string> := [
    "polyester", "poliester", "nylon", "poliamid", "elastan", "spandex", "lycra",
    "acrylic", "akryl", "polypropylene", "polipropylen"]

  /** The classification `isNaturalMaterial` computes: no synthetic keyword occurs in the
      lower-cased name and some natural keyword does. */
  predicate IsNatural(materialName: string)
  {
    var lowerName := Lower(materialName);
    !ContainsAny(lowerName, SyntheticKeywords) && ContainsAny(lowerName, NaturalKeywords)
  }

  /** `isNaturalMaterial`: the synthetic keywords are tried first, each a possible early
      `false`; then the natural ones, each a possible early `true`. */
  method IsNaturalMaterial(materialName: string) returns (natural: bool)
    ensures natural <==> IsNatural(materialName)
  {
    var lowerName := Lower(materialName);
    for i := 0 to |SyntheticKeywords|
      invariant forall j :: 0 <= j < i ==> !Contains(lowerName, SyntheticKeywords[j])
    {
      if Contains(lowerName, SyntheticKeywords[i]) {
        return false;
      }
    }
    for i := 0 to |NaturalKeywords|
      invariant forall j :: 0 <= j < i ==> !Contains(lowerName, NaturalKeywords[j])
    {
      if Contains(lowerName, NaturalKeywords[i]) {
        return true;
      }
    }
    return false;
  }

  /** A synthetic keyword wins over any natural one in the same name. */
  lemma SyntheticWins(materialName: string, k: nat)
    requires k < |SyntheticKeywords| && Contains(Lower(materialName), SyntheticKeywords[k])
    ensures !IsNatural(materialName)
  {
  }

  /** A name with no natural keyword is not natural. */
  lemma NoNaturalKeywordNotNatural(materialName: string)
    requires forall k :: 0 <= k < |NaturalKeywords| ==> !Contains(Lower(materialName), NaturalKeywords[k])
    ensures !IsNatural(materialName)
  {
  }

  /** "polipropylen" contains the natural stem "len", yet is classified synthetic. */
  lemma PolipropylenIsSynthetic()
    ensures Contains(Lower("polipropylen"), "len")
    ensures !IsNatural("polipropylen")
  {
    LowersTo("polipropylen", "polipropylen");
    ContainsByMatch("polipropylen", "len", 9);
    ContainsByMatch("polipropylen", "polipropylen", 0);
    assert SyntheticKeywords[10] == "polipropylen";
    SyntheticWins("polipropylen", 10);
  }

  /** The organic mark: a certification containing "organic", "gots" or "organiczn"
      (ignoring case), or a name containing "organiczn" or "organic" (lower-cased). */
  predicate OrganicCertification(c: string)
  {
    var certLower := Lower(c);
    Contains(certLower, "organic") || Contains(certLower, "gots") || Contains(certLower, "organiczn")
  }

  predicate HasOrganicMark(m: MaterialEntry)
  {
    (exists i :: 0 <= i < |m.certifications| && OrganicCertification(m.certifications[i]))
    || Contains(Lower(m.material), "organiczn") || Contains(Lower(m.material), "organic")
  }

  /** The summed percentage of the natural materials. */
  function NaturalPercentage(ms: seq<MaterialEntry>): real
  {
    if |ms| == 0 then 0.0
    else NaturalPercentage(ms[..|ms| - 1])
         + (if IsNatural(ms[|ms| - 1].material) then ms[|ms| - 1].percentage else 0.0)
  }

  /** The summed percentage of the natural materials that carry the organic mark. */
  function OrganicPercentage(ms: seq<MaterialEntry>): real
  {
    if |ms| == 0 then 0.0
    else OrganicPercentage(ms[..|ms| - 1])
         + (if IsNatural(ms[|ms| - 1].material) && HasOrganicMark(ms[|ms| - 1]) then ms[|ms| - 1].percentage else 0.0)
  }

  /** Base points for the natural share; nothing at all between 10 and 20 %. */
  function NaturalBand(naturalPercentage: real): int
  {
    if naturalPercentage >= 95.0 then 15
    else if naturalPercentage >= 80.0 then 12
    else if naturalPercentage >= 60.0 then 8
    else if naturalPercentage >= 40.0 then 4
    else if naturalPercentage >= 20.0 then 1
    else if naturalPercentage < 10.0 then -8
    else 0
  }

  function OrganicBonus(organicPercentage: real): int
  {
    if organicPercentage >= 50.0 then 5
    else if organicPercentage >= 30.0 then 3
    else if organicPercentage >= 10.0 then 1
    else 0
  }

  /** What `calculateNaturalMaterialsScore` returns. */
  function NaturalMaterialsScore(ms: seq<MaterialEntry>): int
  {
    NaturalBand(NaturalPercentage(ms)) + OrganicBonus(OrganicPercentage(ms))
  }

  /** `calculateNaturalMaterialsScore`: one `forEach` summing both shares, then the bands. */
  method CalculateNaturalMaterialsScore(materialComposition: seq<MaterialEntry>) returns (score: int)
    ensures score == NaturalMaterialsScore(materialComposition)
  {
    var naturalPercentage := 0.0;
    var organicPercentage := 0.0;
    for i := 0 to |materialComposition|
      invariant naturalPercentage == NaturalPercentage(materialComposition[..i])
      invariant organicPercentage == OrganicPercentage(materialComposition[..i])
    {
      var m := materialComposition[i];
      assert materialComposition[..i + 1][..i] == materialComposition[..i];
      var natural := IsNaturalMaterial(m.material);
      if natural {
        naturalPercentage := naturalPercentage + m.percentage;
        if HasOrganicMark(m) {
          organicPercentage := organicPercentage + m.percentage;
        }
      }
    }
    assert materialComposition[..|materialComposition|] == materialComposition;
    score := 0;
    if naturalPercentage >= 95.0 {
      score := score + 15;
    } else if naturalPercentage >= 80.0 {
      score := score + 12;
    } else if naturalPercentage >= 60.0 {
      score := score + 8;
    } else if naturalPercentage >= 40.0 {
      score := score + 4;
    } else if naturalPercentage >= 20.0 {
      score := score + 1;
    } else if naturalPercentage < 10.0 {
      score := score - 8;
    }
    if organicPercentage >= 50.0 {
      score := score + 5;
    } else if organicPercentage >= 30.0 {
      score := score + 3;
    } else if organicPercentage >= 10.0 {
      score := score + 1;
    }
  }

  /** The natural band is 0 exactly on the gap 10 <= n < 20. */
  lemma NaturalBandGap(n: real)
    ensures NaturalBand(n) == 0 <==> 10.0 <= n < 20.0
  {
  }

  /** A material that is not natural adds nothing to either share, whatever its
      certifications say. */
  lemma NonNaturalAddsNothing(ms: seq<MaterialEntry>, m: MaterialEntry)
    requires !IsNatural(m.material)
    ensures NaturalPercentage(ms + [m]) == NaturalPercentage(ms)
    ensures OrganicPercentage(ms + [m]) == OrganicPercentage(ms)
  {
    assert (ms + [m])[..|ms|] == ms;
  }

  /** With non-negative percentages the organic share never exceeds the natural share. */
  lemma {:induction false} OrganicWithinNatural(ms: seq<MaterialEntry>)
    requires forall i :: 0 <= i < |ms| ==> ms[i].percentage >= 0.0
    ensures 0.0 <= OrganicPercentage(ms) <= NaturalPercentage(ms)
  {
    if |ms| > 0 {
      OrganicWithinNatural(ms[..|ms| - 1]);
    }
  }

  // ---------------------------------------------------------------------------
  // Carbon footprint.

  /** This file's own `mapCategory`. */
  function ScoreCategory(category: string): Category
  {
    var lowerCategory := Lower(category);
    if Contains(lowerCategory, "t-shirt") || Contains(lowerCategory, "koszulka") then Koszulki
    else if Contains(lowerCategory, "pants") || Contains(lowerCategory, "spodnie") then Spodnie
    else if Contains(lowerCategory, "hoodie") || Contains(lowerCategory, "bluza") then Bluzy
    else if Contains(lowerCategory, "sock") || Contains(lowerCategory, "skarpet") then Skarpety
    else Inne
  }

  /** The two copies of `mapCategory` agree on every string. */
  lemma ScoreCategoryAgrees(category: string)
    ensures ScoreCategory(category) == MapCategory(category)
  {
  }

  /** `categoryThresholds[category] || 5.0`: every category has a positive threshold,
      so the fallback is never taken. */
  function CarbonThreshold(c: Category): (t: real)
    ensures t > 0.0
  {
    match c
    case Koszulki => 3.0
    case Skarpety => 2.0
    case Spodnie => 5.0
    case Bluzy => 6.0
    case Inne => 5.0
  }

  /** `calculateCarbonFootprintScore` */
  function CarbonFootprintScore(carbonFootprintKgCO2e: real, category: Category): int
  {
    var threshold := CarbonThreshold(category);
    if carbonFootprintKgCO2e <= threshold * 0.5 then 10
    else if carbonFootprintKgCO2e <= threshold then 5
    else if carbonFootprintKgCO2e <= threshold * 1.5 then 0
    else if carbonFootprintKgCO2e <= threshold * 2.0 then -10
    else if carbonFootprintKgCO2e <= threshold * 3.0 then -20
    else -30
  }

  /** The carbon band takes one of six values and, for a fixed category, never rises
      as the footprint grows. */
  lemma CarbonFootprintScoreBands(x: real, y: real, c: Category)
    ensures CarbonFootprintScore(x, c) in {10, 5, 0, -10, -20, -30}
    ensures x <= y ==> CarbonFootprintScore(y, c) <= CarbonFootprintScore(x, c)
  {
  }

  // ---------------------------------------------------------------------------
  // The weighted total.

  /** The repair points: -10 for exactly "high", +5 for exactly "low", else 0. */
  function RepairabilityPoints(repairDifficulty: string): int
  {
    if repairDifficulty == "high" then -10 else if repairDifficulty == "low" then 5 else 0
  }

  function HazardTerm(p: Passport, w: Weights): real
  {
    if |p.environmentalImpact.hazardousSubstances| > 0 then -(20.0 * w.hazardousSubstances) else 0.0
  }

  function CertificationTerm(p: Passport, w: Weights): real
  {
    if HasCertifications(p.materialComposition) then 10.0 * w.certifications else 0.0
  }

  /** `points * weight` */
  function Weigh(points: int, weight: real): real
  {
    points as real * weight
  }

  function CarbonTerm(p: Passport, w: Weights): real
  {
    Weigh(CarbonFootprintScore(p.environmentalImpact.carbonFootprintKgCO2e, ScoreCategory(p.product.category)),
          w.carbonFootprint)
  }

  function RecycledTerm(p: Passport, w: Weights): real
  {
    Weigh(RecycledContentScore(p.environmentalImpact.recycledContentPercentage, p.materialComposition),
          w.recycledContent)
  }

  function RecyclabilityTerm(p: Passport, w: Weights): real
  {
    Weigh(RecyclabilityScore(p.endOfLife.recyclabilityPercentage), w.recyclability)
  }

  /** The synergy bonus is added unweighted. */
  function SynergyTerm(p: Passport): real
  {
    RecyclingSynergyBonus(p.endOfLife.recyclabilityPercentage, p.environmentalImpact.recycledContentPercentage) as real
  }

  function RepairTerm(p: Passport, w: Weights): real
  {
    Weigh(RepairabilityPoints(p.durabilityAndCare.repairability.repairDifficulty), w.repairability)
  }

  function DurabilityTerm(p: Passport, w: Weights): real
  {
    Weigh(DurabilityScore(p.durabilityAndCare.expectedLifetimeCycles), w.durability)
  }

  function NaturalTerm(p: Passport, w: Weights): real
  {
    Weigh(NaturalMaterialsScore(p.materialComposition), w.naturalMaterials)
  }

  /** The running `score` just before rounding: the baseline of 50 plus every term. */
  function RawEcoScore(p: Passport, w: Weights): real
  {
    50.0 + CarbonTerm(p, w) + RecycledTerm(p, w) + RecyclabilityTerm(p, w) + SynergyTerm(p)
    + HazardTerm(p, w) + RepairTerm(p, w) + DurabilityTerm(p, w) + NaturalTerm(p, w) + CertificationTerm(p, w)
  }

  /** The score `calculateProductEcoScore` returns: an integer in [0, 100] for every
      passport and every choice of weights. */
  function ProductEcoScore(p: Passport, w: Weights): (r: int)
    ensures 0 <= r <= 100
    ensures 0.0 <= RawEcoScore(p, w) <= 100.0 ==> r == Round(RawEcoScore(p, w))
    ensures RawEcoScore(p, w) < 0.0 ==> r == 0
    ensures RawEcoScore(p, w) > 100.0 ==> r == 100
  {
    ClampInt(0, 100, Round(RawEcoScore(p, w)))
  }

  /** `calculateProductEcoScore`: accumulates `score` term by term, then rounds and clamps. */
  method CalculateProductEcoScore(passport: Passport, weights: Weights) returns (finalScore: int)
    ensures finalScore == ProductEcoScore(passport, weights)
  {
    var score := 50.0;
    var category := ScoreCategory(passport.product.category);
    var carbonScore := CarbonFootprintScore(passport.environmentalImpact.carbonFootprintKgCO2e, category);
    score := score + Weigh(carbonScore, weights.carbonFootprint);
    var recycledScore := CalculateRecycledContentScore(
      passport.environmentalImpact.recycledContentPercentage, passport.materialComposition);
    score := score + Weigh(recycledScore, weights.recycledContent);
    var recyclabilityScore := RecyclabilityScore(passport.endOfLife.recyclabilityPercentage);
    score := score + Weigh(recyclabilityScore, weights.recyclability);
    var synergyBonus := RecyclingSynergyBonus(
      passport.endOfLife.recyclabilityPercentage, passport.environmentalImpact.recycledContentPercentage);
    score := score + synergyBonus as real;
    if |passport.environmentalImpact.hazardousSubstances| > 0 {
      score := score - 20.0 * weights.hazardousSubstances;
    }
    var repairabilityScore := RepairabilityPoints(passport.durabilityAndCare.repairability.repairDifficulty);
    score := score + Weigh(repairabilityScore, weights.repairability);
    var durabilityScore := DurabilityScore(passport.durabilityAndCare.expectedLifetimeCycles);
    score := score + Weigh(durabilityScore, weights.durability);
    var naturalMaterialsScore := CalculateNaturalMaterialsScore(passport.materialComposition);
    score := score + Weigh(naturalMaterialsScore, weights.naturalMaterials);
    if HasCertifications(passport.materialComposition) {
      score := score + 10.0 * weights.certifications;
    }
    finalScore := MaxInt(0, MinInt(100, Round(score)));
  }

  /** The flat terms: the hazardous penalty, the repair points and the certification bonus,
      each with the condition that switches it on. */
  lemma FlatTerms(p: Passport, w: Weights)
    ensures |p.environmentalImpact.hazardousSubstances| > 0 ==> HazardTerm(p, w) == -20.0 * w.hazardousSubstances
    ensures |p.environmentalImpact.hazardousSubstances| == 0 ==> HazardTerm(p, w) == 0.0
    ensures RepairabilityPoints(p.durabilityAndCare.repairability.repairDifficulty) == -10
            <==> p.durabilityAndCare.repairability.repairDifficulty == "high"
    ensures RepairabilityPoints(p.durabilityAndCare.repairability.repairDifficulty) == 5
            <==> p.durabilityAndCare.repairability.repairDifficulty == "low"
    ensures HasCertifications(p.materialComposition) ==> CertificationTerm(p, w) == 10.0 * w.certifications
    ensures !HasCertifications(p.materialComposition) ==> CertificationTerm(p, w) == 0.0
  {
  }

  /** The passport with a different declared recycled-content percentage. */
  function WithDeclaredRecycled(p: Passport, r: real): Passport
  {
    p.(environmentalImpact := p.environmentalImpact.(recycledContentPercentage := r))
  }

  /** The raw score never falls when the declared recycled share rises, as long as the
      recycled-content weight is not negative. */
  lemma RawScoreMonotoneInDeclaredRecycled(p: Passport, r: real, w: Weights)
    requires w.recycledContent >= 0.0
    requires p.environmentalImpact.recycledContentPercentage <= r
    ensures RawEcoScore(p, w) <= RawEcoScore(WithDeclaredRecycled(p, r), w)
  {
    var q := WithDeclaredRecycled(p, r);
    var ms := p.materialComposition;
    RecycledContentBandMonotone(
      EffectiveRecycledPercentage(p.environmentalImpact.recycledContentPercentage, ms),
      EffectiveRecycledPercentage(r, ms));
    var before := RecycledContentScore(p.environmentalImpact.recycledContentPercentage, ms);
    var after := RecycledContentScore(r, ms);
    assert before <= after;
    assert RecycledTerm(p, w) <= RecycledTerm(q, w) by {
      assert RecycledTerm(p, w) == before as real * w.recycledContent;
      assert RecycledTerm(q, w) == after as real * w.recycledContent;
    }
    assert SynergyTerm(p) <= SynergyTerm(q);
    assert CarbonTerm(p, w) == CarbonTerm(q, w);
    assert RecyclabilityTerm(p, w) == RecyclabilityTerm(q, w);
    assert HazardTerm(p, w) == HazardTerm(q, w);
    assert RepairTerm(p, w) == RepairTerm(q, w);
    assert DurabilityTerm(p, w) == DurabilityTerm(q, w);
    assert NaturalTerm(p, w) == NaturalTerm(q, w);
    assert CertificationTerm(p, w) == CertificationTerm(q, w);
  }

  /** Raising the declared recycled-content percentage never lowers the final score,
      as long as the recycled-content weight is not negative. */
  lemma ScoreMonotoneInDeclaredRecycled(p: Passport, r: real, w: Weights)
    requires w.recycledContent >= 0.0
    requires p.environmentalImpact.recycledContentPercentage <= r
    ensures ProductEcoScore(p, w) <= ProductEcoScore(WithDeclaredRecycled(p, r), w)
  {
    RawScoreMonotoneInDeclaredRecycled(p, r, w);
    RoundMonotone(RawEcoScore(p, w), RawEcoScore(WithDeclaredRecycled(p, r), w));
  }

  /** The synergy bonus reads the declared share only: replacing the materials, and with
      them the recycled share found in them, never changes the synergy term. */
  lemma SynergyIgnoresMaterials(p: Passport, ms: seq<MaterialEntry>)
    ensures SynergyTerm(p.(materialComposition := ms)) == SynergyTerm(p)
  {
  }

  /** The synergy term uses the declared share, not the effective one: a composition that
      is entirely "GRS"-certified gives an effective share of 100, on which the bonus would
      be 8, yet with nothing declared the synergy term stays 0. */
  lemma SynergyUsesDeclaredShare(p: Passport)
    requires p.environmentalImpact.recycledContentPercentage == 0.0
    requires p.endOfLife.recyclabilityPercentage >= 70.0
    requires p.materialComposition == [MaterialEntry("Polyester", 100.0, ["GRS"])]
    ensures EffectiveRecycledPercentage(0.0, p.materialComposition) == 100.0
    ensures RecyclingSynergyBonus(p.endOfLife.recyclabilityPercentage, 100.0) == 8
    ensures SynergyTerm(p) == 0.0
  {
    var m := p.materialComposition[0];
    LowersTo("GRS", "grs");
    ContainsByMatch("grs", "grs", 0);
    assert RecycledCertification(m.certifications[0]);
    RecycledMaterialsPercentageOfOne(m);
  }

  /** The flat terms of this formula and of the conversion's formula switch on under the
      same conditions, for positive weights. */
  lemma FlatTermsMatchConversion(p: Passport, w: Weights)
    requires w.hazardousSubstances > 0.0 && w.certifications > 0.0
    ensures HazardTerm(p, w) < 0.0 <==> HazardPenalty(p.environmentalImpact.hazardousSubstances) > 0.0
    ensures RepairabilityPoints(p.durabilityAndCare.repairability.repairDifficulty) as real
            == RepairAdjustment(p.durabilityAndCare.repairability.repairDifficulty)
    ensures CertificationTerm(p, w) > 0.0 <==> CertificationAdjustment(p.materialComposition) > 0.0
  {
  }

  // ---------------------------------------------------------------------------
  // The conversion's material flags against this engine's classifiers.

  /** A lower-cased name shorter than every synthetic keyword without a "y" contains no
      synthetic keyword: "nylon", "lycra" and "akryl" all have a "y", the rest are longer. */
  lemma ShortNameNoSynthetic(lowerName: string)
    requires |lowerName| < 7 && 'y' !in lowerName
    ensures !ContainsAny(lowerName, SyntheticKeywords)
  {
    forall k | 0 <= k < |SyntheticKeywords| ensures !Contains(lowerName, SyntheticKeywords[k]) {
      if |SyntheticKeywords[k]| <= |lowerName| {
        NotContainsChar(lowerName, SyntheticKeywords[k], 'y');
      }
    }
  }

  /** A name whose lower-cased form is the natural keyword at index `k`, short and without
      a "y", is natural. */
  lemma NaturalByKeyword(name: string, lowerName: string, k: nat)
    requires |name| == |lowerName| && LowersToFrom(name, lowerName, 0)
    requires k < |NaturalKeywords| && NaturalKeywords[k] == lowerName
    requires |lowerName| < 7 && 'y' !in lowerName
    ensures IsNatural(name)
  {
    LowersTo(name, lowerName);
    ShortNameNoSynthetic(lowerName);
    ContainsByMatch(lowerName, lowerName, 0);
  }

  lemma CottonOrWoolNatural(name: string)
    requires name == "Cotton" || name == "Wool"
    ensures IsNatural(name)
  {
    if name == "Cotton" { NaturalByKeyword("Cotton", "cotton", 0); }
    else { NaturalByKeyword("Wool", "wool", 2); }
  }

  lemma SilkOrLinenNatural(name: string)
    requires name == "Silk" || name == "Linen"
    ensures IsNatural(name)
  {
    if name == "Silk" { NaturalByKeyword("Silk", "silk", 4); }
    else { NaturalByKeyword("Linen", "linen", 6); }
  }

  lemma HempOrBambooNatural(name: string)
    requires name == "Hemp" || name == "Bamboo"
    ensures IsNatural(name)
  {
    if name == "Hemp" { NaturalByKeyword("Hemp", "hemp", 8); }
    else { NaturalByKeyword("Bamboo", "bamboo", 10); }
  }

  /** Each of the conversion's seven English names is natural for this engine too. */
  lemma EnglishNaturalNameIsNatural(name: string)
    requires name in EnglishNaturalNames
    ensures IsNatural(name)
  {
    if name == "Cotton" || name == "Wool" {
      CottonOrWoolNatural(name);
    } else if name == "Silk" || name == "Linen" {
      SilkOrLinenNatural(name);
    } else if name == "Hemp" || name == "Bamboo" {
      HempOrBambooNatural(name);
    } else {
      NaturalByKeyword(name, "alpaca", 12);
    }
  }

  /** Every material the conversion marks natural is natural for this engine; the converse
      fails, for instance on "cotton", which only the engine accepts. */
  lemma ConversionNaturalIsNatural(m: MaterialEntry)
    ensures ToMaterial(m).isNatural ==> IsNatural(m.material)
    ensures IsNatural("cotton") && !ToMaterial(MaterialEntry("cotton", m.percentage, m.certifications)).isNatural
  {
    if ToMaterial(m).isNatural {
      EnglishNaturalNameIsNatural(m.material);
    }
    NaturalByKeyword("cotton", "cotton", 0);
  }

  /** Every material the conversion marks recycled is recycled for this engine. */
  lemma ConversionRecycledIsRecycled(m: MaterialEntry)
    ensures ToMaterial(m).isRecycled ==> IsRecycledMaterial(m)
  {
    if ToMaterial(m).isRecycled {
      var i :| 0 <= i < |m.certifications| && Contains(Lower(m.certifications[i]), "recycled");
      assert RecycledCertification(m.certifications[i]);
    }
  }

  /** The converse fails: a lone certification that lower-cases to "grs" or "rpet" makes a
      material recycled for this engine, but not for the conversion, which looks only for
      "recycled". */
  lemma RecycledMarkOnlyForEngine(m: MaterialEntry, c: string)
    requires Lower(c) == "grs" || Lower(c) == "rpet"
    ensures IsRecycledMaterial(m.(certifications := [c]))
    ensures !ToMaterial(m.(certifications := [c])).isRecycled
  {
    if Lower(c) == "grs" {
      ContainsByMatch("grs", "grs", 0);
    } else {
      ContainsByMatch("rpet", "rpet", 0);
    }
    assert RecycledCertification([c][0]);
  }

  /** "GRS" is one such certification. */
  lemma GrsOnlyForEngine(m: MaterialEntry)
    ensures IsRecycledMaterial(m.(certifications := ["GRS"]))
    ensures !ToMaterial(m.(certifications := ["GRS"])).isRecycled
  {
    LowersTo("GRS", "grs");
    RecycledMarkOnlyForEngine(m, "GRS");
  }
}
