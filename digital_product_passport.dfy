/** The Digital Product Passport record and its conversion into a wardrobe
    product (eco-wardrobe-frontend/src/types/digitalProductPassport.ts). */
module DigitalProductPassport {
  import opened Optional
  import opened Text
  import opened JsMath
  import opened ProductTypes

  datatype ProductInfo = ProductInfo(
    productId: string, gtin: string, name: string, category: string, brand: string, model: string)

  datatype MaterialEntry = MaterialEntry(material: string, percentage: real, certifications: seq<string>)

  datatype EnvironmentalImpact = EnvironmentalImpact(
    carbonFootprintKgCO2e: real,
    waterUsageLiters: real,
    energyKWh: real,
    recycledContentPercentage: real,
    hazardousSubstances: seq<string>)

  datatype Producer = Producer(name: string, address: string, contact: string)

  datatype ProductionSite = ProductionSite(country: string, facilityId: string, processes: seq<string>)

  datatype Manufacturing = Manufacturing(
    producer: Producer, productionSites: seq<ProductionSite>, manufacturingDate: string)

  datatype Repairability = Repairability(
    repairDifficulty: string, sparePartsAvailable: bool, repairGuidesUrl: string)

  datatype DurabilityAndCare = DurabilityAndCare(
    expectedLifetimeCycles: real, washInstructions: string, repairability: Repairability)

  datatype TakeBackProgram = TakeBackProgram(programName: string, url: string)

  datatype EndOfLife = EndOfLife(
    recyclabilityPercentage: real,
    disassemblyInstructionsUrl: string,
    takeBackPrograms: seq<TakeBackProgram>)

  datatype SupplyChainStage = SupplyChainStage(
    stage: string, supplier: string, country: string, certificate: Option<string>)

  /** `supplyChainTraceability`: the `chain` of stages. */
  datatype SupplyChainTraceability = SupplyChainTraceability(chain: seq<SupplyChainStage>)

  datatype Metadata = Metadata(passportCreated: string, passportLastUpdated: string, dataOwner: string)

  /** `DigitalProductPassport` */
  datatype Passport = Passport(
    version: string,
    product: ProductInfo,
    materialComposition: seq<MaterialEntry>,
    environmentalImpact: EnvironmentalImpact,
    manufacturing: Manufacturing,
    durabilityAndCare: DurabilityAndCare,
    endOfLife: EndOfLife,
    supplyChainTraceability: SupplyChainTraceability,
    metadata: Metadata)

  /** What `convertDPPtoProduct` accepts: a bare passport or `{ productPassport: p }`. */
  datatype PassportInput = Bare(passport: Passport) | Wrapped(productPassport: Passport)

  /** The `{ passport, product }` pair `convertDPPtoProduct` returns. */
  datatype Conversion = Conversion(passport: Passport, product: Product)

  function Unwrap(input: PassportInput): Passport
  {
    match input
    case Bare(p) => p
    case Wrapped(p) => p
  }

  /** A wrapped `{ productPassport: p }` and a bare `p` are the same passport, so the
      conversion, which reads its input only through `Unwrap`, treats them alike. */
  lemma WrappedAndBareAgree(p: Passport)
    ensures Unwrap(Wrapped(p)) == p && Unwrap(Bare(p)) == p
  {
  }

  // ---------------------------------------------------------------------------
  // The eco score of the conversion: a baseline of 100 with penalties and bonuses.

  /** Carbon-footprint penalty: `min(30, (cf - 5) * 5)` above 5 kg, nothing otherwise. */
  function CarbonPenalty(cf: real): real
  {
    if cf > 5.0 then Min(30.0, (cf - 5.0) * 5.0) else 0.0
  }

  /** Declared recycled content: +10 above 50 %, -15 at exactly 0 %, else 0. */
  function RecycledAdjustment(recycled: real): real
  {
    if recycled > 50.0 then 10.0 else if recycled == 0.0 then -15.0 else 0.0
  }

  function HazardPenalty(hazardous: seq<string>): real
  {
    if |hazardous| > 0 then 20.0 else 0.0
  }

  function RecyclabilityPenalty(recyclability: real): real
  {
    if recyclability < 50.0 then 20.0 else 0.0
  }

  function RepairAdjustment(difficulty: string): real
  {
    if difficulty == "high" then -10.0 else if difficulty == "low" then 5.0 else 0.0
  }

  /** `materialComposition.some(m => m.certifications.length > 0)` */
  predicate HasCertifications(ms: seq<MaterialEntry>)
  {
    exists i :: 0 <= i < |ms| && |ms[i].certifications| > 0
  }

  function CertificationAdjustment(ms: seq<MaterialEntry>): real
  {
    if HasCertifications(ms) then 10.0 else 0.0
  }

  /** The score before clamping. */
  function UnclampedPassportScore(p: Passport): real
  {
    100.0
    - CarbonPenalty(p.environmentalImpact.carbonFootprintKgCO2e)
    + RecycledAdjustment(p.environmentalImpact.recycledContentPercentage)
    - HazardPenalty(p.environmentalImpact.hazardousSubstances)
    - RecyclabilityPenalty(p.endOfLife.recyclabilityPercentage)
    + RepairAdjustment(p.durabilityAndCare.repairability.repairDifficulty)
    + CertificationAdjustment(p.materialComposition)
  }

  /** The eco score `convertDPPtoProduct` stores: clamped to [0, 100], not rounded. */
  function PassportEcoScore(p: Passport): (score: real)
    ensures 0.0 <= score <= 100.0
  {
    Max(0.0, Min(100.0, UnclampedPassportScore(p)))
  }

  /** The carbon penalty applies only above 5 kg and never exceeds 30 points. */
  lemma CarbonPenaltyBounds(cf: real)
    ensures 0.0 <= CarbonPenalty(cf) <= 30.0
    ensures CarbonPenalty(cf) > 0.0 <==> cf > 5.0
    ensures cf >= 11.0 ==> CarbonPenalty(cf) == 30.0
  {
  }

  /** Each term of the score separately, as `convertDPPtoProduct` states it. */
  lemma PassportScoreTerms(p: Passport)
    ensures RecycledAdjustment(p.environmentalImpact.recycledContentPercentage) == 10.0
            <==> p.environmentalImpact.recycledContentPercentage > 50.0
    ensures RecycledAdjustment(p.environmentalImpact.recycledContentPercentage) == -15.0
            <==> p.environmentalImpact.recycledContentPercentage == 0.0
    ensures HazardPenalty(p.environmentalImpact.hazardousSubstances) == 20.0
            <==> |p.environmentalImpact.hazardousSubstances| > 0
    ensures RecyclabilityPenalty(p.endOfLife.recyclabilityPercentage) == 20.0
            <==> p.endOfLife.recyclabilityPercentage < 50.0
    ensures RepairAdjustment(p.durabilityAndCare.repairability.repairDifficulty) == -10.0
            <==> p.durabilityAndCare.repairability.repairDifficulty == "high"
    ensures RepairAdjustment(p.durabilityAndCare.repairability.repairDifficulty) == 5.0
            <==> p.durabilityAndCare.repairability.repairDifficulty == "low"
    ensures CertificationAdjustment(p.materialComposition) == 10.0
            <==> HasCertifications(p.materialComposition)
  {
  }

  /** Raising a non-negative declared recycled-content percentage never lowers the score. */
  lemma PassportScoreMonotoneInRecycled(p: Passport, r: real)
    requires 0.0 <= p.environmentalImpact.recycledContentPercentage <= r
    ensures PassportEcoScore(p) <= PassportEcoScore(
              p.(environmentalImpact := p.environmentalImpact.(recycledContentPercentage := r)))
  {
  }

  // ---------------------------------------------------------------------------
  // The other derived product fields.

  /** The seven English names the conversion treats as natural, matched exactly. */
  const EnglishNaturalNames: seq<string> := ["Cotton", "Wool", "Silk", "Linen", "Hemp", "Bamboo", "Alpaca"]

  /** `isRecycled`: some certification contains "recycled", ignoring case. */
  predicate CertifiedRecycled(certifications: seq<string>)
  {
    exists i :: 0 <= i < |certifications| && Contains(Lower(certifications[i]), "recycled")
  }

  /** One element of the `materialComposition.map(...)`. */
  function ToMaterial(m: MaterialEntry): (r: Material)
    ensures r.name == m.material && r.percentage == m.percentage
    ensures r.isNatural <==> m.material in EnglishNaturalNames
    ensures r.isRecycled <==> CertifiedRecycled(m.certifications)
  {
    Material(m.material, m.percentage, m.material in EnglishNaturalNames, CertifiedRecycled(m.certifications))
  }

  /** The natural test is case-sensitive: "cotton" is not natural here. */
  lemma NaturalNameIsCaseSensitive()
    ensures !ToMaterial(MaterialEntry("cotton", 100.0, [])).isNatural
    ensures ToMaterial(MaterialEntry("Cotton", 100.0, [])).isNatural
  {
  }

  function RecyclabilityTierOf(recyclability: real): RecyclabilityTier
  {
    if recyclability >= 80.0 then Full else if recyclability >= 40.0 then Partial else NotRecyclable
  }

  /** The tier thresholds, both directions. */
  lemma RecyclabilityTierBands(pct: real)
    ensures RecyclabilityTierOf(pct) == Full <==> pct >= 80.0
    ensures RecyclabilityTierOf(pct) == Partial <==> 40.0 <= pct < 80.0
    ensures RecyclabilityTierOf(pct) == NotRecyclable <==> pct < 40.0
  {
  }

  /** `environmentalImpact`: half the carbon footprint, rounded, kept within 1..10. */
  function EnvironmentalImpactIndex(cf: real): (r: int)
    ensures 1 <= r <= 10
    ensures 1 <= Round(cf / 2.0) <= 10 ==> r == Round(cf / 2.0)
  {
    MinInt(10, MaxInt(1, Round(cf / 2.0)))
  }

  /** The local `mapCategory`: the first matching keyword wins, anything else is "inne". */
  function MapCategory(category: string): Category
  {
    var lowerCategory := Lower(category);
    if Contains(lowerCategory, "t-shirt") || Contains(lowerCategory, "koszulka") then Koszulki
    else if Contains(lowerCategory, "pants") || Contains(lowerCategory, "spodnie") then Spodnie
    else if Contains(lowerCategory, "hoodie") || Contains(lowerCategory, "bluza") then Bluzy
    else if Contains(lowerCategory, "sock") || Contains(lowerCategory, "skarpet") then Skarpety
    else Inne
  }

  /** The local `getEcoRating`. */
  function LocalEcoRating(score: real): EcoRating
  {
    if score >= 80.0 then Excellent
    else if score >= 60.0 then Good
    else if score >= 40.0 then Medium
    else if score >= 20.0 then Poor
    else Bad
  }

  /** The local copy of the rating bands agrees with `getEcoRating` of product.ts everywhere. */
  lemma LocalEcoRatingAgrees(score: real)
    ensures LocalEcoRating(score) == GetEcoRating(score)
  {
  }

  // ---------------------------------------------------------------------------
  // Facts.

  /** `arr.indexOf(x)`: the first index of `x`, or -1. */
  function IndexOf<T(==)>(arr: seq<T>, x: T): (r: int)
    ensures -1 <= r < |arr|
    ensures r == -1 <==> x !in arr
    ensures r >= 0 ==> arr[r] == x && forall j :: 0 <= j < r ==> arr[j] != x
  {
    if |arr| == 0 then -1
    else if arr[0] == x then 0
    else var r := IndexOf(arr[1..], x); if r == -1 then -1 else r + 1
  }

  function DedupFrom<T(==)>(arr: seq<T>, i: nat): seq<T>
    requires i <= |arr|
    decreases |arr| - i
  {
    if i == |arr| then []
    else (if IndexOf(arr, arr[i]) == i then [arr[i]] else []) + DedupFrom(arr, i + 1)
  }

  /** `arr.filter((c, i, arr) => arr.indexOf(c) === i)`: keep first occurrences. */
  function Dedup<T(==)>(arr: seq<T>): seq<T>
  {
    DedupFrom(arr, 0)
  }

  /** Every element of `s` first occurs in `arr` at `i` or later. */
  predicate FirstOccurAfter<T(==)>(arr: seq<T>, s: seq<T>, i: nat)
  {
    forall b :: 0 <= b < |s| ==> IndexOf(arr, s[b]) >= i
  }

  /** The elements of `s` are in the order of their first occurrence in `arr`. */
  predicate OrderedByFirstOccurrence<T(==)>(arr: seq<T>, s: seq<T>)
  {
    forall a, b :: 0 <= a < b < |s| ==> IndexOf(arr, s[a]) < IndexOf(arr, s[b])
  }

  lemma {:induction false} DedupFromLower<T>(arr: seq<T>, i: nat)
    requires i <= |arr|
    ensures FirstOccurAfter(arr, DedupFrom(arr, i), i)
    decreases |arr| - i
  {
    if i < |arr| {
      DedupFromLower(arr, i + 1);
    }
  }

  /** The first occurrence of `arr[i]` is at `i` or before it. */
  lemma IndexOfAtMost<T>(arr: seq<T>, i: nat)
    requires i < |arr|
    ensures 0 <= IndexOf(arr, arr[i]) <= i
  {
  }

  /** `DedupFrom(arr, i)` holds the elements of `arr[i..]` that first occur at `i` or later. */
  ghost predicate KeepsFirstFrom<T(!new)>(arr: seq<T>, i: nat)
    requires i <= |arr|
  {
    forall x :: x in DedupFrom(arr, i) <==> x in arr[i..] && IndexOf(arr, x) >= i
  }

  lemma DedupFromMembersStep<T(!new)>(arr: seq<T>, i: nat)
    requires i < |arr| && KeepsFirstFrom(arr, i + 1)
    ensures KeepsFirstFrom(arr, i)
  {
    IndexOfAtMost(arr, i);
    var rest := DedupFrom(arr, i + 1);
    var head := if IndexOf(arr, arr[i]) == i then [arr[i]] else [];
    assert DedupFrom(arr, i) == head + rest;
    assert arr[i..] == [arr[i]] + arr[i + 1..];
    forall x ensures x in DedupFrom(arr, i) <==> x in arr[i..] && IndexOf(arr, x) >= i {
      if x != arr[i] && x in arr[i..] && IndexOf(arr, x) >= i {
        assert x in arr[i + 1..];
        assert IndexOf(arr, x) != i;
      }
    }
  }

  lemma {:induction false} DedupFromMembers<T(!new)>(arr: seq<T>, i: nat)
    requires i <= |arr|
    ensures KeepsFirstFrom(arr, i)
    decreases |arr| - i
  {
    if i < |arr| {
      DedupFromMembers(arr, i + 1);
      DedupFromMembersStep(arr, i);
    }
  }

  /** Putting an element whose first occurrence precedes all of a sequence's in front of
      that sequence keeps it ordered by first occurrence. */
  lemma PrependOrdered<T>(arr: seq<T>, x: T, rest: seq<T>)
    requires OrderedByFirstOccurrence(arr, rest)
    requires FirstOccurAfter(arr, rest, IndexOf(arr, x) + 1)
    ensures OrderedByFirstOccurrence(arr, [x] + rest)
  {
    var d := [x] + rest;
    forall a, b | 0 <= a < b < |d|
      ensures IndexOf(arr, d[a]) < IndexOf(arr, d[b])
    {
      assert d[b] == rest[b - 1];
      if a > 0 {
        assert d[a] == rest[a - 1];
      }
    }
  }

  /** One step of `DedupFrom` keeps the order, given the order of what follows. */
  lemma DedupFromOrderedStep<T>(arr: seq<T>, i: nat)
    requires i < |arr|
    requires OrderedByFirstOccurrence(arr, DedupFrom(arr, i + 1))
    requires FirstOccurAfter(arr, DedupFrom(arr, i + 1), i + 1)
    ensures OrderedByFirstOccurrence(arr, DedupFrom(arr, i))
  {
    var rest := DedupFrom(arr, i + 1);
    if IndexOf(arr, arr[i]) == i {
      assert DedupFrom(arr, i) == [arr[i]] + rest;
      PrependOrdered(arr, arr[i], rest);
    } else {
      assert DedupFrom(arr, i) == rest;
    }
  }

  lemma {:induction false} DedupFromOrdered<T>(arr: seq<T>, i: nat)
    requires i <= |arr|
    ensures OrderedByFirstOccurrence(arr, DedupFrom(arr, i))
    decreases |arr| - i
  {
    if i < |arr| {
      DedupFromOrdered(arr, i + 1);
      DedupFromLower(arr, i + 1);
      DedupFromOrderedStep(arr, i);
    }
  }

  lemma DedupFromFacts<T(!new)>(arr: seq<T>, i: nat)
    requires i <= |arr|
    ensures forall x :: x in DedupFrom(arr, i) <==> x in arr[i..] && IndexOf(arr, x) >= i
    ensures forall a, b :: 0 <= a < b < |DedupFrom(arr, i)| ==>
              IndexOf(arr, DedupFrom(arr, i)[a]) < IndexOf(arr, DedupFrom(arr, i)[b])
  {
    DedupFromMembers(arr, i);
    DedupFromOrdered(arr, i);
  }

  /** De-duplication keeps every certification, adds none, repeats none, and keeps
      them in the order of their first occurrence. */
  lemma DedupCorrect<T(!new)>(arr: seq<T>)
    ensures forall x :: x in Dedup(arr) <==> x in arr
    ensures forall a, b :: 0 <= a < b < |Dedup(arr)| ==> Dedup(arr)[a] != Dedup(arr)[b]
    ensures forall a, b :: 0 <= a < b < |Dedup(arr)| ==>
              IndexOf(arr, Dedup(arr)[a]) < IndexOf(arr, Dedup(arr)[b])
  {
    DedupFromFacts(arr, 0);
    assert arr[0..] == arr;
  }

  function FlattenCertifications(ms: seq<MaterialEntry>): seq<string>
  {
    if |ms| == 0 then [] else ms[0].certifications + FlattenCertifications(ms[1..])
  }

  function Countries(sites: seq<ProductionSite>): (r: seq<string>)
    ensures |r| == |sites| && forall i :: 0 <= i < |sites| ==> r[i] == sites[i].country
  {
    if |sites| == 0 then [] else [sites[0].country] + Countries(sites[1..])
  }

  /** Where an optional fact goes between the three fixed leading facts and the
      trailing country list: recycled content, then spare parts, then certifications. */
  function OptionalFactRank(f: Fact): int
  {
    match f
    case RecycledContent(_) => 1
    case SparePartsAvailable => 2
    case Certifications(_) => 3
    case _ => 0
  }

  function RecycledFact(env: EnvironmentalImpact): seq<Fact>
  {
    if env.recycledContentPercentage > 0.0 then [RecycledContent(env.recycledContentPercentage)] else []
  }

  function SparePartsFact(p: Passport): seq<Fact>
  {
    if p.durabilityAndCare.repairability.sparePartsAvailable then [SparePartsAvailable] else []
  }

  function CertificationsFact(ms: seq<MaterialEntry>): seq<Fact>
  {
    var certifications := Dedup(FlattenCertifications(ms));
    if |certifications| > 0 then [Certifications(certifications)] else []
  }

  /** The optional facts between the leading and trailing ones, in rank order. */
  function MiddleFacts(p: Passport): seq<Fact>
  {
    RecycledFact(p.environmentalImpact) + SparePartsFact(p) + CertificationsFact(p.materialComposition)
  }

  /** The facts `generateFacts` produces, in their fixed order. */
  function PassportFacts(p: Passport): seq<Fact>
  {
    var env := p.environmentalImpact;
    [CarbonFootprint(env.carbonFootprintKgCO2e), WaterUsage(env.waterUsageLiters), EnergyUse(env.energyKWh)]
    + MiddleFacts(p) + [ProducedIn(Countries(p.manufacturing.productionSites))]
  }

  lemma MiddleFactsRanked(p: Passport)
    ensures |MiddleFacts(p)| <= 3
    ensures forall i :: 0 <= i < |MiddleFacts(p)| ==> OptionalFactRank(MiddleFacts(p)[i]) > 0
    ensures forall i, j :: 0 <= i < j < |MiddleFacts(p)| ==>
              OptionalFactRank(MiddleFacts(p)[i]) < OptionalFactRank(MiddleFacts(p)[j])
  {
  }

  /** The layout of the fact list: three fixed leading facts, at most three optional
      ones in their fixed order, and the country list last. */
  lemma PassportFactsLayout(p: Passport)
    ensures var facts := PassportFacts(p);
      && 4 <= |facts| <= 7
      && facts[0] == CarbonFootprint(p.environmentalImpact.carbonFootprintKgCO2e)
      && facts[1] == WaterUsage(p.environmentalImpact.waterUsageLiters)
      && facts[2] == EnergyUse(p.environmentalImpact.energyKWh)
      && facts[|facts| - 1] == ProducedIn(Countries(p.manufacturing.productionSites))
      && (forall i :: 3 <= i < |facts| - 1 ==> OptionalFactRank(facts[i]) > 0)
      && (forall i, j :: 3 <= i < j < |facts| - 1 ==> OptionalFactRank(facts[i]) < OptionalFactRank(facts[j]))
  {
    var middle := MiddleFacts(p);
    MiddleFactsRanked(p);
    var env := p.environmentalImpact;
    var lead := [CarbonFootprint(env.carbonFootprintKgCO2e), WaterUsage(env.waterUsageLiters), EnergyUse(env.energyKWh)];
    var last := [ProducedIn(Countries(p.manufacturing.productionSites))];
    var facts := PassportFacts(p);
    assert facts == lead + middle + last;
    assert forall i :: 3 <= i < |facts| - 1 ==> facts[i] == middle[i - 3];
  }

  /** Each optional fact is present exactly when its condition holds. */
  lemma PassportFactsOptional(p: Passport)
    ensures RecycledContent(p.environmentalImpact.recycledContentPercentage) in PassportFacts(p)
            <==> p.environmentalImpact.recycledContentPercentage > 0.0
    ensures SparePartsAvailable in PassportFacts(p) <==> p.durabilityAndCare.repairability.sparePartsAvailable
    ensures Certifications(Dedup(FlattenCertifications(p.materialComposition))) in PassportFacts(p)
            <==> |FlattenCertifications(p.materialComposition)| > 0
  {
    RecycledFactPresent(p);
    SparePartsFactPresent(p);
    CertificationsFactPresent(p);
  }

  lemma RecycledFactPresent(p: Passport)
    ensures RecycledContent(p.environmentalImpact.recycledContentPercentage) in PassportFacts(p)
            <==> p.environmentalImpact.recycledContentPercentage > 0.0
  {
    InPassportFactsOptional(p, RecycledContent(p.environmentalImpact.recycledContentPercentage));
  }

  lemma SparePartsFactPresent(p: Passport)
    ensures SparePartsAvailable in PassportFacts(p) <==> p.durabilityAndCare.repairability.sparePartsAvailable
  {
    InPassportFactsOptional(p, SparePartsAvailable);
  }

  lemma CertificationsFactPresent(p: Passport)
    ensures Certifications(Dedup(FlattenCertifications(p.materialComposition))) in PassportFacts(p)
            <==> |FlattenCertifications(p.materialComposition)| > 0
  {
    InPassportFactsOptional(p, Certifications(Dedup(FlattenCertifications(p.materialComposition))));
    DedupNonEmpty(FlattenCertifications(p.materialComposition));
  }

  /** An optional fact is among the facts exactly when it is among the optional ones. */
  lemma InPassportFactsOptional(p: Passport, f: Fact)
    requires OptionalFactRank(f) > 0
    ensures f in PassportFacts(p) <==> f in MiddleFacts(p)
  {
    var env := p.environmentalImpact;
    var lead := [CarbonFootprint(env.carbonFootprintKgCO2e), WaterUsage(env.waterUsageLiters), EnergyUse(env.energyKWh)];
    var last := [ProducedIn(Countries(p.manufacturing.productionSites))];
    assert PassportFacts(p) == lead + MiddleFacts(p) + last;
    assert f !in lead && f !in last;
  }

  lemma DedupNonEmpty<T(!new)>(arr: seq<T>)
    ensures |Dedup(arr)| > 0 <==> |arr| > 0
  {
    DedupCorrect(arr);
    if |arr| > 0 {
      assert arr[0] in Dedup(arr);
    }
  }

  /** `generateFacts`: pushes the facts one by one. */
  method GenerateFacts(p: Passport) returns (facts: seq<Fact>)
    ensures facts == PassportFacts(p)
  {
    facts := [];
    var env := p.environmentalImpact;
    facts := facts + [CarbonFootprint(env.carbonFootprintKgCO2e)];
    facts := facts + [WaterUsage(env.waterUsageLiters)];
    facts := facts + [EnergyUse(env.energyKWh)];
    ghost var lead := facts;
    if env.recycledContentPercentage > 0.0 {
      facts := facts + [RecycledContent(env.recycledContentPercentage)];
    }
    ghost var withRecycled := facts;
    if p.durabilityAndCare.repairability.sparePartsAvailable {
      facts := facts + [SparePartsAvailable];
    }
    ghost var withSpareParts := facts;
    var certifications := Dedup(FlattenCertifications(p.materialComposition));
    if |certifications| > 0 {
      facts := facts + [Certifications(certifications)];
    }
    ghost var withCertifications := facts;
    facts := facts + [ProducedIn(Countries(p.manufacturing.productionSites))];
    AssembleFacts(p, lead, withRecycled, withSpareParts, withCertifications, facts);
  }

  /** The pushes of `generateFacts`, one optional piece at a time, build `PassportFacts`. */
  lemma AssembleFacts(p: Passport, lead: seq<Fact>, withRecycled: seq<Fact>, withSpareParts: seq<Fact>,
                      withCertifications: seq<Fact>, facts: seq<Fact>)
    requires var env := p.environmentalImpact;
      lead == [CarbonFootprint(env.carbonFootprintKgCO2e), WaterUsage(env.waterUsageLiters), EnergyUse(env.energyKWh)]
    requires withRecycled == lead + RecycledFact(p.environmentalImpact)
    requires withSpareParts == withRecycled + SparePartsFact(p)
    requires withCertifications == withSpareParts + CertificationsFact(p.materialComposition)
    requires facts == withCertifications + [ProducedIn(Countries(p.manufacturing.productionSites))]
    ensures facts == PassportFacts(p)
  {
    assert withCertifications == lead + MiddleFacts(p);
  }

  // ---------------------------------------------------------------------------
  // The conversion.

  /** The `let ecoScore` accumulation of `convertDPPtoProduct`, one adjustment at a time. */
  method AccumulateEcoScore(passport: Passport) returns (ecoScore: real)
    ensures ecoScore == PassportEcoScore(passport)
    ensures ecoScore == 100.0 <==> UnclampedPassportScore(passport) >= 100.0
  {
    ecoScore := 100.0;
    var env := passport.environmentalImpact;
    var difficulty := passport.durabilityAndCare.repairability.repairDifficulty;
    if env.carbonFootprintKgCO2e > 5.0 {
      ecoScore := ecoScore - Min(30.0, (env.carbonFootprintKgCO2e - 5.0) * 5.0);
    }
    assert ecoScore == 100.0 - CarbonPenalty(env.carbonFootprintKgCO2e);
    if env.recycledContentPercentage > 50.0 {
      ecoScore := ecoScore + 10.0;
    } else if env.recycledContentPercentage == 0.0 {
      ecoScore := ecoScore - 15.0;
    }
    assert ecoScore == 100.0 - CarbonPenalty(env.carbonFootprintKgCO2e)
                       + RecycledAdjustment(env.recycledContentPercentage);
    if |env.hazardousSubstances| > 0 {
      ecoScore := ecoScore - 20.0;
    }
    if passport.endOfLife.recyclabilityPercentage < 50.0 {
      ecoScore := ecoScore - 20.0;
    }
    assert ecoScore == 100.0 - CarbonPenalty(env.carbonFootprintKgCO2e)
                       + RecycledAdjustment(env.recycledContentPercentage)
                       - HazardPenalty(env.hazardousSubstances)
                       - RecyclabilityPenalty(passport.endOfLife.recyclabilityPercentage);
    if difficulty == "high" {
      ecoScore := ecoScore - 10.0;
    } else if difficulty == "low" {
      ecoScore := ecoScore + 5.0;
    }
    if HasCertifications(passport.materialComposition) {
      ecoScore := ecoScore + 10.0;
    }
    assert ecoScore == UnclampedPassportScore(passport);
    ecoScore := Max(0.0, Min(100.0, ecoScore));
  }

  /** `convertDPPtoProduct`: unwraps the input, scores it and assembles the product. */
  method ConvertDppToProduct(input: PassportInput) returns (c: Conversion)
    ensures c.passport == Unwrap(input)
    ensures c.product.ecoScore == PassportEcoScore(c.passport)
    ensures c.product.ecoRating == GetEcoRating(c.product.ecoScore)
    ensures c.product.id == c.passport.product.productId
    ensures c.product.name == c.passport.product.name && c.product.brand == c.passport.product.brand
    ensures c.product.category == MapCategory(c.passport.product.category)
    ensures |c.product.materials| == |c.passport.materialComposition|
    ensures forall i :: 0 <= i < |c.product.materials| ==>
              c.product.materials[i] == ToMaterial(c.passport.materialComposition[i])
    ensures c.product.durability == c.passport.durabilityAndCare.expectedLifetimeCycles
    ensures c.product.environmentalImpact
            == EnvironmentalImpactIndex(c.passport.environmentalImpact.carbonFootprintKgCO2e)
    ensures c.product.recyclability == RecyclabilityTierOf(c.passport.endOfLife.recyclabilityPercentage)
    ensures c.product.repairable <==> c.passport.durabilityAndCare.repairability.repairDifficulty != "high"
    ensures c.product.careInstructions == [c.passport.durabilityAndCare.washInstructions]
    ensures c.product.facts == PassportFacts(c.passport)
    ensures c.product.imageUrl == "" && c.product.image == None && !c.product.secondHand
    ensures c.product.previousOwners == None
  {
    var passport := match input case Bare(p) => p case Wrapped(p) => p;
    var ecoScore := AccumulateEcoScore(passport);
    LocalEcoRatingAgrees(ecoScore);
    var ms := passport.materialComposition;
    var materials := seq(|ms|, i requires 0 <= i < |ms| => ToMaterial(ms[i]));
    var facts := GenerateFacts(passport);
    var product := Product(
      passport.product.productId,
      passport.product.name,
      passport.product.brand,
      MapCategory(passport.product.category),
      "",
      None,
      materials,
      ecoScore,
      LocalEcoRating(ecoScore),
      passport.durabilityAndCare.expectedLifetimeCycles,
      EnvironmentalImpactIndex(passport.environmentalImpact.carbonFootprintKgCO2e),
      RecyclabilityTierOf(passport.endOfLife.recyclabilityPercentage),
      passport.durabilityAndCare.repairability.repairDifficulty != "high",
      false,
      None,
      [passport.durabilityAndCare.washInstructions],
      facts);
    c := Conversion(passport, product);
  }
}
