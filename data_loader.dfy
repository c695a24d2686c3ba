/** The seed data of the backend (eco-wardrobe-backend/.../config/DataLoader.java): the
    material name chosen from a product's name, the material list `createProduct` builds,
    and the fixed passport constants every seeded product carries, with what those
    constants mean to the two scorers. */
module SeedData {
  import opened Text
  import opened DigitalProductPassport
  import opened EcoScore
  import opened ProductTypes

  // ---------------------------------------------------------------------------
  // `getMaterialName`

  /** One branch of the if/else chain: any keyword found in the lower-cased product name
      selects `materialName`. */
  datatype NameRule = NameRule(keywords: seq<string>, materialName: string)

  /** The branches in the order they are tried. */
  const PrimaryNameRules: seq<NameRule> := [
    NameRule(["bawełny", "cotton"], "Bawełna organiczna"),
    NameRule(["dżinsy", "denim"], "Recyklingowany denim"),
    NameRule(["konopi", "hemp"], "Konopie"),
    NameRule(["bambusowych", "bamboo"], "Włókno bambusowe"),
    NameRule(["wełny", "wool", "merino"], "Wełna merino"),
    NameRule(["lniana", "linen"], "Organiczny len"),
    NameRule(["skórzana", "leather"], "Zrównoważona skóra"),
    NameRule(["jedwabiu", "silk"], "Organiczny jedwab"),
    NameRule(["poliestru", "polyester"], "Recyklingowany poliester"),
    NameRule(["tencelu", "tencel"], "Tencel Lyocell"),
    NameRule(["sneakersy", "buty", "shoes"], "Recyklingowana guma")]

  /** The primary material when no keyword matches. */
  const DefaultPrimaryMaterial: string := "Bawełna organiczna"

  /** The secondary material, whatever the product. */
  const SecondaryMaterial: string := "Elastan"

  predicate RuleMatches(lowerName: string, rule: NameRule)
  {
    ContainsAny(lowerName, rule.keywords)
  }

  /** The name of the first rule that matches, or the default. */
  function FirstMatchingName(lowerName: string, rules: seq<NameRule>): string
  {
    if |rules| == 0 then DefaultPrimaryMaterial
    else if RuleMatches(lowerName, rules[0]) then rules[0].materialName
    else FirstMatchingName(lowerName, rules[1..])
  }

  /** `getMaterialName(productName, isPrimary)` */
  function GetMaterialName(productName: string, isPrimary: bool): (name: string)
    ensures !isPrimary ==> name == SecondaryMaterial
  {
    if isPrimary then FirstMatchingName(Lower(productName), PrimaryNameRules) else SecondaryMaterial
  }

  lemma {:induction false} FirstMatchingNameAt(lowerName: string, rules: seq<NameRule>, k: nat)
    requires k < |rules| && RuleMatches(lowerName, rules[k])
    requires forall j :: 0 <= j < k ==> !RuleMatches(lowerName, rules[j])
    ensures FirstMatchingName(lowerName, rules) == rules[k].materialName
  {
    if k > 0 {
      assert !RuleMatches(lowerName, rules[0]);
      FirstMatchingNameAt(lowerName, rules[1..], k - 1);
    }
  }

  lemma {:induction false} FirstMatchingNameNone(lowerName: string, rules: seq<NameRule>)
    requires forall j :: 0 <= j < |rules| ==> !RuleMatches(lowerName, rules[j])
    ensures FirstMatchingName(lowerName, rules) == DefaultPrimaryMaterial
  {
    if |rules| > 0 {
      assert !RuleMatches(lowerName, rules[0]);
      FirstMatchingNameNone(lowerName, rules[1..]);
    }
  }

  /** The keyword tests run on the lower-cased name in the fixed order, and the first
      branch that matches decides the primary material. */
  lemma FirstMatchWins(productName: string, k: nat)
    requires k < |PrimaryNameRules| && RuleMatches(Lower(productName), PrimaryNameRules[k])
    requires forall j :: 0 <= j < k ==> !RuleMatches(Lower(productName), PrimaryNameRules[j])
    ensures GetMaterialName(productName, true) == PrimaryNameRules[k].materialName
  {
    FirstMatchingNameAt(Lower(productName), PrimaryNameRules, k);
  }

  /** A name matching no keyword gets "Bawełna organiczna". */
  lemma NoMatchDefaults(productName: string)
    requires forall j :: 0 <= j < |PrimaryNameRules| ==> !RuleMatches(Lower(productName), PrimaryNameRules[j])
    ensures GetMaterialName(productName, true) == DefaultPrimaryMaterial
  {
    FirstMatchingNameNone(Lower(productName), PrimaryNameRules);
  }

  lemma {:induction false} FirstMatchingNameCases(lowerName: string, rules: seq<NameRule>)
    ensures (FirstMatchingName(lowerName, rules) == DefaultPrimaryMaterial
             && forall j :: 0 <= j < |rules| ==> !RuleMatches(lowerName, rules[j]))
            || exists k :: 0 <= k < |rules| && RuleMatches(lowerName, rules[k])
                 && FirstMatchingName(lowerName, rules) == rules[k].materialName
                 && forall j :: 0 <= j < k ==> !RuleMatches(lowerName, rules[j])
  {
    if |rules| > 0 && !RuleMatches(lowerName, rules[0]) {
      var rest := rules[1..];
      FirstMatchingNameCases(lowerName, rest);
      if FirstMatchingName(lowerName, rest) == DefaultPrimaryMaterial
         && forall j :: 0 <= j < |rest| ==> !RuleMatches(lowerName, rest[j]) {
      } else {
        var k :| 0 <= k < |rest| && RuleMatches(lowerName, rest[k])
                 && FirstMatchingName(lowerName, rest) == rest[k].materialName
                 && forall j :: 0 <= j < k ==> !RuleMatches(lowerName, rest[j]);
        assert rules[k + 1] == rest[k];
        assert forall j :: 0 <= j < k + 1 ==> !RuleMatches(lowerName, rules[j]) by {
          forall j | 0 <= j < k + 1 ensures !RuleMatches(lowerName, rules[j]) {
            if j > 0 { assert rules[j] == rest[j - 1]; }
          }
        }
      }
    } else if |rules| > 0 {
      assert RuleMatches(lowerName, rules[0]);
    }
  }

  /** Conversely, every primary name comes from the first matching branch, or from the
      default when no branch matches. */
  lemma PrimaryNameCases(productName: string)
    ensures var name := GetMaterialName(productName, true);
            (name == DefaultPrimaryMaterial
             && forall j :: 0 <= j < |PrimaryNameRules| ==> !RuleMatches(Lower(productName), PrimaryNameRules[j]))
            || exists k :: 0 <= k < |PrimaryNameRules| && RuleMatches(Lower(productName), PrimaryNameRules[k])
                 && name == PrimaryNameRules[k].materialName
                 && forall j :: 0 <= j < k ==> !RuleMatches(Lower(productName), PrimaryNameRules[j])
  {
    FirstMatchingNameCases(Lower(productName), PrimaryNameRules);
  }

  /** "Hemp Denim" matches both the denim and the hemp branch; denim comes first. */
  lemma DenimBeforeHemp()
    ensures GetMaterialName("Hemp Denim", true) == "Recyklingowany denim"
  {
    HempDenimLower();
    HempDenimRules();
    FirstMatchingNameAt("hemp denim", PrimaryNameRules, 1);
  }

  lemma HempDenimLower()
    ensures Lower("Hemp Denim") == "hemp denim"
  {
    LowersTo("Hemp Denim", "hemp denim");
  }

  lemma HempDenimRules()
    ensures !RuleMatches("hemp denim", PrimaryNameRules[0])
    ensures RuleMatches("hemp denim", PrimaryNameRules[1])
  {
    NotContainsLacking("hemp denim", "bawełny", 'ł');
    NotContainsLacking("hemp denim", "cotton", 'o');
    ContainsByMatch("hemp denim", "denim", 5);
    assert PrimaryNameRules[1].keywords[1] == "denim";
  }

  // ---------------------------------------------------------------------------
  // The material list of `createProduct`.

  const PrimaryCertifications: seq<string> := ["GOTS", "OEKO-TEX"]
  const SecondaryCertifications: seq<string> := ["OEKO-TEX"]

  /** The `materials` list: the primary material with [GOTS, OEKO-TEX], then "Elastan"
      with [OEKO-TEX] exactly when the secondary percentage is positive. */
  method CreateMaterials(productName: string, mainMaterialPercentage: int, secondaryMaterialPercentage: int)
    returns (materials: seq<MaterialEntry>)
    ensures |materials| == if secondaryMaterialPercentage > 0 then 2 else 1
    ensures materials[0] == MaterialEntry(GetMaterialName(productName, true), mainMaterialPercentage as real,
                                          PrimaryCertifications)
    ensures |materials| == 2 ==>
              materials[1] == MaterialEntry(SecondaryMaterial, secondaryMaterialPercentage as real,
                                            SecondaryCertifications)
  {
    materials := [];
    materials := materials + [MaterialEntry(GetMaterialName(productName, true), mainMaterialPercentage as real,
                                            PrimaryCertifications)];
    if secondaryMaterialPercentage > 0 {
      materials := materials + [MaterialEntry(GetMaterialName(productName, false),
                                              secondaryMaterialPercentage as real, SecondaryCertifications)];
    }
  }

  /** The primary entry always carries the organic mark, through "GOTS". */
  lemma PrimaryEntryIsOrganic(name: string, pct: real)
    ensures HasOrganicMark(MaterialEntry(name, pct, PrimaryCertifications))
  {
    LowersTo("GOTS", "gots");
    ContainsByMatch("gots", "gots", 0);
    assert OrganicCertification(PrimaryCertifications[0]);
  }

  lemma OekoTexNotRecycled()
    ensures !RecycledCertification("OEKO-TEX")
  {
    LowersTo("OEKO-TEX", "oeko-tex");
    NotContainsLacking("oeko-tex", "recycled", 'r');
    NotContainsLacking("oeko-tex", "rpet", 'r');
    NotContainsLacking("oeko-tex", "grs", 'r');
  }

  lemma GotsNotRecycledMark()
    ensures !RecycledCertification("GOTS")
  {
    LowersTo("GOTS", "gots");
    NotContainsLacking("gots", "recycled", 'r');
    NotContainsLacking("gots", "rpet", 'r');
    NotContainsLacking("gots", "grs", 'r');
  }

  /** Neither certification list of the seed data holds a recycled certification, so a
      seeded material counts as recycled only through its name. */
  lemma SeedCertificationsNotRecycled()
    ensures !HasRecycledCertification(PrimaryCertifications)
    ensures !HasRecycledCertification(SecondaryCertifications)
  {
    GotsNotRecycledMark();
    OekoTexNotRecycled();
  }

  /** The secondary "Elastan" entry is synthetic and not recycled, so it adds nothing to
      the natural or the recycled share. */
  lemma SecondaryEntryNeutral(pct: real)
    ensures !IsNatural(SecondaryMaterial)
    ensures !IsRecycledMaterial(MaterialEntry(SecondaryMaterial, pct, SecondaryCertifications))
  {
    LowersTo("Elastan", "elastan");
    ContainsByMatch("elastan", "elastan", 0);
    assert SyntheticKeywords[4] == "elastan";
    SyntheticWins(SecondaryMaterial, 4);
    OekoTexNotRecycled();
    NotContainsLacking("elastan", "recykling", 'r');
    NotContainsLacking("elastan", "recycled", 'r');
  }

  // ---------------------------------------------------------------------------
  // The constants every seeded passport carries.

  /** The hazardous-substances list: "Nie wykryto" ("none detected"). */
  const SeedHazardousSubstances: seq<string> := ["Nie wykryto"]
  const SeedExpectedLifetimeCycles: real := 200.0
  const SeedRepairDifficulty: string := "Średnia"
  const SeedRecyclabilityPercentage: real := 85.0

  /** The seeded hazardous list is not empty, so both scorers apply their hazardous
      penalty; "Średnia" is neither "high" nor "low", so it gives no repair points and
      leaves the product repairable; 200 cycles and 85 % recyclability sit in the top
      durability band, the second recyclability band and the full recyclability tier. */
  lemma SeedConstantsScoring(p: Passport, w: Weights)
    requires p.environmentalImpact.hazardousSubstances == SeedHazardousSubstances
    requires p.durabilityAndCare.expectedLifetimeCycles == SeedExpectedLifetimeCycles
    requires p.durabilityAndCare.repairability.repairDifficulty == SeedRepairDifficulty
    requires p.endOfLife.recyclabilityPercentage == SeedRecyclabilityPercentage
    ensures HazardTerm(p, w) == -(20.0 * w.hazardousSubstances)
    ensures HazardPenalty(p.environmentalImpact.hazardousSubstances) == 20.0
    ensures RepairTerm(p, w) == 0.0 && RepairAdjustment(SeedRepairDifficulty) == 0.0
    ensures SeedRepairDifficulty != "high"
    ensures DurabilityTerm(p, w) == Weigh(8, w.durability)
    ensures RecyclabilityTerm(p, w) == Weigh(10, w.recyclability)
    ensures RecyclabilityPenalty(SeedRecyclabilityPercentage) == 0.0
    ensures RecyclabilityTierOf(SeedRecyclabilityPercentage) == Full
  {
    assert SeedRepairDifficulty[0] == 'Ś';
  }
}
