/** The two sample passports of eco-wardrobe-frontend/src/data/mockPassports.ts and what
    both scoring formulas make of them. */
module MockPassports {
  import opened Optional
  import opened Text
  import opened JsMath
  import opened ProductTypes
  import opened DigitalProductPassport
  import opened EcoScore

  /** The passport stored under '123456789': a cotton T-shirt. */
  const BasicTShirt: Passport := Passport(
    "1.0",
    ProductInfo("urn:eprel:123456789", "5901234123457", "Koszulka bawełniana Basic",
                "Textiles > T-shirts", "EcoWear", "Basic 01"),
    [MaterialEntry("Cotton", 95.0, ["GOTS", "Organic 100"]), MaterialEntry("Elastane", 5.0, [])],
    EnvironmentalImpact(2.4, 1200.0, 1.1, 0.0, []),
    Manufacturing(
      Producer("EcoWear Manufacturing Ltd.", "Via Industria 12, Milano, Italy", "info@ecowear.com"),
      [ProductionSite("Italy", "ECW-IT-001", ["cutting", "sewing"]),
       ProductionSite("Turkey", "ECW-TR-007", ["fabric weaving", "dyeing"])],
      "2025-02-10"),
    DurabilityAndCare(50.0, "30°C, delikatne pranie",
                      Repairability("low", true, "https://ecowear.com/repair/basic01")),
    EndOfLife(90.0, "https://ecowear.com/disassembly/basic01",
              [TakeBackProgram("EcoWear Return", "https://ecowear.com/return")]),
    SupplyChainTraceability([
      SupplyChainStage("Raw material", "Organic Cotton Farms Co.", "Turkey", Some("GOTS-2025-44321")),
      SupplyChainStage("Fabric production", "TextileWeave Mills", "Turkey", None),
      SupplyChainStage("Garment assembly", "EcoWear Manufacturing Ltd.", "Italy", None)]),
    Metadata("2025-03-01T10:00:00Z", "2025-03-01T10:00:00Z", "EcoWear"))

  /** The passport stored under 'bad-product': a polyester fast-fashion T-shirt. */
  const BadProduct: Passport := Passport(
    "1.0",
    ProductInfo("urn:eprel:987654321", "5901234999999", "Koszulka Syntetyczna Fast Fashion",
                "Textiles > T-shirts", "FastWear", "Cheap 99"),
    [MaterialEntry("Polyester", 100.0, [])],
    EnvironmentalImpact(12.5, 5000.0, 8.3, 0.0, ["Formaldehyde", "Azo dyes"]),
    Manufacturing(
      Producer("FastWear Factory Co.", "Unknown location, Bangladesh", "unknown@fastwear.com"),
      [ProductionSite("Bangladesh", "UNKNOWN", ["all"])],
      "2024-11-15"),
    DurabilityAndCare(15.0, "40°C, nie prasować", Repairability("high", false, "")),
    EndOfLife(10.0, "", []),
    SupplyChainTraceability([SupplyChainStage("Production", "Unknown Factory", "Bangladesh", None)]),
    Metadata("2024-11-15T10:00:00Z", "2024-11-15T10:00:00Z", "FastWear"))

  /** `mockPassports`: both entries are stored wrapped as `{ productPassport: ... }`. */
  const MockPassportTable: map<string, PassportInput> :=
    map["123456789" := Wrapped(BasicTShirt), "bad-product" := Wrapped(BadProduct)]

  // ---------------------------------------------------------------------------
  // Classification of the sample materials.

  lemma LowerTextilesPrefix()
    ensures Lower("Textiles > ") == "textiles > "
  {
    LowersTo("Textiles > ", "textiles > ");
  }

  lemma TShirtsContainsTShirt()
    ensures Contains(Lower("T-shirts"), "t-shirt")
  {
    LowersTo("T-shirts", "t-shirts");
    ContainsByMatch("t-shirts", "t-shirt", 0);
  }

  /** "Textiles > T-shirts" lands in the T-shirt category. */
  lemma TShirtCategory()
    ensures ScoreCategory("Textiles > T-shirts") == Koszulki
  {
    LowerTextilesPrefix();
    TShirtsContainsTShirt();
    assert "Textiles > T-shirts" == "Textiles > " + "T-shirts";
    LowerConcat("Textiles > ", "T-shirts");
    ContainsInConcat(Lower("T-shirts"), "textiles > ", "t-shirt");
  }

  /** "Cotton" is natural: no synthetic stem occurs in "cotton", and "cotton" itself does. */
  lemma CottonIsNatural()
    ensures IsNatural("Cotton")
  {
    LowersTo("Cotton", "cotton");
    var lowerName := "cotton";
    forall k | 0 <= k < |SyntheticKeywords| ensures !Contains(lowerName, SyntheticKeywords[k]) {
      var keyword := SyntheticKeywords[k];
      var c := if keyword[0] == 'p' then 'p' else if keyword[0] == 'a' then 'a'
               else if keyword[0] == 's' then 's' else if keyword[0] == 'e' then 'e' else 'y';
      assert c in keyword && c !in lowerName;
      NotContainsLacking(lowerName, keyword, c);
    }
    assert OccursAt(lowerName, NaturalKeywords[0], 0);
    ContainsAt(lowerName, NaturalKeywords[0], 0);
  }

  /** "Elastane" contains the synthetic stem "elastan". */
  lemma ElastaneIsSynthetic()
    ensures !IsNatural("Elastane")
  {
    LowersTo("Elastane", "elastane");
    var lowerName := "elastane";
    assert OccursAt(lowerName, SyntheticKeywords[4], 0);
    ContainsAt(lowerName, SyntheticKeywords[4], 0);
  }

  /** "Polyester" is the first synthetic stem. */
  lemma PolyesterIsSynthetic()
    ensures !IsNatural("Polyester")
  {
    LowersTo("Polyester", "polyester");
    var lowerName := "polyester";
    assert OccursAt(lowerName, SyntheticKeywords[0], 0);
    ContainsAt(lowerName, SyntheticKeywords[0], 0);
  }

  lemma GotsNotRecycled()
    ensures !RecycledCertification("GOTS")
  {
    LowersTo("GOTS", "gots");
    NotContainsLacking("gots", "recycled", 'r');
    NotContainsLacking("gots", "rpet", 'r');
    NotContainsLacking("gots", "grs", 'r');
  }

  lemma Organic100NotRecycled()
    ensures !RecycledCertification("Organic 100")
  {
    LowersTo("Organic 100", "organic 100");
    NotContainsLacking("organic 100", "recycled", 'y');
    NotContainsLacking("organic 100", "rpet", 'p');
    NotContainsLacking("organic 100", "grs", 's');
  }

  lemma CottonNameNotRecycled()
    ensures !Contains(Lower("Cotton"), "recykling") && !Contains(Lower("Cotton"), "recycled")
  {
    LowersTo("Cotton", "cotton");
    NotContainsLacking("cotton", "recykling", 'y');
    NotContainsLacking("cotton", "recycled", 'y');
  }

  /** The T-shirt's cotton carries no recycled certification and no recycled name. */
  lemma CottonNotRecycled()
    ensures !IsRecycledMaterial(BasicTShirt.materialComposition[0])
  {
    GotsNotRecycled();
    Organic100NotRecycled();
    CottonNameNotRecycled();
  }

  lemma ElastaneNameNotRecycled()
    ensures !Contains(Lower("Elastane"), "recykling") && !Contains(Lower("Elastane"), "recycled")
  {
    LowersTo("Elastane", "elastane");
    NotContainsLacking("elastane", "recykling", 'y');
    NotContainsLacking("elastane", "recycled", 'y');
  }

  lemma ElastaneNotRecycled()
    ensures !IsRecycledMaterial(BasicTShirt.materialComposition[1])
  {
    ElastaneNameNotRecycled();
  }

  lemma PolyesterNameNotRecycled()
    ensures !Contains(Lower("Polyester"), "recykling") && !Contains(Lower("Polyester"), "recycled")
  {
    LowersTo("Polyester", "polyester");
    NotContainsLacking("polyester", "recykling", 'k');
    NotContainsLacking("polyester", "recycled", 'c');
  }

  lemma PolyesterNotRecycled()
    ensures !IsRecycledMaterial(BadProduct.materialComposition[0])
  {
    PolyesterNameNotRecycled();
  }

  // ---------------------------------------------------------------------------
  // The two formulas on the samples.

  /** Neither T-shirt material is recycled, so the recycled-content term is -10. */
  lemma BasicTShirtRecycledScore()
    ensures RecycledContentScore(0.0, BasicTShirt.materialComposition) == -10
  {
    var ms := BasicTShirt.materialComposition;
    CottonNotRecycled();
    ElastaneNotRecycled();
    assert ms[..1][..0] == [] && ms[..1] == [ms[0]] && ms[..2] == ms;
    assert RecycledMaterialsPercentage(ms) == 0.0;
    assert CertifiedRecycledMaterials(ms) == [];
  }

  /** The cotton's GOTS certification is an organic mark. */
  lemma CottonIsOrganic()
    ensures HasOrganicMark(BasicTShirt.materialComposition[0])
  {
    LowersTo("GOTS", "gots");
    ContainsByMatch("gots", "gots", 0);
    assert OrganicCertification(BasicTShirt.materialComposition[0].certifications[0]);
  }

  /** 95 % natural cotton, all of it organic: 15 + 5 points. */
  lemma BasicTShirtNaturalScore()
    ensures NaturalMaterialsScore(BasicTShirt.materialComposition) == 20
  {
    var ms := BasicTShirt.materialComposition;
    CottonIsNatural();
    ElastaneIsSynthetic();
    CottonIsOrganic();
    assert ms[..1][..0] == [] && ms[..1] == [ms[0]] && ms[..2] == ms;
    assert NaturalPercentage(ms) == 95.0;
    assert OrganicPercentage(ms) == 95.0;
  }

  /** `calculateProductEcoScore` with the default weights gives the T-shirt 97
      (raw total 96.7). */
  lemma BasicTShirtEcoScore()
    ensures RawEcoScore(BasicTShirt, DefaultWeights) == 96.7
    ensures ProductEcoScore(BasicTShirt, DefaultWeights) == 97
  {
    BasicTShirtRawScore();
  }

  lemma BasicTShirtRawScore()
    ensures RawEcoScore(BasicTShirt, DefaultWeights) == 96.7
  {
    TShirtCategory();
    BasicTShirtRecycledScore();
    BasicTShirtNaturalScore();
    assert HasCertifications(BasicTShirt.materialComposition) by {
      assert |BasicTShirt.materialComposition[0].certifications| > 0;
    }
  }

  /** `calculateProductEcoScore` with the default weights gives the polyester shirt 0
      (raw total -61.3, clamped). */
  lemma BadProductEcoScore()
    ensures RawEcoScore(BadProduct, DefaultWeights) == -61.3
    ensures ProductEcoScore(BadProduct, DefaultWeights) == 0
  {
    var ms := BadProduct.materialComposition;
    TShirtCategory();
    PolyesterNotRecycled();
    assert ms[..0] == [] && ms[..1] == ms;
    assert RecycledMaterialsPercentage(ms) == 0.0;
    assert CertifiedRecycledMaterials(ms) == [];
    PolyesterIsSynthetic();
    assert NaturalPercentage(ms) == 0.0;
    assert OrganicPercentage(ms) == 0.0;
    assert NaturalMaterialsScore(ms) == -8;
    assert !HasCertifications(ms);
  }

  /** `convertDPPtoProduct` gives the T-shirt 100: the certification bonus exactly makes
      up the hazard penalty's absence, and nothing else applies. */
  lemma BasicTShirtConversionScore()
    ensures PassportEcoScore(BasicTShirt) == 100.0
  {
    assert HasCertifications(BasicTShirt.materialComposition) by {
      assert |BasicTShirt.materialComposition[0].certifications| > 0;
    }
    assert UnclampedPassportScore(BasicTShirt) == 100.0;
  }

  /** `convertDPPtoProduct` gives the polyester shirt 5. */
  lemma BadProductConversionScore()
    ensures PassportEcoScore(BadProduct) == 5.0
  {
    assert !HasCertifications(BadProduct.materialComposition);
  }

  /** The two formulas disagree on both samples: 100 against 97, and 5 against 0. */
  lemma ConversionScoresOfSamples()
    ensures PassportEcoScore(BasicTShirt) != ProductEcoScore(BasicTShirt, DefaultWeights) as real
    ensures PassportEcoScore(BadProduct) != ProductEcoScore(BadProduct, DefaultWeights) as real
  {
    BasicTShirtConversionScore();
    BadProductConversionScore();
    BasicTShirtEcoScore();
    BadProductEcoScore();
  }

  /** The conversion never rounds: a footprint of 5.1 kg leaves half a point. */
  lemma ConversionScoreCanBeFractional()
    ensures PassportEcoScore(
              BasicTShirt.(environmentalImpact := BasicTShirt.environmentalImpact.(carbonFootprintKgCO2e := 5.1)))
            == 99.5
  {
    var p := BasicTShirt.(environmentalImpact := BasicTShirt.environmentalImpact.(carbonFootprintKgCO2e := 5.1));
    assert HasCertifications(p.materialComposition) by {
      assert |p.materialComposition[0].certifications| > 0;
    }
  }

  /** The facts generated for the T-shirt: footprint, water, energy, spare parts, the two
      certifications and the two production countries. */
  lemma BasicTShirtFacts()
    ensures PassportFacts(BasicTShirt) == [
      CarbonFootprint(2.4), WaterUsage(1200.0), EnergyUse(1.1), SparePartsAvailable,
      Certifications(["GOTS", "Organic 100"]), ProducedIn(["Italy", "Turkey"])]
  {
    var flat := FlattenCertifications(BasicTShirt.materialComposition);
    assert flat == ["GOTS", "Organic 100"];
    assert IndexOf(flat, "GOTS") == 0;
    assert IndexOf(flat, "Organic 100") == 1;
    assert DedupFrom(flat, 2) == [];
    assert DedupFrom(flat, 1) == ["Organic 100"];
    assert Dedup(flat) == ["GOTS", "Organic 100"];
    assert Countries(BasicTShirt.manufacturing.productionSites) == ["Italy", "Turkey"];
  }
}
