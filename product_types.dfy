/** The product record, its enumerations and the rating bands
    (eco-wardrobe-frontend/src/types/product.ts). */
module ProductTypes {
  import opened Optional

  /** `Category`: the five wardrobe categories. */
  datatype Category = Koszulki | Bluzy | Spodnie | Skarpety | Inne

  /** The categories in the order the statistics code walks them. */
  const AllCategories: seq<Category> := [Koszulki, Bluzy, Spodnie, Skarpety, Inne]

  /** `EcoRating`, best first. */
  datatype EcoRating = Excellent | Good | Medium | Poor | Bad

  /** The `'full' | 'partial' | 'none'` recyclability tier. */
  datatype RecyclabilityTier = Full | Partial | NotRecyclable

  datatype Material = Material(name: string, percentage: real, isNatural: bool, isRecycled: bool)

  /** A generated product fact. `generateFacts` renders each as a Polish sentence;
      the model keeps the tag and the numbers it carries. */
  datatype Fact =
    | CarbonFootprint(kgCO2e: real)
    | WaterUsage(liters: real)
    | EnergyUse(kWh: real)
    | RecycledContent(percentage: real)
    | SparePartsAvailable
    | Certifications(names: seq<string>)
    | ProducedIn(countries: seq<string>)

  datatype Product = Product(
    id: string,
    name: string,
    brand: string,
    category: Category,
    imageUrl: string,
    image: Option<string>,
    materials: seq<Material>,
    ecoScore: real,
    ecoRating: EcoRating,
    durability: real,
    environmentalImpact: int,
    recyclability: RecyclabilityTier,
    repairable: bool,
    secondHand: bool,
    previousOwners: Option<int>,
    careInstructions: seq<string>,
    facts: seq<Fact>)

  datatype CategoryStat = CategoryStat(count: int, avgEcoScore: int)

  datatype WardrobeStats = WardrobeStats(
    totalItems: int,
    avgEcoScore: int,
    ecoProductsPercent: int,
    naturalMaterialsPercent: int,
    syntheticMaterialsPercent: int,
    recyclablePercent: int,
    repairablePercent: int,
    avgDurability: int,
    categoryStats: map<Category, CategoryStat>)

  /** `categoryLabels` */
  function CategoryLabel(c: Category): string
  {
    match c
    case Koszulki => "Koszulki"
    case Bluzy => "Bluzy"
    case Spodnie => "Spodnie"
    case Skarpety => "Skarpety"
    case Inne => "Inne"
  }

  /** `ecoRatingLabels` */
  function EcoRatingLabel(r: EcoRating): string
  {
    match r
    case Excellent => "Doskonały"
    case Good => "Dobry"
    case Medium => "Średni"
    case Poor => "Słaby"
    case Bad => "Zły"
  }

  /** Both label tables give every key its own label. */
  lemma LabelsDistinct(c1: Category, c2: Category, r1: EcoRating, r2: EcoRating)
    ensures CategoryLabel(c1) == CategoryLabel(c2) ==> c1 == c2
    ensures EcoRatingLabel(r1) == EcoRatingLabel(r2) ==> r1 == r2
  {
  }

  /** `getEcoRating`: the rating band of a score. */
  function GetEcoRating(score: real): EcoRating
  {
    if score >= 80.0 then Excellent
    else if score >= 60.0 then Good
    else if score >= 40.0 then Medium
    else if score >= 20.0 then Poor
    else Bad
  }

  /** Position of a rating from best (0) to worst (4). */
  function RatingRank(r: EcoRating): nat
  {
    match r
    case Excellent => 0
    case Good => 1
    case Medium => 2
    case Poor => 3
    case Bad => 4
  }

  /** The five bands, each stated as the score range that produces it. */
  lemma EcoRatingBands(score: real)
    ensures GetEcoRating(score) == Excellent <==> score >= 80.0
    ensures GetEcoRating(score) == Good <==> 60.0 <= score < 80.0
    ensures GetEcoRating(score) == Medium <==> 40.0 <= score < 60.0
    ensures GetEcoRating(score) == Poor <==> 20.0 <= score < 40.0
    ensures GetEcoRating(score) == Bad <==> score < 20.0
  {
  }

  /** A higher score never gets a worse rating. */
  lemma EcoRatingMonotone(x: real, y: real)
    requires x <= y
    ensures RatingRank(GetEcoRating(y)) <= RatingRank(GetEcoRating(x))
  {
  }

  /** The copy of the bands in the score badge component (`getRatingFromScore`). */
  function RatingFromScore(score: real): EcoRating
  {
    if score >= 80.0 then Excellent
    else if score >= 60.0 then Good
    else if score >= 40.0 then Medium
    else if score >= 20.0 then Poor
    else Bad
  }

  /** The badge's copy and `getEcoRating` give the same rating for every score. */
  lemma RatingFromScoreAgrees(score: real)
    ensures RatingFromScore(score) == GetEcoRating(score)
  {
  }
}
