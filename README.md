# Eco-wardrobe scoring and statistics, modelled in Dafny

The eco-wardrobe application scans a clothing item's Digital Product Passport (DPP), turns
it into a wardrobe product with an eco score and a rating, and summarises a wardrobe in a
statistics record. This project models the deterministic core of that application:

- the current eco-score engine (`services/ecoScore.ts`): the keyword material classifier,
  the recycled-material detector, the band functions and the weighted total, rounded and
  clamped to [0, 100];
- the passport normaliser `convertDPPtoProduct` (`types/digitalProductPassport.ts`), with
  its own older score formula, its recyclability tier, repairable flag, impact index and
  ordered fact list;
- the rating bands and label tables of `types/product.ts`;
- the two wardrobe aggregators: the per-product average of `services/wardrobeStats.ts` and
  the pooled legacy one in `data/mockData.ts`;
- the codecs of `lib/utils.ts`: data URLs and MIME sniffing, the resize arithmetic of
  `compressImage`, chunked bytes to base64 through `btoa`/`atob` (section 4 of RFC 4648),
  `convertBackendImageToBase64` and `getProductImageUrl`;
- the backend's `ListStringConverter` (a `List<String>` stored as one `||`-joined column);
- the backend seed data: `DataLoader.getMaterialName`, the material list of
  `createProduct` and the fixed passport constants every seeded product carries.

Numbers are `real` (percentages, kilograms, scores, weights); JavaScript's `Math.round(x)`
is `floor(x + 1/2)` (`JsMath.Round`). Lower-casing covers ASCII and the nine Polish capital
letters (`Text.Lower`). Loops of the application (`forEach` accumulations, the keyword loops of
`isNaturalMaterial`, the category loop, the chunk loop of `byteArrayToBase64`, the score
accumulation of `convertDPPtoProduct`) are methods proved equal to a specification
function, and the properties are lemmas about those functions.

Files, one module each: `optional.dfy`, `jsmath.dfy`, `text.dfy` (shared helpers);
`product_types.dfy`; `digital_product_passport.dfy`; `eco_score.dfy`;
`mock_passports.dfy` (the two passports of `data/mockPassports.ts` as test vectors);
`wardrobe_stats.dfy`; `mock_data.dfy`; `base64.dfy`; `image_utils.dfy`;
`list_string_converter.dfy`; `data_loader.dfy`.

## Model

| member | source | states |
|---|---|---|
| ProductTypes.LabelsDistinct | eco-wardrobe-frontend/src/types/product.ts:81-95 | no two categories share a Polish label, and no two ratings do |
| ProductTypes.EcoRatingBands | eco-wardrobe-frontend/src/types/product.ts:97-103 | for every real score, including negative ones and ones above 100: excellent iff >= 80, good iff 60 <= s < 80, medium iff 40 <= s < 60, poor iff 20 <= s < 40, bad iff < 20 |
| ProductTypes.EcoRatingMonotone | eco-wardrobe-frontend/src/types/product.ts:97-103 | a higher score never yields a worse rating |
| ProductTypes.RatingFromScoreAgrees | eco-wardrobe-frontend/src/components/ui/EcoScore.tsx:29-35 | the badge's `getRatingFromScore` gives the same rating as `getEcoRating` for every score |
| JsMath.Round | eco-wardrobe-frontend/src/services/ecoScore.ts:295 | `Math.round(x)` lies in (x - 1/2, x + 1/2] |
| JsMath.ClampInt | eco-wardrobe-frontend/src/services/ecoScore.ts:295 | `Math.max(lo, Math.min(hi, x))` lies in [lo, hi] and is x when x is already in range |
| EcoScore.RecyclabilityScoreBands | eco-wardrobe-frontend/src/services/ecoScore.ts:25-32 | the recyclability points are one of 15, 10, 5, -5, -15, -25 and never decrease as the percentage grows |
| EcoScore.EffectiveRecycledPercentage | eco-wardrobe-frontend/src/services/ecoScore.ts:57-58 | the effective recycled share is at least the declared value and at least the detected recycled sum, and equals one of them |
| EcoScore.RecycledMaterialsPercentageOfOne | eco-wardrobe-frontend/src/services/ecoScore.ts:42-55 | a material adds its percentage to the detected sum exactly when a certification contains "recycled", "rpet" or "grs" ignoring case, or its lower-cased name contains "recykling" or "recycled" |
| EcoScore.RecycledMaterialsPercentageConcat | eco-wardrobe-frontend/src/services/ecoScore.ts:42-55 | the detected recycled sum of two lists is the sum of their detected sums |
| EcoScore.RecycledMaterialsPercentageBounds | eco-wardrobe-frontend/src/services/ecoScore.ts:42-55 | with non-negative percentages the detected sum lies between 0 and the total percentage |
| EcoScore.RecycledContentBandMonotone | eco-wardrobe-frontend/src/services/ecoScore.ts:60-65 | the recycled-content band never decreases as the effective share grows |
| EcoScore.CalculateRecycledContentScore | eco-wardrobe-frontend/src/services/ecoScore.ts:34-82 | the `forEach` accumulation and the certified-recycled filter give the score of the band plus the +5 bonus for a certified share of at least 50 |
| EcoScore.RecyclingSynergyBonusCases | eco-wardrobe-frontend/src/services/ecoScore.ts:84-95 | the bonus is 8 iff recyclability >= 70 and recycled >= 50; otherwise 4 iff >= 50 and >= 30; otherwise 0 |
| EcoScore.SynergyIgnoresMaterials | eco-wardrobe-frontend/src/services/ecoScore.ts:263-267 | the synergy term reads the declared recycled share, so replacing the materials (and the recycled share detected in them) never changes it |
| EcoScore.SynergyUsesDeclaredShare | eco-wardrobe-frontend/src/services/ecoScore.ts:263-267 | a passport that declares 0 % recycled content, is at least 70 % recyclable and is made entirely of one "GRS"-certified material has an effective recycled share of 100, on which the bonus would be 8, yet its synergy term is 0 |
| EcoScore.DurabilityScoreBands | eco-wardrobe-frontend/src/services/ecoScore.ts:97-104 | the durability points are one of 8, 5, 2, 0, -5, -10 and never decrease as the cycles grow |
| EcoScore.IsNaturalMaterial | eco-wardrobe-frontend/src/services/ecoScore.ts:109-156 | the two early-return keyword loops answer true exactly when no synthetic keyword and some natural keyword occurs in the lower-cased name |
| EcoScore.SyntheticWins | eco-wardrobe-frontend/src/services/ecoScore.ts:141-146 | a name containing any synthetic keyword is not natural, whatever natural keyword it also contains |
| EcoScore.NoNaturalKeywordNotNatural | eco-wardrobe-frontend/src/services/ecoScore.ts:148-155 | a name containing no natural keyword is not natural |
| EcoScore.PolipropylenIsSynthetic | eco-wardrobe-frontend/src/services/ecoScore.ts:113-146 | "polipropylen" contains the natural stem "len" and is still classified synthetic |
| EcoScore.CalculateNaturalMaterialsScore | eco-wardrobe-frontend/src/services/ecoScore.ts:162-203 | the `forEach` accumulation of natural and organic percentages gives the natural band plus the organic bonus |
| EcoScore.NaturalBandGap | eco-wardrobe-frontend/src/services/ecoScore.ts:189-195 | the base natural points are 0 exactly when 10 <= natural% < 20 |
| EcoScore.NonNaturalAddsNothing | eco-wardrobe-frontend/src/services/ecoScore.ts:168-185 | a material classified non-natural adds nothing to the natural sum nor to the organic sum, whatever its certifications |
| EcoScore.OrganicWithinNatural | eco-wardrobe-frontend/src/services/ecoScore.ts:168-185 | with non-negative percentages the organic sum lies between 0 and the natural sum |
| EcoScore.ScoreCategoryAgrees | eco-wardrobe-frontend/src/services/ecoScore.ts:205-212 | the engine's `mapCategory` and the normaliser's copy map every category string to the same category |
| EcoScore.CarbonThreshold | eco-wardrobe-frontend/src/services/ecoScore.ts:218-226 | every category has a positive footprint threshold |
| EcoScore.CarbonFootprintScoreBands | eco-wardrobe-frontend/src/services/ecoScore.ts:214-234 | the carbon points are one of 10, 5, 0, -10, -20, -30 and never increase as the footprint grows, for a fixed category |
| EcoScore.FlatTerms | eco-wardrobe-frontend/src/services/ecoScore.ts:269-293 | the hazard term is -20 x weight iff the hazardous list is non-empty; repair points are -10 iff the difficulty is exactly "high" and +5 iff exactly "low"; the certification term is 10 x weight iff some material has a certification |
| EcoScore.ProductEcoScore | eco-wardrobe-frontend/src/services/ecoScore.ts:242-295 | the final score is an integer in [0, 100] for every passport and every choice of weights, is the rounded raw total whenever that total is already in [0, 100], 0 when the raw total is negative and 100 when it exceeds 100 |
| EcoScore.CalculateProductEcoScore | eco-wardrobe-frontend/src/services/ecoScore.ts:236-314 | the step-by-step accumulation from the baseline of 50 gives the final score above |
| EcoScore.RawScoreMonotoneInDeclaredRecycled | eco-wardrobe-frontend/src/services/ecoScore.ts:252-267 | with a non-negative recycled-content weight, raising the declared recycled share never lowers the raw total |
| EcoScore.ScoreMonotoneInDeclaredRecycled | eco-wardrobe-frontend/src/services/ecoScore.ts:250-295 | with a non-negative recycled-content weight, raising the declared recycled share never lowers the final score |
| EcoScore.EnglishNaturalNameIsNatural | eco-wardrobe-frontend/src/types/digitalProductPassport.ts:114 | each of the seven English names the normaliser treats as natural is natural for the engine's keyword classifier as well |
| EcoScore.ConversionNaturalIsNatural | eco-wardrobe-frontend/src/types/digitalProductPassport.ts:114 | every material the normaliser marks natural is natural for the engine; the converse fails, since "cotton" is natural for the engine and not for the normaliser |
| EcoScore.ConversionRecycledIsRecycled | eco-wardrobe-frontend/src/types/digitalProductPassport.ts:115 | every material the normaliser marks recycled (a certification containing "recycled") is recycled for the engine too |
| EcoScore.RecycledMarkOnlyForEngine | eco-wardrobe-frontend/src/services/ecoScore.ts:42-55 | a material whose only certification lower-cases to "grs" or "rpet" is recycled for the engine and not for the normaliser |
| EcoScore.GrsOnlyForEngine | eco-wardrobe-frontend/src/services/ecoScore.ts:42-55 | a material certified only "GRS" is recycled for the engine and not for the normaliser |
| EcoScore.FlatTermsMatchConversion | eco-wardrobe-frontend/src/services/ecoScore.ts:269-292 | with positive weights, the engine's hazard, repair and certification terms apply exactly when the normaliser's do, and the repair points are equal |
| DigitalProductPassport.WrappedAndBareAgree | eco-wardrobe-frontend/src/types/digitalProductPassport.ts:69-70 | a wrapped `{ productPassport: p }` and a bare `p` are read as the same passport |
| DigitalProductPassport.PassportEcoScore | eco-wardrobe-frontend/src/types/digitalProductPassport.ts:72-109 | the normaliser's score lies in [0, 100] |
| DigitalProductPassport.CarbonPenaltyBounds | eco-wardrobe-frontend/src/types/digitalProductPassport.ts:74-77 | the carbon penalty lies in [0, 30], is positive iff the footprint exceeds 5 kg, and is 30 from 11 kg on |
| DigitalProductPassport.PassportScoreTerms | eco-wardrobe-frontend/src/types/digitalProductPassport.ts:79-107 | +10 iff recycled > 50, -15 iff recycled is exactly 0; -20 iff hazardous substances are listed; -20 iff recyclability < 50; -10 iff difficulty "high", +5 iff "low"; +10 iff some material is certified |
| DigitalProductPassport.PassportScoreMonotoneInRecycled | eco-wardrobe-frontend/src/types/digitalProductPassport.ts:79-84 | from a non-negative declared share, raising it never lowers the normaliser's score |
| DigitalProductPassport.AccumulateEcoScore | eco-wardrobe-frontend/src/types/digitalProductPassport.ts:72-109 | the `let ecoScore` accumulation gives the clamped, unrounded score, and it is 100 exactly when the unclamped score reaches 100 |
| DigitalProductPassport.ToMaterial | eco-wardrobe-frontend/src/types/digitalProductPassport.ts:111-116 | name and percentage are copied; `isNatural` is case-sensitive membership in the seven English names; `isRecycled` iff a certification contains "recycled" ignoring case; `EcoScore.ConversionNaturalIsNatural` and `EcoScore.ConversionRecycledIsRecycled` relate both flags to the engine's classifiers |
| DigitalProductPassport.NaturalNameIsCaseSensitive | eco-wardrobe-frontend/src/types/digitalProductPassport.ts:114 | "Cotton" is natural for the normaliser and "cotton" is not |
| DigitalProductPassport.RecyclabilityTierBands | eco-wardrobe-frontend/src/types/digitalProductPassport.ts:118-120 | the tier is full iff >= 80, partial iff 40 <= p < 80, none iff < 40 |
| DigitalProductPassport.EnvironmentalImpactIndex | eco-wardrobe-frontend/src/types/digitalProductPassport.ts:124-127 | the impact index lies in [1, 10] and is round(cf / 2) whenever that is already in range |
| DigitalProductPassport.LocalEcoRatingAgrees | eco-wardrobe-frontend/src/types/digitalProductPassport.ts:161-167 | the normaliser's copy of `getEcoRating` agrees with the one in the product types for every score |
| DigitalProductPassport.IndexOf | eco-wardrobe-frontend/src/types/digitalProductPassport.ts:187 | `indexOf` is -1 iff the element is absent, and otherwise the position of its first occurrence |
| DigitalProductPassport.DedupCorrect | eco-wardrobe-frontend/src/types/digitalProductPassport.ts:185-187 | the de-duplicated certifications hold every certification, none twice, in order of first occurrence |
| DigitalProductPassport.Countries | eco-wardrobe-frontend/src/types/digitalProductPassport.ts:193 | the production countries keep the sites' length and order |
| DigitalProductPassport.PassportFactsLayout | eco-wardrobe-frontend/src/types/digitalProductPassport.ts:169-196 | carbon, water and energy come first in that order and the production countries last; 4 to 7 facts; the optional facts in between keep their fixed order |
| DigitalProductPassport.PassportFactsOptional | eco-wardrobe-frontend/src/types/digitalProductPassport.ts:177-191 | the recycled fact appears iff recycled > 0, the spare-parts fact iff spare parts are available, the certifications fact iff some material is certified |
| DigitalProductPassport.GenerateFacts | eco-wardrobe-frontend/src/types/digitalProductPassport.ts:169-196 | the sequence of `push` calls builds exactly that fact list |
| DigitalProductPassport.ConvertDppToProduct | eco-wardrobe-frontend/src/types/digitalProductPassport.ts:69-150 | every field of the converted product: score, rating of that score, mapped category, materials element by element, tier, repairable iff difficulty is not "high", impact index, care instructions, facts |
| MockPassports.TShirtCategory | eco-wardrobe-frontend/src/services/ecoScore.ts:205-212 | the sample category "Textiles > T-shirts" maps to the T-shirt category |
| MockPassports.CottonIsNatural | eco-wardrobe-frontend/src/services/ecoScore.ts:109-156 | the sample material "Cotton" is natural for the engine |
| MockPassports.BasicTShirtRecycledScore | eco-wardrobe-frontend/src/services/ecoScore.ts:34-82 | the sample T-shirt, with nothing recycled, gets -10 recycled-content points |
| MockPassports.BasicTShirtNaturalScore | eco-wardrobe-frontend/src/services/ecoScore.ts:162-203 | the sample T-shirt's 95 % organic cotton gets 15 + 5 natural points |
| MockPassports.BasicTShirtEcoScore | eco-wardrobe-frontend/src/services/ecoScore.ts:236-295 | the sample T-shirt's raw total under the default weights is 96.7 and its score 97 |
| MockPassports.BadProductEcoScore | eco-wardrobe-frontend/src/services/ecoScore.ts:236-295 | the sample polyester shirt's raw total is -61.3 and its score 0 |
| MockPassports.BasicTShirtConversionScore | eco-wardrobe-frontend/src/types/digitalProductPassport.ts:72-109 | the normaliser gives the sample T-shirt 100 |
| MockPassports.BadProductConversionScore | eco-wardrobe-frontend/src/types/digitalProductPassport.ts:72-109 | the normaliser gives the sample polyester shirt 5 |
| MockPassports.ConversionScoresOfSamples | eco-wardrobe-frontend/src/types/digitalProductPassport.ts:72-109 | the two formulas disagree on both samples |
| MockPassports.ConversionScoreCanBeFractional | eco-wardrobe-frontend/src/types/digitalProductPassport.ts:74-77 | with a 5.1 kg footprint the normaliser's score is 99.5: it clamps but never rounds |
| MockPassports.BasicTShirtFacts | eco-wardrobe-frontend/src/types/digitalProductPassport.ts:169-196 | the sample T-shirt's facts: footprint, water, energy, spare parts, the certifications GOTS and Organic 100, and the countries Italy and Turkey |
| WardrobeStatistics.EcoProductCount | eco-wardrobe-frontend/src/services/wardrobeStats.ts:22 | the number of products scoring at least 60 is at most the number of products |
| WardrobeStatistics.RecyclableCountsTiers | eco-wardrobe-frontend/src/services/wardrobeStats.ts:40 | a product counts as recyclable exactly when its tier is full or partial |
| WardrobeStatistics.InCategoryMembers | eco-wardrobe-frontend/src/services/wardrobeStats.ts:48 | every product kept by the category filter has that category and comes from the list |
| WardrobeStatistics.CategoryStatOf | eco-wardrobe-frontend/src/services/wardrobeStats.ts:48-54 | a category's count lies between 0 and the number of products, and an empty category has average 0 |
| WardrobeStatistics.CategoryStatsForFacts | eco-wardrobe-frontend/src/services/wardrobeStats.ts:47-55 | the map has a key exactly for each category visited, holding that category's statistics |
| WardrobeStatistics.SumNaturalPercent | eco-wardrobe-frontend/src/services/wardrobeStats.ts:26-35 | the nested `forEach` loops sum the natural percentages of every product |
| WardrobeStatistics.FillCategoryStats | eco-wardrobe-frontend/src/services/wardrobeStats.ts:44-55 | the category loop fills the map for the five categories |
| WardrobeStatistics.CalculateWardrobeStats | eco-wardrobe-frontend/src/services/wardrobeStats.ts:15-68 | the method computes the statistics record defined field by field |
| WardrobeStatistics.EmptyWardrobe | eco-wardrobe-frontend/src/services/wardrobeStats.ts:3-18 | an empty wardrobe gives `emptyWardrobeStats`: every counter 0 and no category key |
| WardrobeStatistics.PercentBounds | eco-wardrobe-frontend/src/services/wardrobeStats.ts:22 | round(100 x count / total) lies in [0, 100] when count <= total |
| WardrobeStatistics.RoundedMeanBetween | eco-wardrobe-frontend/src/services/wardrobeStats.ts:21 | a rounded mean of values in [lo, hi] lies in [lo, hi] |
| WardrobeStatistics.PercentagesInRange | eco-wardrobe-frontend/src/services/wardrobeStats.ts:21-41 | eco-product, recyclable and repairable percentages lie in [0, 100], and so does the average score when every score does |
| WardrobeStatistics.MeanScoreBetween | eco-wardrobe-frontend/src/services/wardrobeStats.ts:21 | the average eco score lies in [0, 100] when every score does |
| WardrobeStatistics.NaturalAndSynthetic | eco-wardrobe-frontend/src/services/wardrobeStats.ts:24-38 | for a non-empty wardrobe natural + synthetic = 100 exactly; natural is the rounded mean of each product's natural sum; it lies in [0, 100] when each product's natural sum does |
| WardrobeStatistics.NaturalFigureBetween | eco-wardrobe-frontend/src/services/wardrobeStats.ts:37 | the natural figure lies in [0, 100] when each product's natural sum does |
| WardrobeStatistics.NaturalFigureIsNotClamped | eco-wardrobe-frontend/src/services/wardrobeStats.ts:37-38 | nothing clamps the figure: a product with 120 % natural material gives 120 natural and -20 synthetic |
| WardrobeStatistics.RankOf | eco-wardrobe-frontend/src/services/wardrobeStats.ts:44 | every category occurs in the list of five categories |
| WardrobeStatistics.CategoryCountsAdd | eco-wardrobe-frontend/src/services/wardrobeStats.ts:47-50 | the five category filters together count every product once |
| WardrobeStatistics.CategoryStatsKeys | eco-wardrobe-frontend/src/services/wardrobeStats.ts:44-55 | every one of the five categories is a key of `categoryStats` |
| WardrobeStatistics.CategoryCountsTotal | eco-wardrobe-frontend/src/services/wardrobeStats.ts:44-55 | the five category counts sum to the number of products |
| LegacyMockData.PooledShare | eco-wardrobe-frontend/src/data/mockData.ts:280-281 | the pooled share is finite for a non-zero total, NaN for 0 / 0 and an infinity for a non-zero share of a zero total |
| LegacyMockData.HundredMinus | eco-wardrobe-frontend/src/data/mockData.ts:282 | `100 - x` is finite iff x is, then the two sum to 100; NaN stays NaN and an infinity flips sign |
| LegacyMockData.SumPooledPercentages | eco-wardrobe-frontend/src/data/mockData.ts:272-279 | the nested loops sum the natural and the synthetic percentages over all products |
| LegacyMockData.CalculateLegacyWardrobeStats | eco-wardrobe-frontend/src/data/mockData.ts:253-312 | the method computes the legacy record defined field by field |
| LegacyMockData.LegacyAgreesElsewhere | eco-wardrobe-frontend/src/data/mockData.ts:253-312 | every field other than natural and synthetic equals the current aggregator's, for every wardrobe; an empty wardrobe gives the all-zero legacy record, whose natural and synthetic figures are the current aggregator's zeros |
| LegacyMockData.LegacyNaNWithoutMaterials | eco-wardrobe-frontend/src/data/mockData.ts:280-282 | a non-empty wardrobe without materials divides 0 by 0: natural and synthetic are NaN |
| LegacyMockData.LegacyShareInRange | eco-wardrobe-frontend/src/data/mockData.ts:280-282 | with non-negative percentages and a non-zero pool, natural lies in [0, 100] and synthetic is 100 - natural |
| LegacyMockData.ConventionsAgreeOnFullCompositions | eco-wardrobe-frontend/src/data/mockData.ts:272-281 | when every product's materials sum to exactly 100, the pooled figure equals the per-product average |
| LegacyMockData.ConventionsDisagree | eco-wardrobe-frontend/src/data/mockData.ts:272-281 | otherwise the two conventions can differ: 50 % cotton plus 100 % polyester gives 25 per product and 33 pooled |
| Base64.SextetRoundTrip | eco-wardrobe-frontend/src/lib/utils.ts:158 | every six-bit value is recovered from its alphabet character |
| Base64.EncodeLength | eco-wardrobe-frontend/src/lib/utils.ts:158 | `btoa` output has 4 x ceil(n / 3) characters, a multiple of four |
| Base64.EncodeAlphabet | eco-wardrobe-frontend/src/lib/utils.ts:158 | every output character is in the alphabet, except `=` in the last two places |
| Base64.DecodeEncode | eco-wardrobe-frontend/src/lib/utils.ts:158-165 | decoding an encoding gives the bytes back |
| Base64.DecodeSkipsWhitespace | eco-wardrobe-frontend/src/lib/utils.ts:165 | inserting ASCII whitespace anywhere does not change what `atob` decodes |
| Base64.Btoa | eco-wardrobe-frontend/src/lib/utils.ts:158 | `btoa` succeeds exactly on strings whose characters are all below 256 |
| Base64.AtobBtoa | eco-wardrobe-frontend/src/lib/utils.ts:158-165 | `atob(btoa(s))` is s for every byte string |
| ImageUtils.RemoveJsWhitespaceSpec | eco-wardrobe-frontend/src/lib/utils.ts:97 | the cleaned payload holds no whitespace, never grows, and a payload without whitespace is unchanged |
| ImageUtils.SniffMimeType | eco-wardrobe-frontend/src/lib/utils.ts:100-113 | the sniffed type is one of png, gif, webp or jpeg |
| ImageUtils.SniffTable | eco-wardrobe-frontend/src/lib/utils.ts:100-113 | "iVBOR" gives png, "R0lGOD" gif, "UklGR" webp, "/9j/" jpeg, checked in that order, and anything else jpeg |
| ImageUtils.Base64ToDataUrl | eco-wardrobe-frontend/src/lib/utils.ts:90-116 | an input already starting with "data:" comes back unchanged, and every output starts with "data:" |
| ImageUtils.DataUrlIdempotent | eco-wardrobe-frontend/src/lib/utils.ts:90-116 | applying `base64ToDataUrl` to its own output changes nothing, whatever MIME types are passed |
| ImageUtils.DataUrlShape | eco-wardrobe-frontend/src/lib/utils.ts:96-115 | otherwise the output is "data:" + type + ";base64," + the payload without whitespace, where a non-empty explicit type is used verbatim and a missing or empty one is sniffed |
| ImageUtils.ProductImageUrl | eco-wardrobe-frontend/src/lib/utils.ts:118-130 | a non-empty image gives its data URL, and an existing data URL is returned as is; a missing or empty image gives `imageUrl` |
| ImageUtils.ToUint8s | eco-wardrobe-frontend/src/lib/utils.ts:149 | `new Uint8Array(byteArray)` keeps the length and reduces each element modulo 256 |
| ImageUtils.ByteArrayToBase64Chunked | eco-wardrobe-frontend/src/lib/utils.ts:148-159 | for every positive chunk size, the chunk loop gives the base64 encoding of the whole array: the result does not depend on the chunking |
| ImageUtils.ByteArrayToBase64 | eco-wardrobe-frontend/src/lib/utils.ts:148-159 | with the 0x8000 chunk size the result is the base64 encoding of the bytes |
| ImageUtils.Base64ToByteArray | eco-wardrobe-frontend/src/lib/utils.ts:164-167 | decoding succeeds exactly when `atob` does and then gives the decoded bytes |
| ImageUtils.ByteArrayRoundTripInRange | eco-wardrobe-frontend/src/lib/utils.ts:148-167 | `base64ToByteArray` inverts `byteArrayToBase64` on arrays of values in 0..255 |
| ImageUtils.ByteArrayRoundTrip | eco-wardrobe-frontend/src/lib/utils.ts:148-167 | on any integer array the round trip gives the array reduced modulo 256 |
| ImageUtils.ConvertBackendImageToBase64 | eco-wardrobe-frontend/src/lib/utils.ts:173-189 | null, undefined, "" and [] give null; a non-empty string is returned as is; a non-empty array gives its base64 encoding |
| ImageUtils.ResizeDimensions | eco-wardrobe-frontend/src/lib/utils.ts:42-56 | an image within bounds is unchanged; a landscape image wider than the bound is scaled to the maximum width and a portrait one taller than the bound to the maximum height; with equal bounds both sides end within the bound; no side grows beyond the image's longer side |
| ImageUtils.ScaledSideBelow | eco-wardrobe-frontend/src/lib/utils.ts:48 | the scaled shorter side round(short x bound / long) lies in [0, bound] |
| ListStringConverter.ToDatabaseColumn | eco-wardrobe-backend/src/main/java/ee/pw/ecowardrobebackend/config/ListStringConverter.java:16-21 | the column is null exactly when the list is null or empty |
| ListStringConverter.NullsToEmpty | eco-wardrobe-backend/src/main/java/ee/pw/ecowardrobebackend/config/ListStringConverter.java:18-19 | null elements become "" and the others are kept, in order |
| ListStringConverter.ToEntityAttribute | eco-wardrobe-backend/src/main/java/ee/pw/ecowardrobebackend/config/ListStringConverter.java:24-29 | a null or empty column reads as the empty list |
| ListStringConverter.SepIndex | eco-wardrobe-backend/src/main/java/ee/pw/ecowardrobebackend/config/ListStringConverter.java:26 | the split point is the first "||" of the string, or its end when there is none |
| ListStringConverter.DropTrailingEmpty | eco-wardrobe-backend/src/main/java/ee/pw/ecowardrobebackend/config/ListStringConverter.java:26 | `split` keeps a prefix of the pieces that ends in a non-empty piece, and drops only empty ones |
| ListStringConverter.EmptyToNull | eco-wardrobe-backend/src/main/java/ee/pw/ecowardrobebackend/config/ListStringConverter.java:27 | each "" piece becomes null and the others are kept, in order |
| ListStringConverter.PiecesOfJoin | eco-wardrobe-backend/src/main/java/ee/pw/ecowardrobebackend/config/ListStringConverter.java:16-28 | splitting the "||"-join of strings without '\|' gives the strings back, empty ones included |
| ListStringConverter.RoundTrip | eco-wardrobe-backend/src/main/java/ee/pw/ecowardrobebackend/config/ListStringConverter.java:16-28 | a non-empty list of non-empty strings without '\|' reads back unchanged after writing |
| ListStringConverter.TrailingNullLost | eco-wardrobe-backend/src/main/java/ee/pw/ecowardrobebackend/config/ListStringConverter.java:26 | [a, null] is written as "a\|\|" and read back as [a] |
| ListStringConverter.LoneNullLost | eco-wardrobe-backend/src/main/java/ee/pw/ecowardrobebackend/config/ListStringConverter.java:17-25 | [null] is written as "" and read back as the empty list |
| ListStringConverter.LeadingNullKept | eco-wardrobe-backend/src/main/java/ee/pw/ecowardrobebackend/config/ListStringConverter.java:26 | a leading null survives: [null, a] is written as "\|\|a" and read back as [null, a] |
| ListStringConverter.SeparatorInElementSplits | eco-wardrobe-backend/src/main/java/ee/pw/ecowardrobebackend/config/ListStringConverter.java:26 | an element containing "\|\|" comes back as several elements |
| SeedData.GetMaterialName | eco-wardrobe-backend/src/main/java/ee/pw/ecowardrobebackend/config/DataLoader.java:429-431 | the secondary material is always "Elastan" |
| SeedData.FirstMatchWins | eco-wardrobe-backend/src/main/java/ee/pw/ecowardrobebackend/config/DataLoader.java:402-425 | the keyword tests run on the lower-cased name in fixed order and the first branch that matches names the primary material |
| SeedData.NoMatchDefaults | eco-wardrobe-backend/src/main/java/ee/pw/ecowardrobebackend/config/DataLoader.java:426-428 | a name matching no keyword gets "Bawełna organiczna" |
| SeedData.PrimaryNameCases | eco-wardrobe-backend/src/main/java/ee/pw/ecowardrobebackend/config/DataLoader.java:400-428 | conversely, every primary name is that of the first matching branch, or the default when no branch matches |
| SeedData.DenimBeforeHemp | eco-wardrobe-backend/src/main/java/ee/pw/ecowardrobebackend/config/DataLoader.java:406-409 | "Hemp Denim" matches both the denim and the hemp branch and gets "Recyklingowany denim" |
| SeedData.CreateMaterials | eco-wardrobe-backend/src/main/java/ee/pw/ecowardrobebackend/config/DataLoader.java:321-333 | the primary material always carries [GOTS, OEKO-TEX]; an "Elastan" entry with [OEKO-TEX] follows exactly when the secondary percentage is positive |
| SeedData.PrimaryEntryIsOrganic | eco-wardrobe-backend/src/main/java/ee/pw/ecowardrobebackend/config/DataLoader.java:325 | through "GOTS" the primary entry always carries the engine's organic mark |
| SeedData.SecondaryEntryNeutral | eco-wardrobe-backend/src/main/java/ee/pw/ecowardrobebackend/config/DataLoader.java:327-331 | the "Elastan" entry is synthetic and not recycled for the engine |
| SeedData.GotsNotRecycledMark | eco-wardrobe-backend/src/main/java/ee/pw/ecowardrobebackend/config/DataLoader.java:325 | "GOTS" is not a recycled certification |
| SeedData.SeedCertificationsNotRecycled | eco-wardrobe-backend/src/main/java/ee/pw/ecowardrobebackend/config/DataLoader.java:325-331 | neither seeded certification list holds a recycled certification, so a seeded material counts as recycled only through its name |
| SeedData.OekoTexNotRecycled | eco-wardrobe-backend/src/main/java/ee/pw/ecowardrobebackend/config/DataLoader.java:325 | "OEKO-TEX" is not a recycled certification |
| SeedData.SeedConstantsScoring | eco-wardrobe-backend/src/main/java/ee/pw/ecowardrobebackend/config/DataLoader.java:336-369 | the seeded ["Nie wykryto"] list is non-empty, so both scorers apply their hazard penalty; "Średnia" is neither "high" nor "low", so it gives 0 repair points and a repairable product; 200 cycles give 8 durability points; 85 % recyclability gives 10 points, no penalty and the full tier |

## Left out

- Output: the `console.log` and `console.warn` calls of `calculateProductEcoScore`, `getProductImageUrl`, `compressImage` and `convertBackendImageToBase64` only print.
- Floating point: scores, weights and percentages are exact reals. JavaScript doubles can differ at rounding boundaries (a raw total that should be x.5 but is stored just below it).
- JsMath.Round: `Math.round` on exact reals; the double-precision rounding of its argument is not modelled.
- Text.Lower: `toLowerCase` lower-cases only ASCII and the nine Polish capitals here; other Unicode letters are left as they are. Characters outside the Basic Multilingual Plane are one `char`, not two UTF-16 units.
- `compressImage`: `FileReader`, `Image`, the canvas and JPEG encoding are browser I/O. Only the resize arithmetic is modelled, on whole-pixel dimensions.
- `fileToBase64`, `getUserAvatarUrl` and `cn` are not part of this model. They are either browser I/O or the same shape as `getProductImageUrl`.
- `getProductImageUrl`: the `catch` branch is unreachable, since `base64ToDataUrl` cannot throw on a string.
- ImageUtils.ToUint8s: `Uint8Array` conversion is modelled for integers only; fractional values and NaN are left out.
- ImageUtils.Base64ToByteArray: `atob`'s exception on malformed input is the `None` result.
- The chunked `String.fromCharCode.apply` exists only to avoid a call-stack limit, which is not modelled.
- Base64.Atob: the WHATWG forgiving decode is modelled by its effect, not its steps. It drops ASCII whitespace and trailing `=` padding, rejects a remainder of one character and any character outside the alphabet, and ignores the unused low bits.
- `convertDPPtoProduct`: `addedAt: new Date()` reads the clock and is left out.
- `generateFacts`: facts are constructors carrying their numbers; the Polish sentence text and `toFixed(1)` formatting are not modelled.
- `convertBackendProductToDPP` is imported by the API modules but is not part of this model.
- `mockProducts` and `generateMockScannedProduct` are not part of this model; the second uses `Math.random`.
- WardrobeStatistics.CategoryCountsTotal: product categories are the five values of the `Category` type. A value outside the type, which TypeScript would not reject at run time, is not modelled.
- `createProduct`: the producer, production sites, supply chain, metadata (`LocalDateTime.now()`), URLs built from the brand, and the image download are not modelled. Only the material list and the constants the scorers read are.
- `DataLoader.run` and `loadTestData` save entities and download images; they are left out.
- ListStringConverter: Java's `String.split` is modelled for the quoted literal separator only, which is the only pattern used.

## Findings

| source | as written | input that shows it | evidently intended | confidence | as-written member | corrected member |
|---|---|---|---|---|---|---|
| eco-wardrobe-frontend/src/data/mockData.ts:280-282 | the legacy aggregator divides the pooled natural percentage by the pooled total with no guard | a non-empty wardrobe whose products list no materials: 0 / 0 makes `naturalMaterialsPercent` and `syntheticMaterialsPercent` NaN | a finite natural figure with natural + synthetic = 100, as the current aggregator gives | medium, not executed | LegacyMockData.LegacyNaNWithoutMaterials | WardrobeStatistics.NaturalAndSynthetic |
