# E-commerce deals bot: scoring, ranking and pitch

A Dafny model of the core of a small deals-search service, `backend/main.py`.
For a product query the service does the following:

- It builds four demo deals, one per platform (amazon, flipkart, myntra, ajio),
  from a fixed table of price deltas, ratings and review counts.
- It scores each deal: a clamped price term, a rating term and a
  logarithmic review-volume term, blended 0.5 / 0.35 / 0.15 and rounded to
  four decimal places.
- It returns the deals in descending score order.
- It keeps those inside the optional inclusive price bounds.
- It orders them by the `sort_by` directive, which is one of `price_low`,
  `price_high`, `rating`, `reviews`, or anything else for descending score.
- It writes a one-paragraph pitch recommending the first deal and up to two
  runners-up.

Modules, one per file:

- `Deals` (`deals.dfy`): the `Deal` record of `backend/schemas.py` (lines 6-18, one field each), optional
  values, integer-to-text conversion and the substring predicate `Contains`.
- `Scoring` (`scoring.dfy`): `_norm` and `score_deal`, with Python's
  `round(x, n)` written out as exact round-half-even.
- `Ranking` (`ranking.dfy`): the price filter and the stable sort.
  - The functional specification is `StableSort` (insertion from the back),
    with `Stable` and `Tied` stating that equal keys keep their input order.
    `StableSortUnique` proves that every sorted rearrangement keeping tied
    deals in order equals it.
  - `SortInPlace` is the in-place sort on an `array<Deal>` that the model
    runs, proved equal to `StableSort`. Python's `list.sort` is therefore
    pinned down by its promise, not by its algorithm.
  - `Rank` is the filter-and-sort block of the endpoint.
- `Synthesis` (`synthesis.dfy`): `scrape_stub`. The loop `BuildDeals` is
  followed by the in-place sort by descending score.
- `Pitch` (`pitch.dfy`): `craft_pitch`.
- `Search` (`search.dfy`): `search_deals` end to end.

The following are parameters of the model, because the model cannot compute them:

- Python's `math.log10`, constrained by `IsLog10`;
- `str.title` and `str.capitalize`;
- the text form of a float in an f-string;
- the clock behind `datetime.utcnow()`, indexed by the loop step.

Floats are exact reals.

At a price of 50000 the price term is 0, so with a rating of 5 and 1000
reviews the score is 0.35 + 0.15 = 0.5 (`ScoreBoundaryValues`).

## Model

| member | source | states |
|---|---|---|
| Deals.Trunc | backend/main.py:104-106 | Python's `int(x)`: the integer part, truncated toward zero |
| Deals.NatToString | backend/main.py:104-107 | the decimal numeral of n: digits only, no leading zero, and the digits denote n |
| Deals.IntToString | backend/main.py:104-107 | `str(n)`: the digits of n with no leading zero (unless n is 0), with a minus sign in front when n is negative |
| Scoring.Norm | backend/main.py:32-37 | result in [0,1]; 0 for a missing value or a degenerate range; otherwise 0 below the range, 1 above it and the linear position inside it |
| Scoring.NormMonotone | backend/main.py:32-37 | on a proper range normalisation never decreases as the value grows |
| Scoring.PriceScore | backend/main.py:42-45 | price term in [0,1]: 0 when missing, 1 at or below 100, 0 at or above 50000, 1 − (p−100)/49900 between |
| Scoring.PriceScoreNonIncreasing | backend/main.py:42-45 | a higher price never earns a higher price term |
| Scoring.ReviewsScoreBounds | backend/main.py:47-49 | review term in [0,1], and exactly 1 from 1000 reviews up |
| Scoring.RatingScore | backend/main.py:46 | 0 when missing; otherwise five times the term is the rating, so a rating in [0,5] gives a term in [0,1] |
| Scoring.ReviewsScore | backend/main.py:47-49 | 0 when missing; otherwise, with n the review count raised to at least 1, log10(n)/3 while that is at most 1, and exactly 1 from there on |
| Scoring.Blend | backend/main.py:51 | the weights add up to 1, so the blend lies between the smallest and the largest of the three terms |
| Scoring.RoundHalfEven | backend/main.py:51 | the result is within 0.5 of the input, and an exact tie goes to the even integer |
| Scoring.RoundHalfEvenMonotone | backend/main.py:51 | rounding is monotone |
| Scoring.Round4 | backend/main.py:51 | `round(x, 4)`: a whole number of ten-thousandths within 0.00005 of x, an exact tie going to the even count of ten-thousandths |
| Scoring.Round4TieToEven | backend/main.py:51 | `round(0.03125, 4)` is 0.0312: the tie goes to even, not up |
| Scoring.Round2 | backend/main.py:75-81 | `round(x, 2)`: a whole number of hundredths within 0.005 of x, an exact tie going to the even count of hundredths |
| Scoring.Round4Monotone | backend/main.py:51 | `round(x, 4)` is monotone |
| Scoring.Round4Unit | backend/main.py:51 | `round(x, 4)` keeps a value of [0,1] inside [0,1] |
| Scoring.Round4Exact | backend/main.py:51 | a value with four decimals is left unchanged by `round(x, 4)` |
| Scoring.Round2Exact | backend/main.py:75-81 | a whole number of cents is left unchanged by `round(x, 2)` |
| Scoring.ScoreDeal | backend/main.py:40-51 | the score has four decimals and is within 0.00005 of the blend, an exact tie going to even; its range and monotonicity are stated by ScoreInUnit and ScoreNonIncreasingInPrice |
| Scoring.ScoreInUnit | backend/main.py:40-51 | with a rating in [0,5] (or none) the score is in [0,1] |
| Scoring.ScoreNonIncreasingInPrice | backend/main.py:40-51 | all else equal, a lower price never lowers the score |
| Scoring.ScoreBoundaryValues | backend/main.py:40-51 | score(100, 0, 0) = 0.5 and score(50000, 5, 1000) = 0.5 |
| Scoring.ScoreExceedsOneAboveFiveStars | backend/main.py:46 | the rating term is not clamped: score(100, 10, 1000) = 1.35 |
| Synthesis.ListPrice | backend/main.py:73 | the price is at least 99 and at least 999 + delta, and equals one of them |
| Synthesis.PlusForSpaces | backend/main.py:87 | same length; every space becomes `+` and every other character stays |
| Synthesis.ProductUrl | backend/main.py:87 | the URL is `https://`, the platform, `.com/s?k=` and the query with spaces replaced, in that order and nothing else |
| Synthesis.ProductUrlHasNoSpaces | backend/main.py:87 | the product URL contains no space |
| Synthesis.DiscountIsTwenty | backend/main.py:74-75 | with original = 1.25 × price the discount is exactly 20 for any positive price |
| Synthesis.SynthDeal | backend/main.py:72-90 | the deal for a table row carries that row's platform, and (for a true log10) a score in [0,1], since every table rating is at most 5; the other fields are stated by SynthDealFacts and SynthDealOtherFields |
| Synthesis.Synthesized | backend/main.py:71-91 | four deals whose platforms are amazon, flipkart, myntra and ajio, in table order |
| Synthesis.SynthDealOtherFields | backend/main.py:79-89 | the title is the title-cased query with ` – Top Pick #` and the row number from 1; the score is `score_deal` of the unrounded list price, rating and review count; the delivery text and the clock's reading at step i |
| Synthesis.SynthDealFacts | backend/main.py:72-90 | the deal for table row i has that row's platform, rating and review count, price max(99, 999+delta) ≥ 99, original 1.25 × price, discount 20, the search URL and the demo images |
| Synthesis.TableDealFacts | backend/main.py:72-90 | every deal of the table has price ≥ 99, original 1.25 × price, discount 20 and its search URL |
| Synthesis.PlatformsOfPermutation | backend/main.py:93 | rearranging deals rearranges their platform names alike |
| Synthesis.RearrangedTableFacts | backend/main.py:71-93 | any rearrangement of the four deals has four deals, one per platform, each with price ≥ 99, original 1.25 × price, discount 20 and its search URL |
| Synthesis.ScrapedFacts | backend/main.py:92-94 | a rearrangement of the table sorted by score has the facts above and descending scores |
| Synthesis.BuildDeals | backend/main.py:71-91 | the loop builds exactly one deal per table row, in table order |
| Synthesis.ScrapeStub | backend/main.py:54-94 | the result is the stable descending-score sort of the four deals; four deals, one per platform, in descending score, each at 20% off |
| Ranking.Insert | backend/main.py:93 | inserting adds exactly the one deal (multiset) |
| Ranking.StableSort | backend/main.py:129-138 | the result is a permutation of the input and sorted under the order |
| Ranking.InsertSorted | backend/main.py:129-138 | insertion into a sorted list keeps it sorted |
| Ranking.TiedConcat | backend/main.py:129-138 | the tied group of a concatenation is the concatenation of the groups |
| Ranking.InsertTied | backend/main.py:129-138 | insertion appends the deal to its own tied group and leaves every other group unchanged |
| Ranking.TiedSnoc | backend/main.py:129-138 | the tied group of a list is that of its front, followed by its last deal when that deal has the key |
| Ranking.StableSortStable | backend/main.py:129-138 | the stable sort keeps every group of deals with equal keys in input order |
| Ranking.SortedStableUnique | backend/main.py:129-138 | two sorted lists with the same tied groups are equal |
| Ranking.StableSortUnique | backend/main.py:129-138 | any sorted list keeping the tied groups of the input in order is the stable sort of the input |
| Ranking.InsertAt | backend/main.py:129-138 | insertion puts the deal after exactly the deals it does not precede |
| Ranking.ShiftUp | backend/main.py:129-138 | the shifting loop stops at the first slot whose left neighbour the deal does not precede; it moves every deal it passes one slot up and touches nothing above the slot it started from |
| Ranking.InsertStep | backend/main.py:129-138 | one step leaves the prefix equal to the insertion of the next deal and nothing above it changed |
| Ranking.ShiftedIsInsert | backend/main.py:129-138 | the array left by the shifting loop is the insertion of the deal into the sorted prefix |
| Ranking.StableSortSnoc | backend/main.py:129-138 | sorting a longer prefix inserts the next deal into the sorted shorter prefix |
| Ranking.SortInPlace | backend/main.py:93 | the array afterwards holds the stable sort of its old contents |
| Ranking.SortCopy | backend/main.py:93 | sorting a copy of a list in an array gives the stable sort of the list |
| Ranking.AtLeast | backend/main.py:123-124 | a deal is kept exactly when it is in the input with price ≥ min |
| Ranking.AtMost | backend/main.py:125-126 | a deal is kept exactly when it is in the input with price ≤ max |
| Ranking.PriceFilter | backend/main.py:122-126 | a deal is kept exactly when it is in the input and within every bound that is given |
| Ranking.AtLeastConcat | backend/main.py:123-124 | the minimum filter keeps relative order, one part at a time |
| Ranking.AtMostConcat | backend/main.py:125-126 | the maximum filter keeps relative order, one part at a time |
| Ranking.PriceFilterConcat | backend/main.py:122-126 | the price filter keeps relative order, one part at a time |
| Ranking.PriceFilterSingle | backend/main.py:122-126 | one deal passes exactly when it is in range |
| Ranking.PriceFilterIdempotent | backend/main.py:122-126 | a list already in range passes unchanged; filtering twice equals filtering once; no bounds keep everything |
| Ranking.OrderFor | backend/main.py:129-138 | the key is the price exactly for price_low and price_high, the rating exactly for rating, the review count exactly for reviews, the score exactly for every other directive, and the order is descending for everything but price_low |
| Ranking.UnknownDirectiveIsBest | backend/main.py:137-138 | an unknown directive, "best" and no directive all sort by descending score |
| Ranking.SortedByDirective | backend/main.py:129-138 | a list is sorted under the selected order exactly when it is in ascending price for price_low, descending price for price_high, descending rating / review count / score (missing counts as 0) for the others |
| Ranking.Rank | backend/main.py:122-138 | the result is the stable sort of the filtered list; it is a permutation of the filtered deals; a deal appears exactly when it is an input deal in range; ties keep input order; the directive's order holds |
| Ranking.TiedReverse | backend/main.py:131-132 | reversing a list reverses each tied group |
| Ranking.PriceHighReversesPriceLow | backend/main.py:129-132 | with distinct prices, the price_high order is the reverse of the price_low order |
| Pitch.Apology | backend/main.py:98-102 | the apology opens with its fixed text, directly followed by the query |
| Pitch.Offer | backend/main.py:104-106 | an offer opens with the capitalised platform and closes with the price truncated to whole rupees |
| Pitch.Join | backend/main.py:104 | `", ".join`: empty for no parts, otherwise opening with the first part and closing with the last |
| Pitch.JoinContains | backend/main.py:104 | every joined part occurs in `", ".join(...)` |
| Pitch.Alternatives | backend/main.py:104 | the runners-up are `deals[1:3]`: none for at most one deal, otherwise min(2, n−1) deals starting at position 1 |
| Pitch.BestClause | backend/main.py:106-107 | the best-pick clause names the best deal's offer and states its discount, rating and review count |
| Pitch.AfterQuery | backend/main.py:106-108 | the text after the query holds the best-pick clause |
| Pitch.OpeningsDiffer | backend/main.py:100-106 | the apology and the recommendation open with texts that differ at their second character |
| Pitch.DifferentOpenings | backend/main.py:100-106 | texts opening with such different openings are different |
| Pitch.PitchIsApologyIffEmpty | backend/main.py:97-109 | the pitch is the apology exactly when there are no deals |
| Pitch.Recommendation | backend/main.py:105-109 | the recommendation opens with its fixed text, directly followed by the query |
| Pitch.CraftPitch | backend/main.py:97-109 | the pitch always contains the query; see also the lemmas below |
| Pitch.RecommendationContains | backend/main.py:105-108 | whatever the text after the query contains, the recommendation contains |
| Pitch.AltClauseContains | backend/main.py:108 | whatever the joined runners-up contain, the runners-up sentence contains |
| Pitch.AfterQueryContainsAlt | backend/main.py:106-108 | whatever the runners-up sentence contains, the text after the query contains |
| Pitch.PitchNamesBest | backend/main.py:103-107 | a non-empty pitch contains the best-pick clause for the first deal, with its discount, rating and review count |
| Pitch.PitchNamesBestOffer | backend/main.py:103-106 | a non-empty pitch names the first deal's capitalised platform and its whole-rupee price |
| Pitch.PitchNamesAlternatives | backend/main.py:104-108 | the deals at positions 1 and 2, when present, are named in the pitch |
| Pitch.AlternativesNameOffer | backend/main.py:104 | the joined runners-up name the deal at position 1 or 2 |
| Pitch.PitchContainsAlternatives | backend/main.py:104-108 | whatever the joined runners-up contain, a non-empty pitch contains |
| Pitch.CraftPitchIsRecommendation | backend/main.py:103-109 | a non-empty pitch is the recommendation of the first deal with the joined runners-up |
| Pitch.PitchSeesOnlyTopThree | backend/main.py:103-104 | the pitch depends only on the first three deals |
| Search.Answer | backend/main.py:118-138 | the answer holds exactly the table deals within the bounds, in the order the directive selects |
| Search.AnswerMembership | backend/main.py:120-126 | the answer holds exactly the table deals within the bounds |
| Search.SelectionFacts | backend/main.py:118-138 | the answer's members are the table deals in range; there are four without bounds and none with crossed bounds; each deal is at 20% off |
| Search.CrossedBoundsLeaveNothing | backend/main.py:123-126 | with max < min nothing passes the filter |
| Search.AnswerFacts | backend/main.py:118-138 | the answer meets the selection facts, and with price_low and no bounds it is four deals headed by ajio at 899 |
| Search.CheapestRow | backend/main.py:69-73 | ajio's deal is the table's cheapest, at 899, and no other deal costs as little |
| Search.AscendingStartsAtMinimum | backend/main.py:129-130 | a rearrangement in ascending price starts at the price of the cheapest deal |
| Search.CheapestFirst | backend/main.py:129-130 | the table in ascending price starts with ajio at 899 |
| Search.PitchFacts | backend/main.py:140 | the pitch is the apology exactly when the answer is empty; it contains the query, and the first deal's offer when there is one |
| Search.SearchDeals | backend/main.py:118-141 | the deals are the filtered, directive-sorted scrape and the pitch is `craft_pitch` of them; the selection, order and pitch facts above hold; price_low without bounds gives four deals headed by ajio at 899 |

## Left out

- Floating point: prices, scores and roundings are exact reals. The binary representation error of Python floats is not modelled, including the last-place error of `(1 - price/original) * 100` before `round(…, 2)`.
- Scoring.ReviewsScoreBounds: `math.log10` is a parameter, constrained only by log10(1) = 0, log10(1000) = 3 and monotonicity.
- `str.title`, `str.capitalize`, the f-string text of a float and `datetime.utcnow()` are parameters. The model states nothing about their output beyond where it is placed.
- Ranking.SortInPlace: Python's Timsort is replaced by an insertion sort. `StableSortUnique` shows that any stable sort gives the same list, so the result is the same; the number of comparisons is not modelled.
- Synthesis.BuildDeals: each deal is built by the `SynthDeal` function rather than field by field in the loop body.
- The HTTP layer is not part of this model: the FastAPI routes `/` and `/test`, CORS, `async`, and pydantic request and response validation (`HttpUrl` checks, field types). The request's `category` field is accepted but unused by the code.
- The module constants `PLATFORMS` and `HEADERS`, and the `httpx` and `os` imports, are not used by the modelled code and are left out.
