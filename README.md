# Dynamic pricing assistant — a Dafny model of its data core

The system scrapes product listings for a search query and shows them in a
React front end, and a Python API derives keyword and marketing insights
from the same listings. This project models the parts of it that compute
something, and proves what they promise:

- **The product dashboard** (`Dashboard.jsx`), in module `Dashboard`
  (`dashboard.dfy`).
  - The three reducers (`sellerStats`, `ratingStats`, `deliveryStats`)
    update an accumulator step by step. Each is a method with a loop, proved
    equal to a fold function over the products.
  - Each fold is then related to an independent description: group by
    seller and aggregate, a tally of rating buckets, or a filter of free
    deliveries.
  - The sort-and-slice pipelines (top sellers by product count and by total
    price, top prices, the pie data) are functions over a stable descending
    sort.
- **The keyword analysis** (`app3.py`), in module `Keywords`
  (`keywords.dfy`).
  - The stop-word and length filter of `preprocess_text`.
  - The counting parts of `analyze_keywords`: `Counter(...).most_common(n)`
    for keywords and brands, the product total, and when an average price
    exists.
  - `get_keyword_insights`, which appends up to four sentences.
- **The content generator page** (`AIGen.jsx`), in module `AIGen`
  (`aigen.dfy`). It covers the form-field update of `handleChange` and the
  line classification of `formatContent`.

The shared modules are:

- `Text` (`text.dfy`): ASCII lower-casing, substring search, splitting on a
  character and on whitespace, joining, and first-occurrence replacement.
- `Counting` (`counting.dfy`): order-preserving filter, distinct keys in
  first-appearance order, tallies and their sums.
- `Ranking` (`ranking.dfy`): stable insertion sort by a real-valued key and
  taking a prefix.
- `Wrappers` (`wrappers.dfy`): `Option`.

How the source's values are represented:

- JavaScript and Python numbers are Dafny `real`s, and counts are `nat`s.
- An absent JSON field is `None`, or `Missing` in the Python model.
- A JavaScript object used as a dictionary is a `map` plus, where key order
  matters, a sequence of keys in insertion order.

## Model

| member | source | states |
|---|---|---|
| Dashboard.SellerStatsGroups | frontend/priceTracker/src/components/Dashboard.jsx:13-27 | the folded seller dictionary equals group-by-seller-then-aggregate: a record exists exactly for the sellers that occur (absent or empty seller named "Unknown Seller"); its count, total price and ratings are those of the seller's products, so each seller has exactly `count` ratings |
| Dashboard.ComputeSellerStats | frontend/priceTracker/src/components/Dashboard.jsx:13-27 | the reducer loop yields the folded seller dictionary, and its keys in first-appearance order |
| Dashboard.SellerCountsTally | frontend/priceTracker/src/components/Dashboard.jsx:18-22 | the per-seller counts are the tally of the products' seller names |
| Dashboard.SellerCountsTotal | frontend/priceTracker/src/components/Dashboard.jsx:13-27 | the per-seller counts sum to the number of products |
| Dashboard.SellerStatsAsWrittenAgrees | frontend/priceTracker/src/components/Dashboard.jsx:18-24 | when no seller name is an inherited `Object.prototype` member, the reducer as written succeeds and computes the seller dictionary |
| Dashboard.ConstructorSellerThrows | frontend/priceTracker/src/components/Dashboard.jsx:18-24 | as written, one product sold by "constructor" makes the reducer fail |
| Dashboard.SellerCountsMembers | frontend/priceTracker/src/components/Dashboard.jsx:30-31 | the mapped list has an entry for exactly the sellers, each with that seller's count |
| Dashboard.SellerTotalsMembers | frontend/priceTracker/src/components/Dashboard.jsx:35-36 | the mapped list has an entry for exactly the sellers, each with that seller's total price |
| Dashboard.TopSellersByProductsSorted | frontend/priceTracker/src/components/Dashboard.jsx:30-33 | at most ten entries (fewer only when there are fewer sellers), in non-increasing count order |
| Dashboard.TopSellersByProductsValues | frontend/priceTracker/src/components/Dashboard.jsx:30-33 | every entry is a seller with its aggregate count |
| Dashboard.TopSellersByProductsDominates | frontend/priceTracker/src/components/Dashboard.jsx:30-33 | no seller left out has a larger count than a seller kept |
| Dashboard.TopSellersByTotalPriceSorted | frontend/priceTracker/src/components/Dashboard.jsx:35-38 | at most ten entries (fewer only when there are fewer sellers), in non-increasing total-price order |
| Dashboard.TopSellersByTotalPriceValues | frontend/priceTracker/src/components/Dashboard.jsx:35-38 | every entry is a seller with its aggregate total price |
| Dashboard.TopSellersByTotalPriceDominates | frontend/priceTracker/src/components/Dashboard.jsx:35-38 | no seller left out has a larger total price than a seller kept |
| Dashboard.ShortTitle | frontend/priceTracker/src/components/Dashboard.jsx:41 | the label is the title's first 15 characters (all of a shorter title) followed by "..." |
| Dashboard.TopPricesRanked | frontend/priceTracker/src/components/Dashboard.jsx:40-43 | at most ten entries (fewer only with fewer products), in non-increasing price order, each one product's label and price, no entry kept more often than products have it, and no product left out is priced above an entry kept |
| Dashboard.PieData | frontend/priceTracker/src/components/Dashboard.jsx:46-49 | one slice per top-price entry, in the same order, named by its label and valued at its price |
| Dashboard.RatingKeyOf | frontend/priceTracker/src/components/Dashboard.jsx:53 | the bucket is "Unknown" exactly when the rating is absent or 0; otherwise it is the integer floor of the rating |
| Dashboard.ComputeRatingStats | frontend/priceTracker/src/components/Dashboard.jsx:52-56 | the reducer loop yields the tally of the products' rating buckets |
| Dashboard.RatingStatsTotal | frontend/priceTracker/src/components/Dashboard.jsx:52-56 | each bucket counts the products whose rating falls in it, and the bucket counts sum to the number of products |
| Dashboard.ComputeDeliveryStats | frontend/priceTracker/src/components/Dashboard.jsx:64-74 | `free` is the number of free-delivery products and `free + paid` is the number of products |
| Dashboard.FreeProducts | frontend/priceTracker/src/components/Dashboard.jsx:66 | the free products are exactly those whose delivery text, lower-cased, contains "free" somewhere, counted with multiplicity |
| Dashboard.DeliveryPieData | frontend/priceTracker/src/components/Dashboard.jsx:76-79 | exactly two slices, "Free Delivery" then "Paid Delivery", carrying the free count and adding up to all products |
| Keywords.PreprocessSpec | api/app3.py:53 | every kept token is no stop word and longer than two characters; the kept tokens are a subsequence of the tokens; every such token is kept as often as it occurs |
| Keywords.MostCommonSorted | api/app3.py:65-66 | `most_common(n)` has `min(n, distinct terms)` pairs in non-increasing count order |
| Keywords.MostCommonValues | api/app3.py:65-66 | each pair is a term of the input with its exact positive number of occurrences |
| Keywords.MostCommonDominates | api/app3.py:65-66 | no term left out occurs more often than a term kept |
| Keywords.MostCommonDistinct | api/app3.py:65-66 | each term appears in at most one pair |
| Keywords.BrandsFromProducts | api/app3.py:74-75 | every brand counted is lower case and is the lower-cased brand of a product with a non-empty brand; and each brand is counted exactly as many times as there are products whose non-empty brand lower-cases to it |
| Keywords.BrandCount | api/app3.py:74-75 | a brand's multiplicity in the brand list equals the number of products with a non-empty brand that lower-cases to it |
| Keywords.TopBrandsFromProducts | api/app3.py:74-76 | `top_brands` has at most five entries, each lower case and taken from a product with a brand |
| Keywords.PricesEmpty | api/app3.py:68-71 | the price list is empty exactly when no product has a truthy price |
| Keywords.AveragePrice | api/app3.py:68-72 | the average price is None exactly when no product has a truthy price |
| Keywords.MissingTermsSpec | api/app3.py:93-99 | the missing terms are the lower-cased whitespace-split query terms that are not keys of `top_keywords`, in query order and with duplicates kept; each is a non-empty word |
| Keywords.FoundTermsSpec | api/app3.py:95-105 | the found descriptors, sizes and materials are the `top_keywords` terms in the fixed set, in frequency order, each as often as it appears there |
| Keywords.AssembleEntries | api/app3.py:100-112 | each insight carries the non-empty term list of its own check, and there is at most one insight per check |
| Keywords.AssembleKinds | api/app3.py:100-112 | there is an insight of a kind exactly when that check's term list is non-empty |
| Keywords.AssembleOrder | api/app3.py:100-112 | the insights come in the order the checks are made |
| Keywords.InsightsSpec | api/app3.py:92-112 | at most four insights, in the order missing terms, descriptors, sizes, materials, one exactly for each non-empty list, each carrying that list |
| Keywords.GetKeywordInsights | api/app3.py:90-114 | the successive appends yield exactly the sentences of those insights, in order, each with its fixed prefix and the terms joined by ", " |
| Keywords.AnalyzeKeywords | api/app3.py:64-87 | the result holds the product total, the top-20 keywords of the filtered tokens, the top-5 brands, the average price (None exactly when no price is truthy), the insights for the top keywords, and the query |
| AIGen.InitialForm | frontend/priceTracker/src/components/AIGen.jsx:5-10 | the form starts with exactly the four fields, all empty |
| AIGen.HandleChange | frontend/priceTracker/src/components/AIGen.jsx:15-17 | the named field takes the new value; every other field keeps its value; no other field appears |
| AIGen.ApplyChangesFields | frontend/priceTracker/src/components/AIGen.jsx:5-17 | after any sequence of edits to the form's inputs, the form still has exactly the four fields, each holding the value last typed into it or "" |
| AIGen.FormatLine | frontend/priceTracker/src/components/AIGen.jsx:56-68 | a line starting with "### Blog Post:" is a level-1 heading "Blog Post" plus the rest; otherwise one starting with "\*\*Title:\*\*" is a level-2 heading "Title: " plus the rest; any other line is a paragraph with its text unchanged |
| AIGen.FormatLineRoundTrip | frontend/priceTracker/src/components/AIGen.jsx:56-68 | the original line can be recovered from its element |
| AIGen.FormatContent | frontend/priceTracker/src/components/AIGen.jsx:49-69 | empty content yields exactly the placeholder "Your AI-generated content will appear here."; other content yields one element per newline-separated line, and element i is line i classified by `FormatLine` |
| AIGen.FormatContentRoundTrip | frontend/priceTracker/src/components/AIGen.jsx:53-69 | the elements are the lines in order: recovering each element's line and joining with newlines gives back the content |
| Text.Lower | frontend/priceTracker/src/components/Dashboard.jsx:66 | lower-casing keeps the length and maps each character through its lower-case form |
| Text.IncludesAt | frontend/priceTracker/src/components/Dashboard.jsx:66 | `includes` holds exactly when the pattern occurs at some position |
| Text.SplitOn | frontend/priceTracker/src/components/AIGen.jsx:53 | `split('\n')` gives one more part than there are newlines, and no part contains a newline |
| Text.SplitOnJoin | frontend/priceTracker/src/components/AIGen.jsx:53 | joining the parts of the split with newlines gives back the text |
| Text.Words | api/app3.py:93 | every part of the whitespace split is a non-empty run of non-space characters |
| Text.WordsOfJoin | api/app3.py:93 | splitting words joined by single spaces gives back the words |
| Text.WordsSplitAt | api/app3.py:93 | any whitespace character separates words: text cut at one splits into the words of its left side followed by those of its right side |
| Text.WordsOfSpaces | api/app3.py:93 | text made only of whitespace has no words |
| Text.WordsOfWord | api/app3.py:93 | a single run of non-space characters splits as itself |
| Counting.TallySpec | api/app3.py:65 | a `Counter` has a key exactly for the elements that occur, each mapped to its number of occurrences |
| Counting.TallyTotal | api/app3.py:65 | a `Counter`'s counts, taken over its keys, sum to the number of elements |
| Ranking.SortDesc | frontend/priceTracker/src/components/Dashboard.jsx:32 | the sort gives a permutation of the entries in non-increasing key order |

## Left out

- Fetching the products (`fetch` in the front end, `fetch_product_data` in the API) and the external catalogue and model services are I/O. Their results are parameters here.
- React rendering, JSX markup, chart components, routing, loading flags and the shared data context are presentation. `formatContent`'s elements are modelled as a datatype, and the React `key` is the element's position.
- `handleSubmit` is left out. It posts the form and stores the reply, or a fixed fallback message.
- `word_tokenize`, the stop-word corpus and the regular-expression clean-up before tokenising are foreign libraries. `Keywords.Preprocess` and `Keywords.AnalyzeKeywords` take the token list and the stop-word set as inputs.
- Keywords.AveragePrice: the price parser `float(re.sub(...))` is a function parameter, and the average is computed over Dafny reals. Only when the average is None is stated, not its floating-point value. The parser is total, so the case where `float(...)` raises `ValueError` is not modelled. A truthy price with no digit, or one that leaves two dots after the clean-up, aborts `analyze_keywords` in the source, but the model still returns an `Analysis`.
- Text.Lower: ASCII lower-casing only. JavaScript `toLowerCase` and Python `lower` also map non-ASCII letters, which the model does not.
- Text.Words: whitespace is ASCII space, the control characters 9-13 and 28-31. The Unicode spaces that Python's `split()` also recognises are not modelled.
- Dashboard.SellerKeys: `Object.keys` lists integer-like keys first, in numeric order. The model lists every seller in first-appearance order, so a seller named like "42" is not modelled exactly.
- Dashboard.TopPrices: a product without `extracted_price` has the price 0 in the model. The source compares with `undefined`, which makes the comparison `NaN` and its place in the sort implementation-defined.
- Dashboard.TopPrices: every product is assumed to have a title. At line 41 of `Dashboard.jsx`, `p.title.slice(0, 15)` throws a `TypeError` for a product without a title, and the dashboard does not render. The model has no such failure.
- Dashboard.ShortTitle: JavaScript's `slice(0, 15)` counts UTF-16 code units, and Dafny's `char` is a Unicode scalar value. A title with characters outside the Basic Multilingual Plane, such as emoji, is cut at a different place in the model.
- `ratingPieData` is left out: it turns numeric keys into text, and `Object.keys` orders them numerically. The bucket counts it displays are `Dashboard.ComputeRatingStats`.
- `toFixed` formatting, `calculate_price_statistics` (pandas) and the endpoint glue of the other API files are float formatting, a foreign library and request handling.
- Ranking.SortDesc: a stable insertion sort stands in for `Array.prototype.sort` and for `heapq.nlargest`, which `most_common` uses. Both are stable, so ties keep first-appearance order, as in the model. The model does not state this tie order as a separate property.
- JSON key order of the form and of the API's result dictionary is not modelled: they are `map`s and a datatype.

## Findings

| source | as written | input that shows it | evidently intended | confidence | as-written member | corrected member |
|---|---|---|---|---|---|---|
| frontend/priceTracker/src/components/Dashboard.jsx:18-24 | `!acc[seller]` on an object literal also sees inherited `Object.prototype` members, so no record is created for a seller named after one. `acc[seller].ratings` is then undefined and `push` throws. | one product whose `seller` is "constructor" | every seller name gets its own record, as for any other name (an own-property check or a prototype-free dictionary) | not executed | Dashboard.SellerStatsAsWritten, Dashboard.ConstructorSellerThrows | Dashboard.SellerStats, Dashboard.ComputeSellerStats |
