/**
 * The keyword analysis of the pricing API: the token filter of
 * `preprocess_text`, the counting parts of `analyze_keywords` (top keywords,
 * brand frequency, product total, presence of an average price) and the
 * marketing insights of `get_keyword_insights`.
 *
 * Tokenisation and the stop-word corpus are inputs; so is the price parser
 * (`float(re.sub(r'[^\d.]', '', ...))`), passed as a function.
 */
module Keywords {
  import opened Wrappers
  import opened Text
  import opened Counting
  import opened Ranking

  // ---------------------------------------------------------------------
  // preprocess_text

  /** The comprehension's condition: not a stop word and longer than two characters. */
  function KeepToken(stopWords: set<string>): string -> bool {
    w => w !in stopWords && |w| > 2
  }

  /** `[word for word in tokens if word not in STOP_WORDS and len(word) > 2]`. */
  function Preprocess(tokens: seq<string>, stopWords: set<string>): seq<string> {
    Filter(tokens, KeepToken(stopWords))
  }

  /**
   * Every token kept is no stop word and longer than two characters, the
   * tokens kept are in their original order, and each such token is kept
   * as often as it occurs.
   */
  lemma PreprocessSpec(tokens: seq<string>, stopWords: set<string>)
    ensures forall i :: 0 <= i < |Preprocess(tokens, stopWords)| ==>
              Preprocess(tokens, stopWords)[i] !in stopWords && |Preprocess(tokens, stopWords)[i]| > 2
    ensures IsSubsequence(Preprocess(tokens, stopWords), tokens)
    ensures forall w :: multiset(Preprocess(tokens, stopWords))[w] ==
              if w !in stopWords && |w| > 2 then multiset(tokens)[w] else 0
  {
    FilterSpec(tokens, KeepToken(stopWords));
  }

  // ---------------------------------------------------------------------
  // Counter(...).most_common(n)

  /** A `(term, count)` pair of `most_common`. */
  datatype KeywordCount = KeywordCount(term: string, count: nat)

  function CountKey(e: KeywordCount): real { e.count as real }

  function Entries(keys: seq<string>, tally: map<string, nat>): seq<KeywordCount> {
    seq(|keys|, i requires 0 <= i < |keys| => KeywordCount(keys[i], Get(tally, keys[i])))
  }

  /**
   * `Counter(xs).most_common(n)`: the counter's items, in first-occurrence
   * order, stably sorted by non-increasing count, cut to `n`.
   */
  function MostCommon(xs: seq<string>, n: nat): seq<KeywordCount> {
    Top(SortDesc(Entries(Distinct(xs), Tally(xs)), CountKey), n)
  }

  function Terms(r: seq<KeywordCount>): seq<string> {
    seq(|r|, i requires 0 <= i < |r| => r[i].term)
  }

  lemma EntriesMembers(xs: seq<string>)
    ensures forall e :: e in Entries(Distinct(xs), Tally(xs)) <==> e.term in xs && e.count == multiset(xs)[e.term]
  {
    var d := Distinct(xs);
    var es := Entries(d, Tally(xs));
    TallySpec(xs);
    forall e: KeywordCount | e.term in xs && e.count == multiset(xs)[e.term] ensures e in es {
      var j :| 0 <= j < |d| && d[j] == e.term;
      assert es[j] == e;
    }
  }

  /** At most `n` pairs (fewer only when there are fewer distinct terms), by non-increasing count. */
  lemma MostCommonSorted(xs: seq<string>, n: nat)
    ensures |MostCommon(xs, n)| == Min(n, |Distinct(xs)|)
    ensures SortedDesc(MostCommon(xs, n), CountKey)
  {
    TopOfSorted(Entries(Distinct(xs), Tally(xs)), CountKey, n);
  }

  /** Every pair is a term of `xs` with its number of occurrences. */
  lemma MostCommonValues(xs: seq<string>, n: nat)
    ensures forall e :: e in MostCommon(xs, n) ==> e.term in xs && e.count == multiset(xs)[e.term] && e.count > 0
  {
    TopMembers(Entries(Distinct(xs), Tally(xs)), CountKey, n, MostCommon(xs, n));
    EntriesMembers(xs);
  }

  /** No term left out occurs more often than a term kept. */
  lemma MostCommonDominates(xs: seq<string>, n: nat)
    ensures forall w, e :: w in xs && w !in Terms(MostCommon(xs, n)) && e in MostCommon(xs, n) ==> multiset(xs)[w] <= e.count
  {
    var es := Entries(Distinct(xs), Tally(xs));
    var r := MostCommon(xs, n);
    TopMembers(es, CountKey, n, r);
    EntriesMembers(xs);
    TermsOf(r);
    forall w, e | w in xs && w !in Terms(r) && e in r ensures multiset(xs)[w] <= e.count {
      var x := KeywordCount(w, multiset(xs)[w]);
      assert x in es;
      assert CountKey(x) <= CountKey(e);
    }
  }

  lemma TermsOf(r: seq<KeywordCount>)
    ensures forall e :: e in r ==> e.term in Terms(r)
  {
    forall e | e in r ensures e.term in Terms(r) {
      var i :| 0 <= i < |r| && r[i] == e;
      assert Terms(r)[i] == e.term;
    }
  }

  lemma TwoOccurrences<T>(r: seq<T>, i: nat, j: nat)
    requires i < j < |r|
    ensures r[i] == r[j] ==> multiset(r)[r[i]] >= 2
  {
    assert r == r[..j] + r[j..];
    assert multiset(r) == multiset(r[..j]) + multiset(r[j..]);
    assert r[i] in multiset(r[..j]);
    assert r[j] in multiset(r[j..]);
  }

  lemma {:induction false} DistinctCountsOnce<T>(s: seq<T>, x: T)
    requires forall i, j :: 0 <= i < j < |s| ==> s[i] != s[j]
    ensures multiset(s)[x] <= 1
    decreases |s|
  {
    if s != [] {
      assert s == [s[0]] + s[1..];
      DistinctCountsOnce(s[1..], x);
      assert s[0] == x ==> x !in s[1..];
    }
  }

  /** A list whose elements each occur at most once has no duplicates. */
  lemma NoDupOfOnce<T>(r: seq<T>)
    requires forall x :: multiset(r)[x] <= 1
    ensures NoDup(r)
  {
    forall i, j | 0 <= i < j < |r| ensures r[i] != r[j] {
      TwoOccurrences(r, i, j);
    }
  }

  /** The counter's items, one per distinct term, each occur once. */
  lemma EntriesOnce(xs: seq<string>)
    ensures forall e :: multiset(Entries(Distinct(xs), Tally(xs)))[e] <= 1
  {
    var es := Entries(Distinct(xs), Tally(xs));
    assert forall i, j :: 0 <= i < j < |es| ==> es[i].term != es[j].term;
    forall e ensures multiset(es)[e] <= 1 {
      DistinctCountsOnce(es, e);
    }
  }

  /** The pairs of `most_common` each occur once. */
  lemma MostCommonOnce(xs: seq<string>, n: nat)
    ensures NoDup(MostCommon(xs, n))
  {
    var es := Entries(Distinct(xs), Tally(xs));
    var t := SortDesc(es, CountKey);
    EntriesOnce(xs);
    PrefixMultiset(t, Min(n, |t|));
    assert MostCommon(xs, n) == t[..Min(n, |t|)];
    NoDupOfOnce(MostCommon(xs, n));
  }

  /** Each term of `top_keywords` appears once. */
  lemma MostCommonDistinct(xs: seq<string>, n: nat)
    ensures NoDup(Terms(MostCommon(xs, n)))
  {
    var r := MostCommon(xs, n);
    MostCommonOnce(xs, n);
    MostCommonValues(xs, n);
    forall i, j | 0 <= i < j < |r| ensures Terms(r)[i] != Terms(r)[j] {
      assert r[i] in r && r[j] in r;
    }
  }

  // ---------------------------------------------------------------------
  // analyze_keywords

  /** A scalar JSON value as a product dictionary may hold it; `Missing` is an absent key. */
  datatype Field = Missing | Null | Str(s: string) | Number(x: real)

  /** Python truthiness of such a value. */
  predicate Truthy(f: Field) {
    match f
    case Str(s) => s != ""
    case Number(x) => x != 0.0
    case _ => false
  }

  /** The parts of a product dictionary that the counting reads. */
  datatype Listing = Listing(price: Field, brand: Option<string>)

  predicate HasBrand(p: Listing) { p.brand.Some? && p.brand.value != "" }

  /** `[product.get('brand', '').lower() for product in products if product.get('brand')]`. */
  function Brands(products: seq<Listing>): seq<string>
    decreases |products|
  {
    if products == [] then []
    else (if HasBrand(products[0]) then [Lower(products[0].brand.value)] else []) + Brands(products[1..])
  }

  /** Whether a product has a brand that lower-cases to `b`. */
  function BrandIs(b: string): Listing -> bool {
    p => HasBrand(p) && Lower(p.brand.value) == b
  }

  /** Each product with a brand adds its lower-cased brand once: `b` is counted as often as products carry it. */
  lemma {:induction false} BrandCount(products: seq<Listing>, b: string)
    ensures multiset(Brands(products))[b] == |Filter(products, BrandIs(b))|
    decreases |products|
  {
    if products != [] {
      BrandCount(products[1..], b);
      var p := products[0];
      var head := if HasBrand(p) then [Lower(p.brand.value)] else [];
      assert Brands(products) == head + Brands(products[1..]);
      assert multiset(head)[b] == if BrandIs(b)(p) then 1 else 0;
    }
  }

  /**
   * Every brand counted is the lower-cased brand of a product that has one,
   * and each brand is counted exactly as often as products carry it.
   */
  lemma {:induction false} BrandsFromProducts(products: seq<Listing>)
    ensures forall b :: b in Brands(products) ==>
              IsLower(b) && exists j :: 0 <= j < |products| && HasBrand(products[j]) && b == Lower(products[j].brand.value)
    ensures forall b :: multiset(Brands(products))[b] == |Filter(products, BrandIs(b))|
    decreases |products|
  {
    forall b ensures multiset(Brands(products))[b] == |Filter(products, BrandIs(b))| {
      BrandCount(products, b);
    }
    if products != [] {
      BrandsFromProducts(products[1..]);
      var p := products[0];
      if HasBrand(p) {
        LowerIsLower(p.brand.value);
      }
      forall b | b in Brands(products[1..])
        ensures exists j :: 0 <= j < |products| && HasBrand(products[j]) && b == Lower(products[j].brand.value)
      {
        var j :| 0 <= j < |products[1..]| && HasBrand(products[1..][j]) && b == Lower(products[1..][j].brand.value);
        assert products[j + 1] == products[1..][j];
      }
    }
  }

  /** `top_brands`: at most five lower-cased brands, each taken from a product that has a brand. */
  lemma TopBrandsFromProducts(products: seq<Listing>)
    ensures |MostCommon(Brands(products), 5)| <= 5
    ensures forall e :: e in MostCommon(Brands(products), 5) ==>
              IsLower(e.term) && exists j :: 0 <= j < |products| && HasBrand(products[j]) && e.term == Lower(products[j].brand.value)
  {
    MostCommonSorted(Brands(products), 5);
    MostCommonValues(Brands(products), 5);
    BrandsFromProducts(products);
  }

  /** The parsed prices of the products whose `price` is truthy. */
  function Prices(products: seq<Listing>, parse: Field -> real): seq<real>
    decreases |products|
  {
    if products == [] then []
    else (if Truthy(products[0].price) then [parse(products[0].price)] else []) + Prices(products[1..], parse)
  }

  function Sum(xs: seq<real>): real
    decreases |xs|
  {
    if xs == [] then 0.0 else xs[0] + Sum(xs[1..])
  }

  lemma {:induction false} PricesEmpty(products: seq<Listing>, parse: Field -> real)
    ensures Prices(products, parse) == [] <==> forall i :: 0 <= i < |products| ==> !Truthy(products[i].price)
    decreases |products|
  {
    if products != [] {
      PricesEmpty(products[1..], parse);
      assert forall i :: 1 <= i < |products| ==> products[i] == products[1..][i - 1];
    }
  }

  /** `sum(prices) / len(prices) if prices else None`: absent exactly when no product has a truthy price. */
  function AveragePrice(products: seq<Listing>, parse: Field -> real): (r: Option<real>)
    ensures r.None? <==> forall i :: 0 <= i < |products| ==> !Truthy(products[i].price)
  {
    PricesEmpty(products, parse);
    var xs := Prices(products, parse);
    if xs == [] then None else Some(Sum(xs) / |xs| as real)
  }

  // ---------------------------------------------------------------------
  // get_keyword_insights

  const DescriptorTerms: set<string> := {"best", "premium", "cheap", "affordable", "luxury", "wireless", "smart"}
  const SizeTerms: set<string> := {"small", "large", "medium", "mini", "compact", "tall", "wide"}
  const MaterialTerms: set<string> := {"leather", "plastic", "metal", "cotton", "wood", "glass", "steel"}

  /** `query.lower().split()`. */
  function QueryTerms(query: string): seq<string> {
    Words(Lower(query))
  }

  function NotAKeyword(top: seq<KeywordCount>): string -> bool {
    t => t !in Terms(top)
  }

  function InVocabulary(vocabulary: set<string>): string -> bool {
    t => t in vocabulary
  }

  /** `[term for term in query_terms if term not in dict(top_keywords)]`. */
  function MissingTerms(top: seq<KeywordCount>, query: string): seq<string> {
    Filter(QueryTerms(query), NotAKeyword(top))
  }

  /**
   * The missing terms are exactly the query terms that are not keys of
   * `top_keywords`, in query order, each as often as it occurs in the query;
   * every one is a lower-case word.
   */
  lemma MissingTermsSpec(top: seq<KeywordCount>, query: string)
    ensures forall i :: 0 <= i < |MissingTerms(top, query)| ==>
              MissingTerms(top, query)[i] !in Terms(top) && IsWord(MissingTerms(top, query)[i])
    ensures IsSubsequence(MissingTerms(top, query), QueryTerms(query))
    ensures forall t :: multiset(MissingTerms(top, query))[t] ==
              if t in Terms(top) then 0 else multiset(QueryTerms(query))[t]
  {
    FilterSpec(QueryTerms(query), NotAKeyword(top));
    MissingTermsWords(top, query);
  }

  lemma MissingTermsWords(top: seq<KeywordCount>, query: string)
    ensures forall i :: 0 <= i < |MissingTerms(top, query)| ==> IsWord(MissingTerms(top, query)[i])
  {
    var q := QueryTerms(query);
    var m := MissingTerms(top, query);
    FilterCounts(q, NotAKeyword(top));
    forall i | 0 <= i < |m| ensures IsWord(m[i]) {
      assert m[i] in multiset(m);
      assert m[i] in q;
    }
  }

  /** `[term for term, _ in top_keywords if term in vocabulary]`. */
  function FoundTerms(top: seq<KeywordCount>, vocabulary: set<string>): seq<string> {
    Filter(Terms(top), InVocabulary(vocabulary))
  }

  /** The terms found are the `top_keywords` terms in the vocabulary, in frequency order. */
  lemma FoundTermsSpec(top: seq<KeywordCount>, vocabulary: set<string>)
    ensures forall i :: 0 <= i < |FoundTerms(top, vocabulary)| ==> FoundTerms(top, vocabulary)[i] in vocabulary
    ensures IsSubsequence(FoundTerms(top, vocabulary), Terms(top))
    ensures forall t :: multiset(FoundTerms(top, vocabulary))[t] ==
              if t in vocabulary then multiset(Terms(top))[t] else 0
  {
    FilterSpec(Terms(top), InVocabulary(vocabulary));
  }

  datatype InsightKind = MissingQueryTerms | Descriptors | Sizes | Materials

  /** One appended insight: its kind and the terms it lists. */
  datatype Insight = Insight(kind: InsightKind, terms: seq<string>)

  function Rank(k: InsightKind): nat {
    match k
    case MissingQueryTerms => 0
    case Descriptors => 1
    case Sizes => 2
    case Materials => 3
  }

  /** The term list that an insight of kind `k` would carry. */
  function Pick(k: InsightKind, missing: seq<string>, descriptors: seq<string>,
                sizes: seq<string>, materials: seq<string>): seq<string> {
    match k
    case MissingQueryTerms => missing
    case Descriptors => descriptors
    case Sizes => sizes
    case Materials => materials
  }

  function Kinds(r: seq<Insight>): seq<InsightKind> {
    seq(|r|, i requires 0 <= i < |r| => r[i].kind)
  }

  function IfAny(k: InsightKind, terms: seq<string>): seq<Insight> {
    if terms != [] then [Insight(k, terms)] else []
  }

  /** The four insight kinds in the order their checks are made. */
  const InsightOrder: seq<InsightKind> := [MissingQueryTerms, Descriptors, Sizes, Materials]

  /**
   * The checks for `kinds` made in turn: each appends one insight carrying its
   * list when that list is non-empty.
   */
  function Assemble(kinds: seq<InsightKind>, missing: seq<string>, descriptors: seq<string>,
                    sizes: seq<string>, materials: seq<string>): seq<Insight>
    decreases |kinds|
  {
    if kinds == [] then []
    else IfAny(kinds[0], Pick(kinds[0], missing, descriptors, sizes, materials))
         + Assemble(kinds[1..], missing, descriptors, sizes, materials)
  }

  predicate RanksIncrease(kinds: seq<InsightKind>) {
    forall i, j :: 0 <= i < j < |kinds| ==> Rank(kinds[i]) < Rank(kinds[j])
  }

  /** Every insight is of a checked kind and carries that kind's non-empty list. */
  lemma {:induction false} AssembleEntries(kinds: seq<InsightKind>, missing: seq<string>, descriptors: seq<string>,
                                           sizes: seq<string>, materials: seq<string>)
    ensures |Assemble(kinds, missing, descriptors, sizes, materials)| <= |kinds|
    ensures forall e :: e in Assemble(kinds, missing, descriptors, sizes, materials) ==>
              e.kind in kinds && e.terms == Pick(e.kind, missing, descriptors, sizes, materials) && e.terms != []
    decreases |kinds|
  {
    if kinds != [] {
      AssembleEntries(kinds[1..], missing, descriptors, sizes, materials);
    }
  }

  lemma KindsCons(x: Insight, rest: seq<Insight>)
    ensures Kinds([x] + rest) == [x.kind] + Kinds(rest)
  {
  }

  /** There is an insight of kind `k` exactly when `k` is checked and its list is non-empty. */
  lemma {:induction false} AssembleKinds(kinds: seq<InsightKind>, missing: seq<string>, descriptors: seq<string>,
                                         sizes: seq<string>, materials: seq<string>)
    ensures forall k :: k in Kinds(Assemble(kinds, missing, descriptors, sizes, materials)) <==>
              k in kinds && Pick(k, missing, descriptors, sizes, materials) != []
    decreases |kinds|
  {
    if kinds != [] {
      var terms := Pick(kinds[0], missing, descriptors, sizes, materials);
      var rest := Assemble(kinds[1..], missing, descriptors, sizes, materials);
      AssembleKinds(kinds[1..], missing, descriptors, sizes, materials);
      assert kinds == [kinds[0]] + kinds[1..];
      if terms != [] {
        assert Assemble(kinds, missing, descriptors, sizes, materials) == [Insight(kinds[0], terms)] + rest;
        KindsCons(Insight(kinds[0], terms), rest);
      } else {
        assert Assemble(kinds, missing, descriptors, sizes, materials) == rest;
      }
    }
  }

  /** Checking kinds in increasing rank yields insights in increasing rank. */
  lemma {:induction false} AssembleOrder(kinds: seq<InsightKind>, missing: seq<string>, descriptors: seq<string>,
                                         sizes: seq<string>, materials: seq<string>)
    requires RanksIncrease(kinds)
    ensures RanksIncrease(Kinds(Assemble(kinds, missing, descriptors, sizes, materials)))
    decreases |kinds|
  {
    if kinds != [] {
      var terms := Pick(kinds[0], missing, descriptors, sizes, materials);
      var rest := Assemble(kinds[1..], missing, descriptors, sizes, materials);
      assert RanksIncrease(kinds[1..]) by {
        forall i, j | 0 <= i < j < |kinds[1..]| ensures Rank(kinds[1..][i]) < Rank(kinds[1..][j]) {
          assert kinds[1..][i] == kinds[i + 1] && kinds[1..][j] == kinds[j + 1];
        }
      }
      AssembleOrder(kinds[1..], missing, descriptors, sizes, materials);
      if terms != [] {
        AssembleKinds(kinds[1..], missing, descriptors, sizes, materials);
        var x := Insight(kinds[0], terms);
        assert Assemble(kinds, missing, descriptors, sizes, materials) == [x] + rest;
        KindsCons(x, rest);
        var ks := Kinds(rest);
        forall k | k in ks ensures Rank(kinds[0]) < Rank(k) {
          var m :| 0 <= m < |kinds[1..]| && kinds[1..][m] == k;
          assert kinds[m + 1] == k;
        }
        ConsIncreases(kinds[0], ks);
      } else {
        assert Assemble(kinds, missing, descriptors, sizes, materials) == rest;
      }
    }
  }

  lemma ConsIncreases(k: InsightKind, ks: seq<InsightKind>)
    requires RanksIncrease(ks)
    requires forall q :: q in ks ==> Rank(k) < Rank(q)
    ensures RanksIncrease([k] + ks)
  {
    forall i, j | 0 <= i < j < |[k] + ks| ensures Rank(([k] + ks)[i]) < Rank(([k] + ks)[j]) {
      if i > 0 {
        assert ([k] + ks)[i] == ks[i - 1];
      }
      assert ([k] + ks)[j] == ks[j - 1];
    }
  }

  /** The insights of `get_keyword_insights` for these keywords and this query. */
  function Insights(top: seq<KeywordCount>, query: string): seq<Insight> {
    Assemble(InsightOrder, MissingTerms(top, query), FoundTerms(top, DescriptorTerms),
             FoundTerms(top, SizeTerms), FoundTerms(top, MaterialTerms))
  }

  /**
   * At most one insight of each kind, in the order missing terms, descriptors,
   * sizes, materials; an insight of a kind exactly when its term list is
   * non-empty, and carrying that list.
   */
  lemma InsightsSpec(top: seq<KeywordCount>, query: string)
    ensures |Insights(top, query)| <= 4
    ensures RanksIncrease(Kinds(Insights(top, query)))
    ensures forall e :: e in Insights(top, query) ==>
              e.terms != [] &&
              e.terms == Pick(e.kind, MissingTerms(top, query), FoundTerms(top, DescriptorTerms),
                              FoundTerms(top, SizeTerms), FoundTerms(top, MaterialTerms))
    ensures forall k :: k in Kinds(Insights(top, query)) <==>
              Pick(k, MissingTerms(top, query), FoundTerms(top, DescriptorTerms),
                   FoundTerms(top, SizeTerms), FoundTerms(top, MaterialTerms)) != []
  {
    var m, d, s, t := MissingTerms(top, query), FoundTerms(top, DescriptorTerms),
                      FoundTerms(top, SizeTerms), FoundTerms(top, MaterialTerms);
    EveryKindChecked();
    AssembleEntries(InsightOrder, m, d, s, t);
    AssembleKinds(InsightOrder, m, d, s, t);
    AssembleOrder(InsightOrder, m, d, s, t);
  }

  lemma EveryKindChecked()
    ensures forall k :: k in InsightOrder
    ensures RanksIncrease(InsightOrder)
  {
    forall k ensures k in InsightOrder {
      match k
      case MissingQueryTerms => assert InsightOrder[0] == k;
      case Descriptors => assert InsightOrder[1] == k;
      case Sizes => assert InsightOrder[2] == k;
      case Materials => assert InsightOrder[3] == k;
    }
  }

  /** The sentence appended for an insight. */
  function InsightText(i: Insight): string {
    var prefix := match i.kind
      case MissingQueryTerms => "Query terms missing from top results: "
      case Descriptors => "Common product descriptors: "
      case Sizes => "Popular size terms: "
      case Materials => "Trending materials: ";
    prefix + Join(i.terms, ", ")
  }

  function Texts(r: seq<Insight>): seq<string> {
    seq(|r|, i requires 0 <= i < |r| => InsightText(r[i]))
  }

  /** The four checks of `get_keyword_insights` written out in order. */
  lemma InsightsUnfold(m: seq<string>, d: seq<string>, s: seq<string>, t: seq<string>)
    ensures Assemble(InsightOrder, m, d, s, t)
         == IfAny(MissingQueryTerms, m) + IfAny(Descriptors, d) + IfAny(Sizes, s) + IfAny(Materials, t)
  {
    assert InsightOrder[1..][1..][1..][1..] == [];
  }

  /** Appending one more sentence: the sentence of one more insight. */
  method AppendIf(insights: seq<string>, ghost built: seq<Insight>, k: InsightKind, terms: seq<string>)
    returns (out: seq<string>)
    requires insights == Texts(built)
    ensures out == Texts(built + IfAny(k, terms))
  {
    out := insights;
    if terms != [] {
      out := insights + [InsightText(Insight(k, terms))];
      assert built + IfAny(k, terms) == built + [Insight(k, terms)];
    }
  }

  /** `get_keyword_insights`: builds the sentences by successive appends. */
  method GetKeywordInsights(top: seq<KeywordCount>, query: string) returns (insights: seq<string>)
    ensures insights == Texts(Insights(top, query))
  {
    var missing := MissingTerms(top, query);
    var descriptors := FoundTerms(top, DescriptorTerms);
    var sizes := FoundTerms(top, SizeTerms);
    var materials := FoundTerms(top, MaterialTerms);
    insights := AppendIf([], [], MissingQueryTerms, missing);
    ghost var built := IfAny(MissingQueryTerms, missing);
    insights := AppendIf(insights, built, Descriptors, descriptors);
    built := built + IfAny(Descriptors, descriptors);
    insights := AppendIf(insights, built, Sizes, sizes);
    built := built + IfAny(Sizes, sizes);
    insights := AppendIf(insights, built, Materials, materials);
    built := built + IfAny(Materials, materials);
    InsightsUnfold(missing, descriptors, sizes, materials);
    assert [] + IfAny(MissingQueryTerms, missing) == IfAny(MissingQueryTerms, missing);
  }

  /** The dictionary `analyze_keywords` returns. */
  datatype Analysis = Analysis(
    totalProducts: nat,
    topKeywords: seq<KeywordCount>,
    averagePrice: Option<real>,
    topBrands: seq<KeywordCount>,
    keywordInsights: seq<string>,
    query: string)

  /**
   * `analyze_keywords`, given the tokens that `word_tokenize` yields for the
   * cleaned text of all titles and descriptions.
   */
  method AnalyzeKeywords(products: seq<Listing>, tokens: seq<string>, stopWords: set<string>,
                         query: string, parse: Field -> real) returns (a: Analysis)
    ensures a.totalProducts == |products| && a.query == query
    ensures a.topKeywords == MostCommon(Preprocess(tokens, stopWords), 20)
    ensures a.averagePrice.None? <==> forall i :: 0 <= i < |products| ==> !Truthy(products[i].price)
    ensures a.averagePrice == AveragePrice(products, parse)
    ensures a.topBrands == MostCommon(Brands(products), 5)
    ensures a.keywordInsights == Texts(Insights(a.topKeywords, query))
  {
    var filtered := Preprocess(tokens, stopWords);
    var topKeywords := MostCommon(filtered, 20);
    var averagePrice := AveragePrice(products, parse);
    var topBrands := MostCommon(Brands(products), 5);
    var insights := GetKeywordInsights(topKeywords, query);
    a := Analysis(|products|, topKeywords, averagePrice, topBrands, insights, query);
  }
}
