/** Taste-based recommendation (lib/recommendation.ts): every catalog product is
    scored by its Euclidean distance to the customer's taste preference, the
    scored copies are sorted by ascending score with a stable sort, and the
    first three are returned.

    The source scores with Math.sqrt of the sum of squared axis differences.
    Here a score is that integer sum itself; RootOrder shows that comparing
    square roots gives the same answer as comparing the sums, so the ranking
    is the same. */
module Recommendation {
  import opened Menu

  /** A customer's stated taste: the same three axes as a product. */
  type UserPreferences = Attributes

  /** How many recommendations are returned at most. */
  const TopN: nat := 3

  function Min(a: int, b: int): int {
    if a <= b then a else b
  }

  function Square(x: int): nat {
    x * x
  }

  /** The square of calculateDistance: the sum of the squared differences of
      the three axes. */
  function SquaredDistance(pref: UserPreferences, input: UserPreferences): nat {
    Square(pref.sweet - input.sweet)
    + Square(pref.creamy - input.creamy)
    + Square(pref.fruity - input.fruity)
  }

  // ---------------------------------------------------------------------------
  // The distance
  // ---------------------------------------------------------------------------

  /** Swapping the two profiles does not change the distance. */
  lemma DistanceSymmetric(a: UserPreferences, b: UserPreferences)
    ensures SquaredDistance(a, b) == SquaredDistance(b, a)
  {
    assert Square(a.sweet - b.sweet) == Square(b.sweet - a.sweet);
    assert Square(a.creamy - b.creamy) == Square(b.creamy - a.creamy);
    assert Square(a.fruity - b.fruity) == Square(b.fruity - a.fruity);
  }

  lemma SquareZero(x: int)
    ensures Square(x) == 0 <==> x == 0
  {
    if x > 0 {
      assert Square(x) >= x;
    } else if x < 0 {
      assert Square(x) == (-x) * (-x) >= -x;
    }
  }

  /** The distance is zero exactly when all three axes agree. */
  lemma DistanceZeroIff(a: UserPreferences, b: UserPreferences)
    ensures SquaredDistance(a, b) == 0 <==> a == b
  {
    SquareZero(a.sweet - b.sweet);
    SquareZero(a.creamy - b.creamy);
    SquareZero(a.fruity - b.fruity);
  }

  /** d is the exact non-negative square root of the integer sum sq. Math.sqrt
      returns a correctly rounded root instead; the order facts below carry
      over to it because rounded square root is monotone and, for sums of at
      most 300 (three axes in 0..10, far below 2^51), distinct sums round to
      distinct doubles. */
  ghost predicate IsRoot(d: real, sq: int) {
    d >= 0.0 && d * d == sq as real
  }

  lemma RootStrict(d1: real, sq1: int, d2: real, sq2: int)
    requires IsRoot(d1, sq1) && IsRoot(d2, sq2)
    requires d1 < d2
    ensures sq1 < sq2
  {
    var gap := d2 - d1;
    assert d2 * d2 == (d1 + gap) * (d1 + gap) == d1 * d1 + 2.0 * d1 * gap + gap * gap;
    assert d1 * gap >= 0.0;
    assert gap * gap > 0.0;
  }

  /** The real Euclidean distances compare exactly as their squares do, so the
      comparator `a.score - b.score` has the same sign on either scoring and
      sorting by the integer sums yields the source's order. */
  lemma RootOrder(d1: real, sq1: int, d2: real, sq2: int)
    requires IsRoot(d1, sq1) && IsRoot(d2, sq2)
    ensures d1 < d2 <==> sq1 < sq2
    ensures d1 == d2 <==> sq1 == sq2
  {
    if d1 < d2 {
      RootStrict(d1, sq1, d2, sq2);
    } else if d2 < d1 {
      RootStrict(d2, sq2, d1, sq1);
    }
  }

  // ---------------------------------------------------------------------------
  // Scored copies
  // ---------------------------------------------------------------------------

  /** `{ ...product, score: distance }`: the product with its score attached. */
  datatype ScoredProduct = ScoredProduct(product: Product, score: nat)

  function ScoreOf(pref: UserPreferences, p: Product): ScoredProduct {
    ScoredProduct(p, SquaredDistance(pref, p.attributes))
  }

  /** `currentProducts.map(...)`: one fresh scored copy per product, in catalog order. */
  function ScoreAll(pref: UserPreferences, ps: seq<Product>): seq<ScoredProduct> {
    seq(|ps|, i requires 0 <= i < |ps| => ScoreOf(pref, ps[i]))
  }

  // ---------------------------------------------------------------------------
  // Stable sort by ascending score
  // ---------------------------------------------------------------------------

  predicate SortedByScore(s: seq<ScoredProduct>) {
    forall i, j :: 0 <= i < j < |s| ==> s[i].score <= s[j].score
  }

  /** The entries of s with score k, in the order they appear in s. */
  function WithScore(s: seq<ScoredProduct>, k: int): seq<ScoredProduct> {
    if s == [] then []
    else (if s[0].score == k then [s[0]] else []) + WithScore(s[1..], k)
  }

  /** Places x before the first entry whose score is not smaller than its own,
      so x stays ahead of entries with an equal score. */
  function InsertByScore(x: ScoredProduct, s: seq<ScoredProduct>): (r: seq<ScoredProduct>)
    ensures multiset(r) == multiset(s) + multiset{x}
    ensures |r| == |s| + 1
  {
    if s == [] || x.score <= s[0].score then [x] + s
    else
      assert s == [s[0]] + s[1..];
      [s[0]] + InsertByScore(x, s[1..])
  }

  /** `.sort((a, b) => a.score - b.score)`, which ECMAScript requires to be
      stable: an insertion sort that keeps equal scores in input order. */
  function StableSort(s: seq<ScoredProduct>): (r: seq<ScoredProduct>)
    ensures multiset(r) == multiset(s)
    ensures |r| == |s|
  {
    if s == [] then []
    else
      assert s == [s[0]] + s[1..];
      InsertByScore(s[0], StableSort(s[1..]))
  }

  lemma ConsSorted(h: ScoredProduct, rest: seq<ScoredProduct>)
    requires SortedByScore(rest)
    requires forall e :: e in rest ==> h.score <= e.score
    ensures SortedByScore([h] + rest)
  {
    forall i, j | 0 <= i < j < |rest| + 1
      ensures ([h] + rest)[i].score <= ([h] + rest)[j].score
    {
      assert ([h] + rest)[j] == rest[j - 1];
      assert rest[j - 1] in rest;
    }
  }

  /** Inserting into a sorted sequence keeps it sorted. */
  lemma {:induction false} InsertSorted(x: ScoredProduct, s: seq<ScoredProduct>)
    requires SortedByScore(s)
    ensures SortedByScore(InsertByScore(x, s))
  {
    if s == [] || x.score <= s[0].score {
      forall e | e in s
        ensures x.score <= e.score
      {
        var k :| 0 <= k < |s| && s[k] == e;
        assert s[0].score <= s[k].score;
      }
      ConsSorted(x, s);
    } else {
      var rest := InsertByScore(x, s[1..]);
      InsertSorted(x, s[1..]);
      forall e | e in rest
        ensures s[0].score <= e.score
      {
        assert e in multiset(rest);
        if e != x {
          assert e in multiset(s[1..]);
          var k :| 0 <= k < |s[1..]| && s[1..][k] == e;
          assert s[k + 1] == e;
        }
      }
      ConsSorted(s[0], rest);
    }
  }

  /** The sort's result is in ascending score order. */
  lemma {:induction false} StableSortSorted(s: seq<ScoredProduct>)
    ensures SortedByScore(StableSort(s))
  {
    if s != [] {
      StableSortSorted(s[1..]);
      InsertSorted(s[0], StableSort(s[1..]));
    }
  }

  lemma {:induction false} InsertKeepsTies(x: ScoredProduct, s: seq<ScoredProduct>, k: int)
    ensures WithScore(InsertByScore(x, s), k) == (if x.score == k then [x] else []) + WithScore(s, k)
  {
    if s == [] || x.score <= s[0].score {
      assert ([x] + s)[1..] == s;
    } else {
      var rest := InsertByScore(x, s[1..]);
      assert ([s[0]] + rest)[1..] == rest;
      InsertKeepsTies(x, s[1..], k);
    }
  }

  /** Stability: for every score, the entries with that score appear in the
      sorted result in exactly their input order. */
  lemma {:induction false} SortIsStable(s: seq<ScoredProduct>, k: int)
    ensures WithScore(StableSort(s), k) == WithScore(s, k)
  {
    if s != [] {
      SortIsStable(s[1..], k);
      InsertKeepsTies(s[0], StableSort(s[1..]), k);
    }
  }

  lemma {:induction false} WithScoreMember(s: seq<ScoredProduct>, k: int, e: ScoredProduct)
    requires e in WithScore(s, k)
    ensures e in s && e.score == k
  {
    if s != [] {
      if e != s[0] || s[0].score != k {
        WithScoreMember(s[1..], k, e);
      }
    }
  }

  lemma WithScoreHead(s: seq<ScoredProduct>)
    requires s != []
    ensures WithScore(s, s[0].score) != []
  {
  }

  /** Sortedness together with the per-score order pins a sequence down: two
      sorted sequences that list every score's entries in the same order are
      equal. So any stable ascending sort of the scored catalog gives exactly
      StableSort's result. */
  lemma {:induction false} SortedStableUnique(a: seq<ScoredProduct>, b: seq<ScoredProduct>)
    requires SortedByScore(a) && SortedByScore(b)
    requires forall k :: WithScore(a, k) == WithScore(b, k)
    ensures a == b
    decreases |a|
  {
    if a == [] || b == [] {
      if a != [] {
        WithScoreHead(a);
        assert false;
      } else if b != [] {
        WithScoreHead(b);
        assert false;
      }
    } else {
      var m, n := a[0].score, b[0].score;
      assert WithScore(a, m)[0] == a[0];
      WithScoreMember(b, m, WithScore(b, m)[0]);
      assert n <= m;
      assert WithScore(b, n)[0] == b[0];
      WithScoreMember(a, n, WithScore(a, n)[0]);
      assert m <= n;
      assert a[0] == b[0];
      forall k
        ensures WithScore(a[1..], k) == WithScore(b[1..], k)
      {
        var h := if a[0].score == k then [a[0]] else [];
        assert WithScore(a, k) == h + WithScore(a[1..], k);
        assert WithScore(b, k) == h + WithScore(b[1..], k);
        assert WithScore(a[1..], k) == WithScore(a, k)[|h|..];
      }
      SortedStableUnique(a[1..], b[1..]);
      assert a == [a[0]] + a[1..] && b == [b[0]] + b[1..];
    }
  }

  lemma {:induction false} WithScorePrefix(s: seq<ScoredProduct>, n: nat, k: int)
    requires n <= |s|
    ensures WithScore(s[..n], k) <= WithScore(s, k)
  {
    if n > 0 {
      assert s[..n][1..] == s[1..][..n - 1];
      WithScorePrefix(s[1..], n - 1, k);
    }
  }

  // ---------------------------------------------------------------------------
  // getRecommendations
  // ---------------------------------------------------------------------------

  /** The whole catalog, scored and sorted by ascending score. */
  function Ranking(preferences: UserPreferences, currentProducts: seq<Product>): seq<ScoredProduct> {
    StableSort(ScoreAll(preferences, currentProducts))
  }

  /** getRecommendations: the first three entries of the ranking (all of them
      when the catalog is smaller; none for an empty catalog). */
  function GetRecommendations(preferences: UserPreferences, currentProducts: seq<Product>): (r: seq<ScoredProduct>)
    ensures |r| == Min(TopN, |currentProducts|)
    ensures SortedByScore(r)
    ensures forall i :: 0 <= i < |r| ==>
              r[i].product in currentProducts
              && r[i].score == SquaredDistance(preferences, r[i].product.attributes)
  {
    var ranked := Ranking(preferences, currentProducts);
    RankingEntries(preferences, currentProducts);
    StableSortSorted(ScoreAll(preferences, currentProducts));
    ranked[..Min(TopN, |ranked|)]
  }

  /** Every entry of the ranking is a catalog product carrying its own distance
      to the preference. */
  lemma RankingEntries(preferences: UserPreferences, currentProducts: seq<Product>)
    ensures forall e :: e in Ranking(preferences, currentProducts) ==>
              e.product in currentProducts
              && e.score == SquaredDistance(preferences, e.product.attributes)
  {
    var scored := ScoreAll(preferences, currentProducts);
    forall e | e in Ranking(preferences, currentProducts)
      ensures e.product in currentProducts
      ensures e.score == SquaredDistance(preferences, e.product.attributes)
    {
      assert e in multiset(Ranking(preferences, currentProducts));
      assert e in multiset(scored);
      var i :| 0 <= i < |scored| && scored[i] == e;
      assert currentProducts[i] == e.product;
    }
  }

  /** The result is a prefix of a stable ascending sort: whichever sort keeps
      equal scores in catalog order, the recommendations are its first three
      entries. */
  lemma RecommendationsFollowAnyStableSort(preferences: UserPreferences, currentProducts: seq<Product>,
                                           ranked: seq<ScoredProduct>)
    requires SortedByScore(ranked)
    requires forall k :: WithScore(ranked, k) == WithScore(ScoreAll(preferences, currentProducts), k)
    ensures GetRecommendations(preferences, currentProducts) == ranked[..Min(TopN, |ranked|)]
  {
    var mine := Ranking(preferences, currentProducts);
    forall k
      ensures WithScore(mine, k) == WithScore(ranked, k)
    {
      SortIsStable(ScoreAll(preferences, currentProducts), k);
    }
    StableSortSorted(ScoreAll(preferences, currentProducts));
    SortedStableUnique(mine, ranked);
  }

  /** No product left out scores strictly better than one that was returned. */
  lemma OmittedAreNoCloser(preferences: UserPreferences, currentProducts: seq<Product>, p: Product)
    requires p in currentProducts
    requires ScoreOf(preferences, p) !in GetRecommendations(preferences, currentProducts)
    ensures forall i :: 0 <= i < |GetRecommendations(preferences, currentProducts)| ==>
              GetRecommendations(preferences, currentProducts)[i].score <= SquaredDistance(preferences, p.attributes)
  {
    var scored := ScoreAll(preferences, currentProducts);
    var ranked := Ranking(preferences, currentProducts);
    var r := GetRecommendations(preferences, currentProducts);
    StableSortSorted(scored);
    var i0 :| 0 <= i0 < |currentProducts| && currentProducts[i0] == p;
    assert scored[i0] == ScoreOf(preferences, p);
    assert ScoreOf(preferences, p) in multiset(ranked);
    var j :| 0 <= j < |ranked| && ranked[j] == ScoreOf(preferences, p);
    assert r == ranked[..|r|];
    assert j >= |r|;
  }

  /** Ties keep catalog order: for each score, the returned entries with that
      score are the first ones with that score in the catalog, in catalog order. */
  lemma RecommendationsKeepCatalogOrder(preferences: UserPreferences, currentProducts: seq<Product>, k: int)
    ensures WithScore(GetRecommendations(preferences, currentProducts), k)
            <= WithScore(ScoreAll(preferences, currentProducts), k)
  {
    var ranked := Ranking(preferences, currentProducts);
    WithScorePrefix(ranked, Min(TopN, |ranked|), k);
    SortIsStable(ScoreAll(preferences, currentProducts), k);
  }

  /** In the ranking, a product whose profile equals the preference comes before
      every product whose profile differs. */
  lemma ExactMatchRanksFirst(preferences: UserPreferences, currentProducts: seq<Product>)
    ensures forall i, j :: 0 <= i < |Ranking(preferences, currentProducts)|
              && 0 <= j < |Ranking(preferences, currentProducts)|
              && Ranking(preferences, currentProducts)[j].product.attributes == preferences
              && Ranking(preferences, currentProducts)[i].product.attributes != preferences
              ==> j < i
  {
    var ranked := Ranking(preferences, currentProducts);
    RankingEntries(preferences, currentProducts);
    StableSortSorted(ScoreAll(preferences, currentProducts));
    forall i, j | 0 <= i < |ranked| && 0 <= j < |ranked|
        && ranked[j].product.attributes == preferences
        && ranked[i].product.attributes != preferences
      ensures j < i
    {
      assert ranked[i] in ranked && ranked[j] in ranked;
      DistanceZeroIff(preferences, ranked[i].product.attributes);
      DistanceZeroIff(preferences, ranked[j].product.attributes);
    }
  }

  /** When some catalog product matches the preference exactly, the first
      recommendation is such a product, with score 0. */
  lemma BestMatchLeads(preferences: UserPreferences, currentProducts: seq<Product>, p: Product)
    requires p in currentProducts && p.attributes == preferences
    ensures |GetRecommendations(preferences, currentProducts)| > 0
    ensures GetRecommendations(preferences, currentProducts)[0].score == 0
    ensures GetRecommendations(preferences, currentProducts)[0].product.attributes == preferences
  {
    var r := GetRecommendations(preferences, currentProducts);
    DistanceZeroIff(preferences, p.attributes);
    if ScoreOf(preferences, p) in r {
      var i :| 0 <= i < |r| && r[i] == ScoreOf(preferences, p);
      assert r[0].score <= r[i].score;
    } else {
      OmittedAreNoCloser(preferences, currentProducts, p);
    }
    DistanceZeroIff(preferences, r[0].product.attributes);
  }

  // ---------------------------------------------------------------------------
  // Over the shop's own catalog
  // ---------------------------------------------------------------------------

  /** Over the six-item catalog every preference gets exactly three recommendations. */
  lemma CatalogGivesThree(preferences: UserPreferences)
    ensures |GetRecommendations(preferences, Products)| == 3
  {
    CatalogIds();
  }

  /** The preference (8, 9, 0) is the Royal Golden Milk Tea's own profile, so
      it is recommended first with score 0. */
  lemma RoyalProfileRanksRoyalFirst()
    ensures GetRecommendations(Attributes(8, 9, 0), Products)[0].product.id == "1"
    ensures GetRecommendations(Attributes(8, 9, 0), Products)[0].score == 0
  {
    CatalogGivesThree(Attributes(8, 9, 0));
    assert Products[0] in Products;
    BestMatchLeads(Attributes(8, 9, 0), Products, Products[0]);
    OnlyRoyalMatches();
  }
}
