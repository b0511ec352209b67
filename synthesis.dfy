/** The demo deal generator behind the search endpoint: one deal per entry of
    a fixed platform table, priced from a base price, scored, and returned in
    descending score order. The clock, `str.title` and the logarithm are
    parameters. */
module Synthesis {
  import opened Deals
  import opened Scoring
  import opened Ranking

  const BasePrice: real := 999.0
  const PriceFloor: real := 99.0
  /** The original price is the price times this factor, a 20% discount. */
  const MarkUp: real := 1.25

  /** One row of the platform table: name, price delta, rating, review count. */
  datatype PlatformSpec = PlatformSpec(name: string, delta: real, rating: real, reviews: int)

  const Platforms: seq<PlatformSpec> := [
    PlatformSpec("amazon", 0.0, 4.5, 1250),
    PlatformSpec("flipkart", -50.0, 4.3, 980),
    PlatformSpec("myntra", 120.0, 4.6, 540),
    PlatformSpec("ajio", -100.0, 4.2, 330)
  ]

  const DemoImages: seq<string> := [
    "https://images.unsplash.com/photo-1511707171634-5f897ff02aa9",
    "https://images.unsplash.com/photo-1512499617640-c2f999098c01",
    "https://images.unsplash.com/photo-1517336714731-489689fd1ca8",
    "https://images.unsplash.com/photo-1526178610626-3f118bb11566"
  ]

  const Delivery: string := "Fast delivery in 2-4 days"

  /** The order `scrape_stub` returns its deals in: descending score. */
  const ByScoreDescending: Order := Order(ByScore, true)

  /** `max(99.0, base_price + delta)`. */
  function ListPrice(delta: real): (p: real)
    ensures p >= PriceFloor && p >= BasePrice + delta
    ensures p == PriceFloor || p == BasePrice + delta
  {
    MaxReal(PriceFloor, BasePrice + delta)
  }

  /** `query.replace(" ", "+")`. */
  function PlusForSpaces(q: string): (r: string)
    ensures |r| == |q|
    ensures forall i :: 0 <= i < |q| ==> r[i] == (if q[i] == ' ' then '+' else q[i])
  {
    if q == [] then []
    else [if q[0] == ' ' then '+' else q[0]] + PlusForSpaces(q[1..])
  }

  /** The platform search URL for the query. */
  function ProductUrl(platform: string, query: string): (r: string)
    ensures |r| == 17 + |platform| + |query|
    ensures OccursAt("https://", r, 0)
    ensures OccursAt(platform, r, 8)
    ensures OccursAt(".com/s?k=", r, 8 + |platform|)
    ensures OccursAt(PlusForSpaces(query), r, |r| - |query|)
  {
    var scheme, path, tail := "https://", ".com/s?k=", PlusForSpaces(query);
    var r := scheme + platform + path + tail;
    assert r[0..8] == scheme;
    assert r[8..8 + |platform|] == platform;
    assert r[8 + |platform|..17 + |platform|] == path;
    assert r[|r| - |query|..|r|] == tail;
    r
  }

  /** The search URL has no spaces when the platform name has none. */
  lemma ProductUrlHasNoSpaces(platform: string, query: string)
    requires ' ' !in platform
    ensures ' ' !in ProductUrl(platform, query)
  {
    var tail := PlusForSpaces(query);
    assert ' ' !in tail by {
      forall i | 0 <= i < |tail| ensures tail[i] != ' ' {
      }
    }
    var scheme, path := "https://", ".com/s?k=";
    assert ' ' !in scheme && ' ' !in path;
    assert ProductUrl(platform, query) == scheme + platform + path + tail;
  }

  /** The deal built for row `i` of the platform table. Every rating of the
      table is at most 5, so its score lies in [0,1]. */
  function SynthDeal(query: string, i: nat, log10: int -> real, titleCase: string -> string,
                     clock: nat -> Timestamp): (r: Deal)
    requires i < |Platforms|
    ensures r.platform == Platforms[i].name
    ensures IsLog10(log10) ==> r.qualityScore.Some? && 0.0 <= r.qualityScore.value <= 1.0
  {
    var p := Platforms[i];
    var price := ListPrice(p.delta);
    var original := price * MarkUp;
    var score := ScoreDeal(Some(price), Some(p.rating), Some(p.reviews), log10);
    assert IsLog10(log10) ==> 0.0 <= score <= 1.0 by {
      if IsLog10(log10) {
        ScoreInUnit(Some(price), Some(p.rating), Some(p.reviews), log10);
      }
    }
    Deal(
      p.name,
      titleCase(query) + " – Top Pick #" + NatToString(i + 1),
      Round2(price),
      Some(Round2(original)),
      Some(Round2((1.0 - price / original) * 100.0)),
      Some(p.rating),
      Some(p.reviews),
      Some(score),
      DemoImages,
      Some(ProductUrl(p.name, query)),
      Some(Delivery),
      Some(clock(i)))
  }

  /** The deals in table order, before sorting: one per platform, in the
      table's platform order. */
  function Synthesized(query: string, log10: int -> real, titleCase: string -> string,
                       clock: nat -> Timestamp): (r: seq<Deal>)
    ensures |r| == |Platforms| == 4
    ensures PlatformsOf(r) == PlatformNames()
  {
    var r := seq(|Platforms|, i requires 0 <= i < |Platforms| => SynthDeal(query, i, log10, titleCase, clock));
    assert forall i :: 0 <= i < 4 ==> PlatformsOf(r)[i] == PlatformNames()[i];
    r
  }

  /** The discount is 20% whatever the (positive) price, since the original
      price is always 1.25 times the price. */
  lemma DiscountIsTwenty(price: real)
    requires price > 0.0
    ensures (1.0 - price / (price * MarkUp)) * 100.0 == 20.0
  {
    assert price / (price * MarkUp) == 0.8 by {
      assert (price * MarkUp) * 0.8 == price;
    }
  }

  /** The per-deal facts `scrape_stub` promises of every deal it returns. */
  predicate Discounted(query: string, d: Deal)
  {
    && d.price >= PriceFloor
    && d.originalPrice == Some(d.price * MarkUp)
    && d.discountPercent == Some(20.0)
    && d.productUrl == Some(ProductUrl(d.platform, query))
  }

  /** The fields of the deal for row `i` that `SynthDealFacts` leaves out:
      the title numbers the row from 1, the score is taken from the list
      price before it is rounded to cents, and the timestamp is the clock's
      reading at step `i`. Stated on its own so that the per-deal price
      proof stays small for the solver. */
  lemma SynthDealOtherFields(query: string, i: nat, log10: int -> real, titleCase: string -> string,
                             clock: nat -> Timestamp)
    requires i < |Platforms|
    ensures var d := SynthDeal(query, i, log10, titleCase, clock);
      && d.title == titleCase(query) + " – Top Pick #" + NatToString(i + 1)
      && d.qualityScore == Some(ScoreDeal(Some(ListPrice(Platforms[i].delta)), Some(Platforms[i].rating),
                                          Some(Platforms[i].reviews), log10))
      && d.delivery == Some(Delivery)
      && d.createdAt == Some(clock(i))
  {
  }

  /** The per-deal facts for each row of the table: the platform, a price of
      at least 99, an original price of 1.25 times the price, a 20% discount,
      the table's rating and review count, and the search URL. */
  lemma SynthDealFacts(query: string, i: nat, log10: int -> real, titleCase: string -> string,
                       clock: nat -> Timestamp)
    requires i < |Platforms|
    ensures var d := SynthDeal(query, i, log10, titleCase, clock);
      && d.platform == Platforms[i].name
      && d.price == ListPrice(Platforms[i].delta)
      && d.rating == Some(Platforms[i].rating)
      && d.reviewsCount == Some(Platforms[i].reviews)
      && d.imageUrls == DemoImages
    ensures Discounted(query, SynthDeal(query, i, log10, titleCase, clock))
  {
    var p := Platforms[i];
    var price := ListPrice(p.delta);
    DiscountIsTwenty(price);
    Round2Exact(2000);
    assert (1.0 - price / (price * MarkUp)) * 100.0 == 2000 as real / 100.0;
    if i == 0 {
      Round2Exact(99900);
      Round2Exact(124875);
      assert price == 99900 as real / 100.0;
      assert price * MarkUp == 124875 as real / 100.0;
    } else if i == 1 {
      Round2Exact(94900);
      Round2Exact(118625);
      assert price == 94900 as real / 100.0;
      assert price * MarkUp == 118625 as real / 100.0;
    } else if i == 2 {
      Round2Exact(111900);
      Round2Exact(139875);
      assert price == 111900 as real / 100.0;
      assert price * MarkUp == 139875 as real / 100.0;
    } else {
      Round2Exact(89900);
      Round2Exact(112375);
      assert price == 89900 as real / 100.0;
      assert price * MarkUp == 112375 as real / 100.0;
    }
  }

  /** The platform names of a list of deals, in order. */
  function PlatformsOf(s: seq<Deal>): (r: seq<string>)
    ensures |r| == |s| && forall i :: 0 <= i < |s| ==> r[i] == s[i].platform
  {
    seq(|s|, i requires 0 <= i < |s| => s[i].platform)
  }

  lemma PlatformsOfConcat(a: seq<Deal>, b: seq<Deal>)
    ensures PlatformsOf(a + b) == PlatformsOf(a) + PlatformsOf(b)
  {
    var l, r := PlatformsOf(a + b), PlatformsOf(a) + PlatformsOf(b);
    forall i | 0 <= i < |l| ensures l[i] == r[i] {
      if i < |a| {
        assert (a + b)[i] == a[i];
      } else {
        assert (a + b)[i] == b[i - |a|];
      }
    }
  }

  /** Taking out the deal at `k` takes out one deal and one platform name. */
  lemma RemoveAt(b: seq<Deal>, k: nat)
    requires k < |b|
    ensures multiset(b[..k] + b[k + 1..]) == multiset(b) - multiset{b[k]}
    ensures multiset(PlatformsOf(b))
         == multiset(PlatformsOf(b[..k] + b[k + 1..])) + multiset{b[k].platform}
  {
    assert b == b[..k] + [b[k]] + b[k + 1..];
    PlatformsOfConcat(b[..k] + [b[k]], b[k + 1..]);
    PlatformsOfConcat(b[..k], [b[k]]);
    PlatformsOfConcat(b[..k], b[k + 1..]);
    assert PlatformsOf([b[k]]) == [b[k].platform];
    assert multiset(b) == multiset(b[..k] + b[k + 1..]) + multiset{b[k]};
  }

  /** Taking out the first deal takes out one deal and one platform name. */
  lemma RemoveFirst(a: seq<Deal>)
    requires a != []
    ensures multiset(a[1..]) == multiset(a) - multiset{a[0]}
    ensures multiset(PlatformsOf(a)) == multiset(PlatformsOf(a[1..])) + multiset{a[0].platform}
  {
    assert a == [a[0]] + a[1..];
    PlatformsOfConcat([a[0]], a[1..]);
    assert PlatformsOf([a[0]]) == [a[0].platform];
  }

  /** Rearranging deals rearranges their platform names alike. */
  lemma {:induction false} PlatformsOfPermutation(a: seq<Deal>, b: seq<Deal>)
    requires multiset(a) == multiset(b)
    ensures multiset(PlatformsOf(a)) == multiset(PlatformsOf(b))
  {
    if a == [] {
      assert b == [] by {
        assert |b| == |multiset(b)| == |multiset(a)| == 0;
      }
    } else {
      assert a[0] in multiset(b);
      var k :| 0 <= k < |b| && b[k] == a[0];
      RemoveFirst(a);
      RemoveAt(b, k);
      var a', b' := a[1..], b[..k] + b[k + 1..];
      calc {
        multiset(a');
        multiset(a) - multiset{a[0]};
        multiset(b) - multiset{b[k]};
        multiset(b');
      }
      PlatformsOfPermutation(a', b');
      var rest, name := multiset(PlatformsOf(a')), multiset{a[0].platform};
      assert multiset(PlatformsOf(a)) == rest + name;
      assert multiset(PlatformsOf(b)) == rest + name;
    }
  }

  /** The platform names of the table, in order. */
  function PlatformNames(): seq<string>
  {
    ["amazon", "flipkart", "myntra", "ajio"]
  }

  /** Any rearrangement of the table has four deals, one per platform, each
      with the per-deal facts of `SynthDealFacts`. */
  lemma RearrangedTableFacts(query: string, log10: int -> real, titleCase: string -> string,
                             clock: nat -> Timestamp, deals: seq<Deal>)
    requires multiset(deals) == multiset(Synthesized(query, log10, titleCase, clock))
    ensures |deals| == 4
    ensures multiset(PlatformsOf(deals)) == multiset(PlatformNames())
    ensures forall d :: d in deals ==>
      && d.price >= PriceFloor
      && d.originalPrice == Some(d.price * MarkUp)
      && d.discountPercent == Some(20.0)
      && d.productUrl == Some(ProductUrl(d.platform, query))
  {
    var table := Synthesized(query, log10, titleCase, clock);
    forall d | d in deals
      ensures && d.price >= PriceFloor
              && d.originalPrice == Some(d.price * MarkUp)
              && d.discountPercent == Some(20.0)
              && d.productUrl == Some(ProductUrl(d.platform, query))
    {
      assert d in multiset(table);
      TableDealFacts(query, log10, titleCase, clock, d);
    }
    PlatformsOfPermutation(deals, table);
    assert |deals| == |multiset(deals)| == |table|;
  }

  /** Every deal of the table has the per-deal facts of `SynthDealFacts`. */
  lemma TableDealFacts(query: string, log10: int -> real, titleCase: string -> string,
                       clock: nat -> Timestamp, d: Deal)
    requires d in Synthesized(query, log10, titleCase, clock)
    ensures Discounted(query, d)
  {
    var table := Synthesized(query, log10, titleCase, clock);
    var k :| 0 <= k < |table| && table[k] == d;
    SynthDealFacts(query, k, log10, titleCase, clock);
  }

  /** What `scrape_stub` promises of its result, for any list sorted by
      descending score that rearranges the table. */
  lemma ScrapedFacts(query: string, log10: int -> real, titleCase: string -> string,
                     clock: nat -> Timestamp, deals: seq<Deal>)
    requires multiset(deals) == multiset(Synthesized(query, log10, titleCase, clock))
    requires Sorted(ByScoreDescending, deals)
    ensures |deals| == 4
    ensures multiset(PlatformsOf(deals)) == multiset(PlatformNames())
    ensures forall i, j :: 0 <= i < j < |deals| ==>
      RealOrZero(deals[i].qualityScore) >= RealOrZero(deals[j].qualityScore)
    ensures forall d :: d in deals ==>
      && d.price >= PriceFloor
      && d.originalPrice == Some(d.price * MarkUp)
      && d.discountPercent == Some(20.0)
      && d.productUrl == Some(ProductUrl(d.platform, query))
  {
    assert OrderFor(None) == ByScoreDescending;
    RearrangedTableFacts(query, log10, titleCase, clock, deals);
    SortedByDirective(None, deals);
  }

  /** The loop of `scrape_stub`: one deal per row of the table, built by
      `SynthDeal`, appended in table order. */
  method BuildDeals(query: string, log10: int -> real, titleCase: string -> string,
                    clock: nat -> Timestamp) returns (built: seq<Deal>)
    ensures built == Synthesized(query, log10, titleCase, clock)
  {
    ghost var table := Synthesized(query, log10, titleCase, clock);
    built := [];
    for i := 0 to |Platforms|
      invariant built == table[..i]
    {
      assert table[..i + 1] == table[..i] + [table[i]];
      built := built + [SynthDeal(query, i, log10, titleCase, clock)];
    }
    assert table[..|Platforms|] == table;
  }

  /** `scrape_stub`: the deals of `BuildDeals`, sorted in place by
      descending score. */
  method ScrapeStub(query: string, log10: int -> real, titleCase: string -> string,
                    clock: nat -> Timestamp) returns (deals: seq<Deal>)
    ensures deals == StableSort(ByScoreDescending, Synthesized(query, log10, titleCase, clock))
    ensures |deals| == |Platforms| == 4
    ensures multiset(PlatformsOf(deals)) == multiset(PlatformNames())
    ensures forall i, j :: 0 <= i < j < |deals| ==>
      RealOrZero(deals[i].qualityScore) >= RealOrZero(deals[j].qualityScore)
    ensures forall d :: d in deals ==>
      && d.price >= PriceFloor
      && d.originalPrice == Some(d.price * MarkUp)
      && d.discountPercent == Some(20.0)
      && d.productUrl == Some(ProductUrl(d.platform, query))
  {
    var built := BuildDeals(query, log10, titleCase, clock);
    deals := SortCopy(built, ByScoreDescending);
    ScrapedFacts(query, log10, titleCase, clock, deals);
  }
}
