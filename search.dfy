/** The search endpoint: synthesise the demo deals, keep those inside the
    requested price bounds, order them by the requested directive and write
    the pitch for the result. */
module Search {
  import opened Deals
  import opened Scoring
  import opened Ranking
  import opened Synthesis
  import opened Pitch

  /** The deals the endpoint answers with, as a function of the request:
      the table's deals inside the bounds, in the directive's order. */
  function Answer(query: string, minPrice: Option<real>, maxPrice: Option<real>, sortBy: Option<string>,
                  log10: int -> real, titleCase: string -> string, clock: nat -> Timestamp): (r: seq<Deal>)
    ensures forall d :: d in r <==>
      d in Synthesized(query, log10, titleCase, clock) && InRange(d, minPrice, maxPrice)
    ensures DirectiveOrder(sortBy, r)
  {
    var scraped := StableSort(ByScoreDescending, Synthesized(query, log10, titleCase, clock));
    var r := StableSort(OrderFor(sortBy), PriceFilter(scraped, minPrice, maxPrice));
    AnswerMembership(query, minPrice, maxPrice, log10, titleCase, clock, scraped, r);
    SortedByDirective(sortBy, r);
    r
  }

  /** Which deals the endpoint answers with: those of the table inside the
      price bounds, nothing else; all four without bounds, none with crossed
      bounds; each at a 20% discount. */
  ghost predicate Selected(query: string, minPrice: Option<real>, maxPrice: Option<real>,
                           log10: int -> real, titleCase: string -> string, clock: nat -> Timestamp,
                           deals: seq<Deal>)
  {
    && (forall d :: d in deals <==>
          d in Synthesized(query, log10, titleCase, clock) && InRange(d, minPrice, maxPrice))
    && (minPrice.None? && maxPrice.None? ==> |deals| == 4)
    && (minPrice.Some? && maxPrice.Some? && maxPrice.value < minPrice.value ==> deals == [])
    && (forall d :: d in deals ==> d.discountPercent == Some(20.0))
  }

  /** What the pitch says of the answer: an apology exactly when it is
      empty, always the query, and otherwise the first deal's offer. */
  predicate Pitched(query: string, capitalize: string -> string, deals: seq<Deal>, pitch: string)
  {
    && (pitch == Apology(query) <==> deals == [])
    && Contains(pitch, query)
    && (deals != [] ==> Contains(pitch, Offer(capitalize, deals[0])))
  }

  /** `search_deals`: scrape, filter by price, sort, pitch. */
  method SearchDeals(query: string, minPrice: Option<real>, maxPrice: Option<real>, sortBy: Option<string>,
                     log10: int -> real, titleCase: string -> string,
                     capitalize: string -> string, showFloat: real -> string,
                     clock: nat -> Timestamp)
    returns (deals: seq<Deal>, pitch: string)
    ensures deals == Answer(query, minPrice, maxPrice, sortBy, log10, titleCase, clock)
    ensures pitch == CraftPitch(query, deals, capitalize, showFloat)
    ensures Selected(query, minPrice, maxPrice, log10, titleCase, clock, deals)
    ensures DirectiveOrder(sortBy, deals)
    ensures Pitched(query, capitalize, deals, pitch)
    ensures sortBy == Some("price_low") && minPrice.None? && maxPrice.None? ==>
      |deals| == 4 && deals[0].platform == "ajio" && deals[0].price == 899.0
  {
    var scraped := ScrapeStub(query, log10, titleCase, clock);
    deals := Rank(scraped, minPrice, maxPrice, sortBy);
    pitch := CraftPitch(query, deals, capitalize, showFloat);
    AnswerFacts(query, minPrice, maxPrice, sortBy, log10, titleCase, clock);
    PitchFacts(query, deals, capitalize, showFloat);
  }

  /** The answer meets `Selected`, and sorted by ascending price without
      bounds it is the whole table headed by ajio's deal at 899. */
  lemma AnswerFacts(query: string, minPrice: Option<real>, maxPrice: Option<real>, sortBy: Option<string>,
                    log10: int -> real, titleCase: string -> string, clock: nat -> Timestamp)
    ensures var r := Answer(query, minPrice, maxPrice, sortBy, log10, titleCase, clock);
      && Selected(query, minPrice, maxPrice, log10, titleCase, clock, r)
      && (sortBy == Some("price_low") && minPrice.None? && maxPrice.None? ==>
            |r| == 4 && r[0].platform == "ajio" && r[0].price == 899.0)
  {
    var scraped := StableSort(ByScoreDescending, Synthesized(query, log10, titleCase, clock));
    var r := Answer(query, minPrice, maxPrice, sortBy, log10, titleCase, clock);
    SelectionFacts(query, minPrice, maxPrice, log10, titleCase, clock, scraped, r);
    if sortBy == Some("price_low") && minPrice.None? && maxPrice.None? {
      PriceFilterIdempotent(scraped, minPrice, maxPrice);
      CheapestFirst(query, log10, titleCase, clock, r);
    }
  }

  /** The pitch of any list of deals meets `Pitched`. */
  lemma PitchFacts(query: string, deals: seq<Deal>, capitalize: string -> string, showFloat: real -> string)
    ensures Pitched(query, capitalize, deals, CraftPitch(query, deals, capitalize, showFloat))
  {
    PitchIsApologyIffEmpty(query, deals, capitalize, showFloat);
    if deals != [] {
      PitchNamesBestOffer(query, deals, capitalize, showFloat);
    }
  }

  /** The answer holds exactly the deals of the table inside the bounds, for
      any rearrangement `scraped` of the table and any rearrangement `deals`
      of its in-range part. */
  lemma AnswerMembership(query: string, minPrice: Option<real>, maxPrice: Option<real>,
                         log10: int -> real, titleCase: string -> string, clock: nat -> Timestamp,
                         scraped: seq<Deal>, deals: seq<Deal>)
    requires multiset(scraped) == multiset(Synthesized(query, log10, titleCase, clock))
    requires multiset(deals) == multiset(PriceFilter(scraped, minPrice, maxPrice))
    ensures forall d :: d in deals <==>
      d in Synthesized(query, log10, titleCase, clock) && InRange(d, minPrice, maxPrice)
  {
    var table := Synthesized(query, log10, titleCase, clock);
    forall d ensures d in deals <==> d in table && InRange(d, minPrice, maxPrice) {
      calc {
        d in deals;
        d in multiset(PriceFilter(scraped, minPrice, maxPrice));
        d in scraped && InRange(d, minPrice, maxPrice);
        { assert d in scraped <==> d in multiset(table); }
        d in table && InRange(d, minPrice, maxPrice);
      }
    }
  }

  /** `Selected` holds under the same conditions. */
  lemma SelectionFacts(query: string, minPrice: Option<real>, maxPrice: Option<real>,
                       log10: int -> real, titleCase: string -> string, clock: nat -> Timestamp,
                       scraped: seq<Deal>, deals: seq<Deal>)
    requires multiset(scraped) == multiset(Synthesized(query, log10, titleCase, clock))
    requires multiset(deals) == multiset(PriceFilter(scraped, minPrice, maxPrice))
    ensures Selected(query, minPrice, maxPrice, log10, titleCase, clock, deals)
  {
    AnswerMembership(query, minPrice, maxPrice, log10, titleCase, clock, scraped, deals);
    RearrangedTableFacts(query, log10, titleCase, clock, scraped);
    if minPrice.None? && maxPrice.None? {
      PriceFilterIdempotent(scraped, minPrice, maxPrice);
      assert |deals| == |multiset(deals)| == |multiset(scraped)|;
    }
    if minPrice.Some? && maxPrice.Some? && maxPrice.value < minPrice.value {
      CrossedBoundsLeaveNothing(deals, minPrice.value, maxPrice.value);
    }
    forall d | d in deals ensures d.discountPercent == Some(20.0) {
      assert d in multiset(scraped);
    }
  }

  /** No deal is in range of crossed bounds. Stated on its own
      so that the proofs using it stay small for the solver. */
  lemma CrossedBoundsExcludeAll(d: Deal, lo: real, hi: real)
    requires hi < lo
    ensures !InRange(d, Some(lo), Some(hi))
  {
  }

  /** A list whose deals are all in range of crossed bounds is empty. */
  lemma CrossedBoundsLeaveNothing(s: seq<Deal>, lo: real, hi: real)
    requires hi < lo
    requires forall d :: d in s ==> InRange(d, Some(lo), Some(hi))
    ensures s == []
  {
    if s != [] {
      CrossedBoundsExcludeAll(s[0], lo, hi);
    }
  }

  /** Sorted by ascending price, the table starts with its cheapest deal,
      ajio's at 899. */
  lemma CheapestFirst(query: string, log10: int -> real, titleCase: string -> string,
                      clock: nat -> Timestamp, deals: seq<Deal>)
    requires multiset(deals) == multiset(Synthesized(query, log10, titleCase, clock))
    requires forall i, j :: 0 <= i < j < |deals| ==> deals[i].price <= deals[j].price
    ensures |deals| > 0 && deals[0].platform == "ajio" && deals[0].price == 899.0
  {
    var table := Synthesized(query, log10, titleCase, clock);
    CheapestRow(query, log10, titleCase, clock);
    AscendingStartsAtMinimum(table, deals, table[3]);
  }

  /** Ajio's deal is the table's cheapest, at 899, and no other deal costs as little. */
  lemma CheapestRow(query: string, log10: int -> real, titleCase: string -> string, clock: nat -> Timestamp)
    ensures var table := Synthesized(query, log10, titleCase, clock);
      && |table| == 4 && table[3].price == 899.0 && table[3].platform == "ajio"
      && forall d :: d in table ==> 899.0 <= d.price && (d.price == 899.0 ==> d.platform == "ajio")
  {
    var table := Synthesized(query, log10, titleCase, clock);
    forall k | 0 <= k < |table|
      ensures table[k].price >= 899.0
      ensures table[k].price == 899.0 ==> table[k].platform == "ajio"
    {
      SynthDealFacts(query, k, log10, titleCase, clock);
    }
    SynthDealFacts(query, 3, log10, titleCase, clock);
  }

  /** A list in ascending price order that rearranges `table` starts at the
      price of `m`, a cheapest deal of `table`, with a deal of `table`. */
  lemma AscendingStartsAtMinimum(table: seq<Deal>, deals: seq<Deal>, m: Deal)
    requires multiset(deals) == multiset(table)
    requires m in table && forall d :: d in table ==> m.price <= d.price
    requires forall i, j :: 0 <= i < j < |deals| ==> deals[i].price <= deals[j].price
    ensures |deals| > 0 && deals[0] in table && deals[0].price == m.price
  {
    assert m in multiset(deals);
    var j :| 0 <= j < |deals| && deals[j] == m;
    assert deals[0] in multiset(table);
  }
}
