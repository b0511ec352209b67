/** The one-paragraph sales pitch that accompanies a ranked list of deals:
    an apology when the list is empty, otherwise a recommendation of the
    first deal with up to two runners-up. Python's `str.capitalize` and the
    textual form of a float are parameters. */
module Pitch {
  import opened Deals

  /** The fixed texts of the apology and the recommendation. */
  const ApologyOpening: string := "I couldn't find great matches for ‘"
  const ApologyClosing: string :=
    "’ right now. Try refining the product name or category, and I'll hunt for fresh deals."
  const PitchOpening: string := "If you're looking for "
  const BestOpening: string := "my best pick is on "
  const AltOpening: string := "I can also get you options from "
  const AltClosing: string := ". Want me to open the best offer for you?"

  /** The reply when no deal is left to recommend: the opening text with the
      query right after it. */
  function Apology(query: string): (r: string)
    ensures OccursAt(ApologyOpening, r, 0)
    ensures OccursAt(query, r, |ApologyOpening|)
  {
    OccursAtJoin(ApologyOpening, query);
    OccursAtSuffixed(ApologyOpening, ApologyOpening + query, 0, ApologyClosing);
    OccursAtSuffixed(query, ApologyOpening + query, |ApologyOpening|, ApologyClosing);
    ApologyOpening + query + ApologyClosing
  }

  /** How a deal is named in the pitch: its capitalised platform and its price
      truncated to whole rupees. */
  function Offer(capitalize: string -> string, d: Deal): (r: string)
    ensures OccursAt(capitalize(d.platform), r, 0)
    ensures var price := IntToString(Trunc(d.price)); OccursAt(price, r, |r| - |price|)
  {
    var name, price := capitalize(d.platform), IntToString(Trunc(d.price));
    OccursAtJoin(name, " at ₹");
    OccursAtSuffixed(name, name + " at ₹", 0, price);
    OccursAtJoin(name + " at ₹", price);
    name + " at ₹" + price
  }

  /** Python's `sep.join(xs)`: empty for no parts, otherwise opening with
      the first part and closing with the last. */
  function Join(sep: string, xs: seq<string>): (r: string)
    ensures |xs| == 0 ==> r == ""
    ensures |xs| >= 1 ==> OccursAt(xs[0], r, 0)
    ensures |xs| >= 1 ==> OccursAt(xs[|xs| - 1], r, |r| - |xs[|xs| - 1]|)
  {
    if |xs| == 0 then ""
    else if |xs| == 1 then
      assert xs[0][0..|xs[0]|] == xs[0];
      xs[0]
    else
      var first, rest, last := xs[0], Join(sep, xs[1..]), xs[|xs| - 1];
      assert xs[1..][|xs[1..]| - 1] == last;
      var pre := first + sep;
      OccursAtJoin(first, sep);
      OccursAtSuffixed(first, pre, 0, rest);
      OccursAtPrefixed(last, rest, |rest| - |last|, pre);
      assert |pre| + (|rest| - |last|) == |pre + rest| - |last|;
      pre + rest
  }

  /** Every joined part occurs in the joined string. */
  lemma {:induction false} JoinContains(sep: string, xs: seq<string>, k: nat)
    requires k < |xs|
    ensures Contains(Join(sep, xs), xs[k])
  {
    if k == 0 {
      assert OccursAt(xs[0], Join(sep, xs), 0);
    } else {
      JoinContains(sep, xs[1..], k - 1);
      ContainsPrefixed(xs[0] + sep, Join(sep, xs[1..]), xs[k]);
    }
  }

  /** The runners-up: the deals at positions 1 and 2, as far as they exist. */
  function Alternatives(deals: seq<Deal>): (r: seq<Deal>)
    ensures |deals| <= 1 ==> r == []
    ensures |deals| >= 1 ==> |r| == Min(2, |deals| - 1)
    ensures forall k :: 0 <= k < |r| ==> r[k] == deals[k + 1]
  {
    if |deals| <= 1 then [] else deals[1..Min(3, |deals|)]
  }

  /** The offers of a list of deals, in order. */
  function Offers(capitalize: string -> string, s: seq<Deal>): (r: seq<string>)
    ensures |r| == |s| && forall k :: 0 <= k < |s| ==> r[k] == Offer(capitalize, s[k])
  {
    seq(|s|, k requires 0 <= k < |s| => Offer(capitalize, s[k]))
  }

  /** Python's f-string rendering of an optional float: the text of the
      value, or "None". */
  function ShowOptReal(showFloat: real -> string, o: Option<real>): string
  {
    match o
    case None => "None"
    case Some(v) => showFloat(v)
  }

  /** Python's f-string rendering of an optional int. */
  function ShowOptInt(o: Option<int>): string
  {
    match o
    case None => "None"
    case Some(n) => IntToString(n)
  }

  /** The discount, rating and review count of the best deal, as the pitch
      states them. */
  function Credentials(showFloat: real -> string, best: Deal): string
  {
    " with " + ShowOptReal(showFloat, best.discountPercent) + "% off and a solid "
      + ShowOptReal(showFloat, best.rating) + "★ from " + ShowOptInt(best.reviewsCount)
      + "+ reviews."
  }

  /** What the pitch says of the best deal: it names the deal's offer and
      its discount, rating and review count. */
  function BestClause(capitalize: string -> string, showFloat: real -> string, best: Deal): (r: string)
    ensures Contains(r, Offer(capitalize, best))
    ensures Contains(r, Credentials(showFloat, best))
  {
    var offer, credentials := Offer(capitalize, best), Credentials(showFloat, best);
    ContainsMiddle(BestOpening, offer, credentials);
    OccursAtJoin(BestOpening + offer, credentials);
    assert OccursAt(credentials, BestOpening + offer + credentials, |BestOpening + offer|);
    BestOpening + offer + credentials
  }

  /** What the pitch says of the runners-up, already joined into `alt`. */
  function AltClause(alt: string): string
  {
    AltOpening + alt + AltClosing
  }

  /** What follows the query in the recommendation: the best clause, then
      the runners-up. */
  function AfterQuery(best: Deal, alt: string, capitalize: string -> string, showFloat: real -> string): (r: string)
    ensures Contains(r, BestClause(capitalize, showFloat, best))
  {
    var clause := BestClause(capitalize, showFloat, best);
    ContainsMiddle(", ", clause, " " + AltClause(alt));
    ", " + clause + (" " + AltClause(alt))
  }

  /** The recommendation of `best`, with the already joined runners-up: the
      opening text with the query right after it. */
  function Recommendation(query: string, best: Deal, alt: string,
                          capitalize: string -> string, showFloat: real -> string): (r: string)
    ensures OccursAt(PitchOpening, r, 0)
    ensures OccursAt(query, r, |PitchOpening|)
  {
    var after := AfterQuery(best, alt, capitalize, showFloat);
    OccursAtJoin(PitchOpening, query);
    OccursAtSuffixed(PitchOpening, PitchOpening + query, 0, after);
    OccursAtSuffixed(query, PitchOpening + query, |PitchOpening|, after);
    PitchOpening + query + after
  }

  /** `craft_pitch`: whatever the deals, the pitch repeats the query. */
  function CraftPitch(query: string, deals: seq<Deal>,
                      capitalize: string -> string, showFloat: real -> string): (r: string)
    ensures Contains(r, query)
  {
    if |deals| == 0 then Apology(query)
    else Recommendation(query, deals[0], Join(", ", Offers(capitalize, Alternatives(deals))),
                        capitalize, showFloat)
  }

  /** The two opening texts differ at their second character. */
  lemma OpeningsDiffer()
    ensures |PitchOpening| > 1 && |ApologyOpening| > 1 && PitchOpening[1] != ApologyOpening[1]
  {
    assert PitchOpening[1] == 'f';
    assert ApologyOpening[1] == ' ';
  }

  /** Texts opening with openings that differ at their second character differ. */
  lemma DifferentOpenings(a: string, b: string, p: string, q: string)
    requires OccursAt(p, a, 0) && OccursAt(q, b, 0)
    requires |p| > 1 && |q| > 1 && p[1] != q[1]
    ensures a != b
  {
    assert a[0..|p|][1] == a[1];
    assert b[0..|q|][1] == b[1];
  }

  /** The pitch is the apology exactly when there is no deal: the two texts
      already differ at their second character. */
  lemma PitchIsApologyIffEmpty(query: string, deals: seq<Deal>,
                               capitalize: string -> string, showFloat: real -> string)
    ensures CraftPitch(query, deals, capitalize, showFloat) == Apology(query) <==> |deals| == 0
  {
    if |deals| > 0 {
      OpeningsDiffer();
      DifferentOpenings(CraftPitch(query, deals, capitalize, showFloat), Apology(query),
                        PitchOpening, ApologyOpening);
    }
  }

  /** Whatever follows the query in the recommendation occurs in it. */
  lemma RecommendationContains(query: string, best: Deal, alt: string,
                               capitalize: string -> string, showFloat: real -> string, q: string)
    requires Contains(AfterQuery(best, alt, capitalize, showFloat), q)
    ensures Contains(Recommendation(query, best, alt, capitalize, showFloat), q)
  {
    ContainsPrefixed(PitchOpening + query, AfterQuery(best, alt, capitalize, showFloat), q);
  }

  /** A non-empty pitch recommends the first deal, with its discount, rating
      and review count. */
  lemma PitchNamesBest(query: string, deals: seq<Deal>,
                       capitalize: string -> string, showFloat: real -> string)
    requires |deals| > 0
    ensures Contains(CraftPitch(query, deals, capitalize, showFloat),
                     BestClause(capitalize, showFloat, deals[0]))
  {
    var alt := Join(", ", Offers(capitalize, Alternatives(deals)));
    RecommendationContains(query, deals[0], alt, capitalize, showFloat,
                           BestClause(capitalize, showFloat, deals[0]));
  }

  /** A non-empty pitch names the first deal's platform and whole-rupee price. */
  lemma PitchNamesBestOffer(query: string, deals: seq<Deal>,
                            capitalize: string -> string, showFloat: real -> string)
    requires |deals| > 0
    ensures Contains(CraftPitch(query, deals, capitalize, showFloat), Offer(capitalize, deals[0]))
  {
    PitchNamesBest(query, deals, capitalize, showFloat);
    ContainsTransitive(CraftPitch(query, deals, capitalize, showFloat),
                       BestClause(capitalize, showFloat, deals[0]), Offer(capitalize, deals[0]));
  }

  /** Whatever the joined runners-up contain, the runners-up clause contains. */
  lemma AltClauseContains(alt: string, q: string)
    requires Contains(alt, q)
    ensures Contains(AltClause(alt), q)
  {
    ContainsWiden(AltOpening, alt, AltClosing, q);
  }

  /** Whatever the runners-up clause contains, the text after the query contains. */
  lemma AfterQueryContainsAlt(best: Deal, alt: string, capitalize: string -> string,
                              showFloat: real -> string, q: string)
    requires Contains(AltClause(alt), q)
    ensures Contains(AfterQuery(best, alt, capitalize, showFloat), q)
  {
    ContainsPrefixed(" ", AltClause(alt), q);
    ContainsPrefixed(", " + BestClause(capitalize, showFloat, best), " " + AltClause(alt), q);
  }

  /** The deals at positions 1 and 2, when present, are offered as options. */
  lemma PitchNamesAlternatives(query: string, deals: seq<Deal>,
                               capitalize: string -> string, showFloat: real -> string, k: nat)
    requires 1 <= k < Min(3, |deals|)
    ensures Contains(CraftPitch(query, deals, capitalize, showFloat), Offer(capitalize, deals[k]))
  {
    AlternativesNameOffer(capitalize, deals, k);
    PitchContainsAlternatives(query, deals, capitalize, showFloat, Offer(capitalize, deals[k]));
  }

  /** The joined runners-up name the deal at position 1 or 2. */
  lemma AlternativesNameOffer(capitalize: string -> string, deals: seq<Deal>, k: nat)
    requires 1 <= k < Min(3, |deals|)
    ensures Contains(Join(", ", Offers(capitalize, Alternatives(deals))), Offer(capitalize, deals[k]))
  {
    var alts := Alternatives(deals);
    var offers := Offers(capitalize, alts);
    assert offers[k - 1] == Offer(capitalize, deals[k]) by {
      assert alts[k - 1] == deals[k];
    }
    JoinContains(", ", offers, k - 1);
  }

  /** Whatever the joined runners-up contain, a non-empty pitch contains. */
  lemma PitchContainsAlternatives(query: string, deals: seq<Deal>,
                                  capitalize: string -> string, showFloat: real -> string, q: string)
    requires deals != []
    requires Contains(Join(", ", Offers(capitalize, Alternatives(deals))), q)
    ensures Contains(CraftPitch(query, deals, capitalize, showFloat), q)
  {
    var alt := Join(", ", Offers(capitalize, Alternatives(deals)));
    AltClauseContains(alt, q);
    AfterQueryContainsAlt(deals[0], alt, capitalize, showFloat, q);
    RecommendationContains(query, deals[0], alt, capitalize, showFloat, q);
    CraftPitchIsRecommendation(query, deals, capitalize, showFloat);
  }

  /** A non-empty pitch is the recommendation of the first deal with the
      joined runners-up. */
  lemma CraftPitchIsRecommendation(query: string, deals: seq<Deal>,
                                   capitalize: string -> string, showFloat: real -> string)
    requires deals != []
    ensures CraftPitch(query, deals, capitalize, showFloat)
         == Recommendation(query, deals[0], Join(", ", Offers(capitalize, Alternatives(deals))),
                           capitalize, showFloat)
  {
  }

  /** Only the first three deals shape the pitch. */
  lemma PitchSeesOnlyTopThree(query: string, deals: seq<Deal>,
                              capitalize: string -> string, showFloat: real -> string)
    ensures CraftPitch(query, deals, capitalize, showFloat)
         == CraftPitch(query, deals[..Min(3, |deals|)], capitalize, showFloat)
  {
    var top := deals[..Min(3, |deals|)];
    assert Alternatives(deals) == Alternatives(top);
  }
}
