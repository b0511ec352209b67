/** The filter-and-sort block of the search endpoint: inclusive price bounds,
    then a stable sort by the key the sort directive selects. Python's
    `list.sort` is stable, also with `reverse=True` (equal keys keep their
    order), so every branch is specified by the one stable sort `StableSort`
    below, which is proved to be the only sorted rearrangement that keeps
    tied deals in order. */
module Ranking {
  import opened Deals

  /** The field a directive sorts on. */
  datatype Key = ByPrice | ByRating | ByReviews | ByScore

  /** A sort key and its direction. */
  datatype Order = Order(key: Key, descending: bool)

  /** The sort key of a deal; a missing rating, review count or score counts as 0. */
  function KeyOf(k: Key, d: Deal): real
  {
    match k
    case ByPrice => d.price
    case ByRating => RealOrZero(d.rating)
    case ByReviews => IntOrZero(d.reviewsCount)
    case ByScore => RealOrZero(d.qualityScore)
  }

  /** `a` must come strictly before `b` under `o`. */
  predicate Before(o: Order, a: Deal, b: Deal)
  {
    if o.descending then KeyOf(o.key, a) > KeyOf(o.key, b)
    else KeyOf(o.key, a) < KeyOf(o.key, b)
  }

  /** No deal is followed by one that should come strictly before it. */
  predicate Sorted(o: Order, s: seq<Deal>)
  {
    forall i, j :: 0 <= i < j < |s| ==> !Before(o, s[j], s[i])
  }

  /** The deals of `s` whose key is `v`, in their order in `s`. */
  function Tied(k: Key, s: seq<Deal>, v: real): seq<Deal>
  {
    if s == [] then []
    else (if KeyOf(k, s[0]) == v then [s[0]] else []) + Tied(k, s[1..], v)
  }

  /** `r` keeps the relative order of every group of tied deals of `s`. */
  ghost predicate Stable(k: Key, r: seq<Deal>, s: seq<Deal>)
  {
    forall v :: Tied(k, r, v) == Tied(k, s, v)
  }

  /** Puts `x` into `r` just before the first deal that `x` must precede,
      so after every deal with a key equal to its own. */
  function Insert(o: Order, r: seq<Deal>, x: Deal): (r': seq<Deal>)
    ensures multiset(r') == multiset(r) + multiset{x}
  {
    if r == [] then [x]
    else if Before(o, x, r[0]) then [x] + r
    else
      assert r == [r[0]] + r[1..];
      [r[0]] + Insert(o, r[1..], x)
  }

  /** The stable sort of `s` under `o`: each deal in turn, from the first,
      inserted after the deals already placed that it does not precede. */
  function StableSort(o: Order, s: seq<Deal>): (r: seq<Deal>)
    ensures multiset(r) == multiset(s)
    ensures Sorted(o, r)
  {
    if s == [] then []
    else
      var prefix := StableSort(o, s[..|s| - 1]);
      InsertSorted(o, prefix, s[|s| - 1]);
      assert s == s[..|s| - 1] + [s[|s| - 1]];
      Insert(o, prefix, s[|s| - 1])
  }

  /** Inserting into a sorted sequence keeps it sorted. */
  lemma {:induction false} InsertSorted(o: Order, r: seq<Deal>, x: Deal)
    requires Sorted(o, r)
    ensures Sorted(o, Insert(o, r, x))
  {
    if r == [] {
    } else if Before(o, x, r[0]) {
      var t := [x] + r;
      forall i, j | 0 <= i < j < |t| ensures !Before(o, t[j], t[i]) {
        if i == 0 {
          assert !Before(o, r[j - 1], r[0]) || j - 1 == 0;
        }
      }
    } else {
      InsertSorted(o, r[1..], x);
      var rest := Insert(o, r[1..], x);
      var t := [r[0]] + rest;
      forall i, j | 0 <= i < j < |t| ensures !Before(o, t[j], t[i]) {
        if i == 0 {
          var e := rest[j - 1];
          assert e in multiset(rest);
          assert e in multiset(r[1..]) || e == x;
          if e != x {
            var m :| 0 <= m < |r[1..]| && r[1..][m] == e;
            assert r[m + 1] == e;
          }
        }
      }
    }
  }

  lemma {:induction false} TiedConcat(k: Key, a: seq<Deal>, b: seq<Deal>, v: real)
    ensures Tied(k, a + b, v) == Tied(k, a, v) + Tied(k, b, v)
  {
    if a == [] {
      assert a + b == b;
    } else {
      var h := if KeyOf(k, a[0]) == v then [a[0]] else [];
      assert (a + b)[1..] == a[1..] + b;
      TiedConcat(k, a[1..], b, v);
      calc {
        Tied(k, a + b, v);
        h + Tied(k, a[1..] + b, v);
        h + (Tied(k, a[1..], v) + Tied(k, b, v));
        { AppendAssoc(h, Tied(k, a[1..], v), Tied(k, b, v)); }
        (h + Tied(k, a[1..], v)) + Tied(k, b, v);
        Tied(k, a, v) + Tied(k, b, v);
      }
    }
  }

  lemma {:induction false} TiedNone(k: Key, s: seq<Deal>, v: real)
    requires forall i :: 0 <= i < |s| ==> KeyOf(k, s[i]) != v
    ensures Tied(k, s, v) == []
  {
    if s != [] {
      TiedNone(k, s[1..], v);
    }
  }

  /** Every tied deal is a deal of `s` with key `v`. */
  lemma {:induction false} TiedMember(k: Key, s: seq<Deal>, v: real, e: Deal)
    requires e in Tied(k, s, v)
    ensures e in s && KeyOf(k, e) == v
  {
    if s != [] && !(KeyOf(k, s[0]) == v && e == s[0]) {
      TiedMember(k, s[1..], v, e);
    }
  }

  /** The tied group of a single deal. Stated on its own
      so that the proofs using it stay small for the solver. */
  lemma TiedSingle(k: Key, x: Deal, v: real)
    ensures Tied(k, [x], v) == if KeyOf(k, x) == v then [x] else []
  {
    assert [x][1..] == [];
  }

  /** The tail of a sorted list is sorted. */
  lemma SortedTail(o: Order, r: seq<Deal>)
    requires r != [] && Sorted(o, r)
    ensures Sorted(o, r[1..])
  {
    var t := r[1..];
    forall i, j | 0 <= i < j < |t| ensures !Before(o, t[j], t[i]) {
      assert t[i] == r[i + 1] && t[j] == r[j + 1];
    }
  }

  /** Inserting `x` appends it to its own group and leaves the others alone. */
  lemma {:induction false} InsertTied(o: Order, r: seq<Deal>, x: Deal, v: real)
    requires Sorted(o, r)
    ensures Tied(o.key, Insert(o, r, x), v)
         == Tied(o.key, r, v) + (if KeyOf(o.key, x) == v then [x] else [])
  {
    var g := if KeyOf(o.key, x) == v then [x] else [];
    TiedSingle(o.key, x, v);
    if r == [] {
      assert Tied(o.key, r, v) + g == g;
    } else if Before(o, x, r[0]) {
      TiedConcat(o.key, [x], r, v);
      if KeyOf(o.key, x) == v {
        forall i | 0 <= i < |r| ensures KeyOf(o.key, r[i]) != v {
          assert i == 0 || !Before(o, r[i], r[0]);
        }
        TiedNone(o.key, r, v);
        assert g + [] == [] + g;
      } else {
        assert [] + Tied(o.key, r, v) == Tied(o.key, r, v) + [];
      }
    } else {
      SortedTail(o, r);
      InsertTied(o, r[1..], x, v);
      InsertTiedPast(o, r, x, v);
    }
  }

  /** The step of `InsertTied` where `x` moves past the first deal. */
  lemma InsertTiedPast(o: Order, r: seq<Deal>, x: Deal, v: real)
    requires r != [] && !Before(o, x, r[0])
    requires Tied(o.key, Insert(o, r[1..], x), v)
          == Tied(o.key, r[1..], v) + (if KeyOf(o.key, x) == v then [x] else [])
    ensures Tied(o.key, Insert(o, r, x), v)
         == Tied(o.key, r, v) + (if KeyOf(o.key, x) == v then [x] else [])
  {
    var g := if KeyOf(o.key, x) == v then [x] else [];
    var h := if KeyOf(o.key, r[0]) == v then [r[0]] else [];
    var rest := Insert(o, r[1..], x);
    assert Insert(o, r, x) == [r[0]] + rest;
    assert ([r[0]] + rest)[1..] == rest;
    calc {
      Tied(o.key, [r[0]] + rest, v);
      h + Tied(o.key, rest, v);
      h + (Tied(o.key, r[1..], v) + g);
      { AppendAssoc(h, Tied(o.key, r[1..], v), g); }
      (h + Tied(o.key, r[1..], v)) + g;
      Tied(o.key, r, v) + g;
    }
  }

  /** Concatenation is associative. Stated on its own so that the proofs
      using it stay small for the solver. */
  lemma AppendAssoc(a: seq<Deal>, b: seq<Deal>, c: seq<Deal>)
    ensures (a + b) + c == a + (b + c)
  {
  }

  /** A non-empty list is its first deal followed by the rest. Stated on its own
      so that the proofs using it stay small for the solver. */
  lemma FirstSplit(s: seq<Deal>)
    requires s != []
    ensures s == [s[0]] + s[1..]
  {
  }

  /** A non-empty list is its front followed by its last deal. Stated on its own
      so that the proofs using it stay small for the solver. */
  lemma LastSplit(s: seq<Deal>)
    requires s != []
    ensures s == s[..|s| - 1] + [s[|s| - 1]]
  {
  }

  /** The tied group of a list is that of its front, followed by its last
      deal when that deal has the key. */
  lemma TiedSnoc(k: Key, s: seq<Deal>, v: real)
    requires s != []
    ensures Tied(k, s, v)
         == Tied(k, s[..|s| - 1], v) + (if KeyOf(k, s[|s| - 1]) == v then [s[|s| - 1]] else [])
  {
    var init, x := s[..|s| - 1], s[|s| - 1];
    TiedSingle(k, x, v);
    TiedConcat(k, init, [x], v);
    LastSplit(s);
  }

  /** Sorting one more deal appends it to its own tied group, as it is in
      the input: one group is kept in order if it was before. */
  lemma StableSortTiedSnoc(o: Order, s: seq<Deal>, v: real)
    requires s != []
    requires Tied(o.key, StableSort(o, s[..|s| - 1]), v) == Tied(o.key, s[..|s| - 1], v)
    ensures Tied(o.key, StableSort(o, s), v) == Tied(o.key, s, v)
  {
    var init, x := s[..|s| - 1], s[|s| - 1];
    var sorted := StableSort(o, init);
    assert StableSort(o, s) == Insert(o, sorted, x);
    InsertTied(o, sorted, x, v);
    TiedSnoc(o.key, s, v);
  }

  /** The stable sort keeps every group of tied deals in input order. */
  lemma {:induction false} StableSortStable(o: Order, s: seq<Deal>)
    ensures Stable(o.key, StableSort(o, s), s)
  {
    if s != [] {
      StableSortStable(o, s[..|s| - 1]);
      forall v ensures Tied(o.key, StableSort(o, s), v) == Tied(o.key, s, v) {
        StableSortTiedSnoc(o, s, v);
      }
    }
  }

  /** The first deal heads its own tied group. */
  lemma TiedHead(k: Key, s: seq<Deal>)
    ensures s != [] ==> Tied(k, s, KeyOf(k, s[0])) != [] && Tied(k, s, KeyOf(k, s[0]))[0] == s[0]
  {
  }

  /** Two sorted sequences with the same tied groups are equal. */
  lemma {:induction false} SortedStableUnique(o: Order, r1: seq<Deal>, r2: seq<Deal>)
    requires Sorted(o, r1) && Sorted(o, r2)
    requires forall v :: Tied(o.key, r1, v) == Tied(o.key, r2, v)
    ensures r1 == r2
  {
    TiedHead(o.key, r1);
    TiedHead(o.key, r2);
    if r1 == [] || r2 == [] {
    } else {
      var k1, k2 := KeyOf(o.key, r1[0]), KeyOf(o.key, r2[0]);
      assert r2[0] in Tied(o.key, r1, k2) by {
        assert Tied(o.key, r2, k2)[0] == r2[0];
      }
      TiedMember(o.key, r1, k2, r2[0]);
      var m1 :| 0 <= m1 < |r1| && r1[m1] == r2[0];
      assert r1[0] in Tied(o.key, r2, k1) by {
        assert Tied(o.key, r1, k1)[0] == r1[0];
      }
      TiedMember(o.key, r2, k1, r1[0]);
      var m2 :| 0 <= m2 < |r2| && r2[m2] == r1[0];
      assert m1 == 0 || !Before(o, r1[m1], r1[0]);
      assert m2 == 0 || !Before(o, r2[m2], r2[0]);
      assert k1 == k2;
      assert r1[0] == r2[0] by {
        assert Tied(o.key, r1, k1)[0] == r1[0];
        assert Tied(o.key, r2, k1)[0] == r2[0];
      }
      forall v ensures Tied(o.key, r1[1..], v) == Tied(o.key, r2[1..], v) {
        var h := if KeyOf(o.key, r1[0]) == v then [r1[0]] else [];
        assert Tied(o.key, r1, v) == h + Tied(o.key, r1[1..], v);
        assert Tied(o.key, r2, v) == h + Tied(o.key, r2[1..], v);
        assert Tied(o.key, r1[1..], v) == Tied(o.key, r1, v)[|h|..];
        assert Tied(o.key, r2[1..], v) == Tied(o.key, r2, v)[|h|..];
      }
      SortedTail(o, r1);
      SortedTail(o, r2);
      SortedStableUnique(o, r1[1..], r2[1..]);
      FirstSplit(r1);
      FirstSplit(r2);
    }
  }

  /** Any sorted sequence that keeps the tied groups of `s` in order is the
      stable sort of `s`: every stable sorting algorithm agrees with `StableSort`. */
  lemma StableSortUnique(o: Order, s: seq<Deal>, r: seq<Deal>)
    requires Sorted(o, r) && Stable(o.key, r, s)
    ensures r == StableSort(o, s)
  {
    StableSortStable(o, s);
    SortedStableUnique(o, r, StableSort(o, s));
  }

  /** Where `Insert` puts `x`: after the first `j` deals, which `x` does not
      precede, and before the rest, which it does. */
  lemma {:induction false} InsertAt(o: Order, r: seq<Deal>, x: Deal, j: nat)
    requires j <= |r|
    requires forall k :: 0 <= k < j ==> !Before(o, x, r[k])
    requires forall k :: j <= k < |r| ==> Before(o, x, r[k])
    ensures Insert(o, r, x) == r[..j] + [x] + r[j..]
  {
    if j == 0 {
      assert r[..0] == [] && r[0..] == r;
    } else {
      var t := r[1..];
      forall k | 0 <= k < j - 1 ensures !Before(o, x, t[k]) {
        assert t[k] == r[k + 1];
      }
      forall k | j - 1 <= k < |t| ensures Before(o, x, t[k]) {
        assert t[k] == r[k + 1];
      }
      InsertAt(o, t, x, j - 1);
      assert !Before(o, x, r[0]);
      calc {
        Insert(o, r, x);
        [r[0]] + Insert(o, t, x);
        [r[0]] + (t[..j - 1] + [x] + t[j - 1..]);
        { assert r[..j] == [r[0]] + t[..j - 1]; assert r[j..] == t[j - 1..]; }
        r[..j] + [x] + r[j..];
      }
    }
  }

  /** The loop of the insertion step: moves the deals of the sorted prefix
      `a[..i]` that `x` must precede one place up, from the top down, and
      returns the index of the gap it leaves. */
  method ShiftUp(a: array<Deal>, i: nat, x: Deal, o: Order, ghost done: seq<Deal>) returns (j: nat)
    requires i < a.Length && a[..i] == done
    modifies a
    ensures j <= i
    ensures j == 0 || !Before(o, x, done[j - 1])
    ensures forall k :: j <= k < i ==> Before(o, x, done[k])
    ensures forall k :: 0 <= k < j ==> a[k] == done[k]
    ensures forall k :: j < k <= i ==> a[k] == done[k - 1]
    ensures forall k :: i < k < a.Length ==> a[k] == old(a[k])
  {
    j := i;
    while j > 0 && Before(o, x, a[j - 1])
      invariant 0 <= j <= i
      invariant forall k :: 0 <= k < j ==> a[k] == done[k]
      invariant forall k :: j < k <= i ==> a[k] == done[k - 1]
      invariant forall k :: i < k < a.Length ==> a[k] == old(a[k])
      invariant forall k :: j <= k < i ==> Before(o, x, done[k])
    {
      a[j] := a[j - 1];
      j := j - 1;
    }
  }

  /** One step of the insertion sort: `a[i]` moves left past the deals of
      the sorted prefix `a[..i]` that it must precede. */
  method InsertStep(a: array<Deal>, i: nat, o: Order)
    requires i < a.Length && Sorted(o, a[..i])
    modifies a
    ensures a[..i + 1] == Insert(o, old(a[..i]), old(a[i]))
    ensures forall k :: i < k < a.Length ==> a[k] == old(a[k])
  {
    var x := a[i];
    ghost var done := a[..i];
    var j := ShiftUp(a, i, x, o, done);
    a[j] := x;
    ShiftedIsInsert(o, done, x, j, a[..i + 1]);
  }

  /** The prefix the insertion step leaves behind: the sorted deals below
      `j`, then `x`, then the deals it moved past. */
  lemma ShiftedIsInsert(o: Order, done: seq<Deal>, x: Deal, j: nat, t: seq<Deal>)
    requires Sorted(o, done) && j <= |done| && |t| == |done| + 1
    requires j == 0 || !Before(o, x, done[j - 1])
    requires forall k :: j <= k < |done| ==> Before(o, x, done[k])
    requires forall k :: 0 <= k < j ==> t[k] == done[k]
    requires t[j] == x
    requires forall k :: j < k < |t| ==> t[k] == done[k - 1]
    ensures t == Insert(o, done, x)
  {
    forall k | 0 <= k < j ensures !Before(o, x, done[k]) {
      assert k == j - 1 || !Before(o, done[j - 1], done[k]);
    }
    InsertAt(o, done, x, j);
    assert t == done[..j] + [x] + done[j..];
  }

  /** The stable sort of a longer prefix inserts the next deal into the
      stable sort of the shorter one. */
  lemma StableSortSnoc(o: Order, s: seq<Deal>, i: nat)
    requires i < |s|
    ensures StableSort(o, s[..i + 1]) == Insert(o, StableSort(o, s[..i]), s[i])
  {
    assert s[..i + 1][..i] == s[..i];
  }

  /** Python's in-place `list.sort(key=..., reverse=...)`, as an insertion sort. */
  method SortInPlace(a: array<Deal>, o: Order)
    modifies a
    ensures a[..] == StableSort(o, old(a[..]))
  {
    ghost var input := a[..];
    var i := 0;
    while i < a.Length
      invariant 0 <= i <= a.Length
      invariant a[..i] == StableSort(o, input[..i])
      invariant forall k :: i <= k < a.Length ==> a[k] == input[k]
    {
      InsertStep(a, i, o);
      StableSortSnoc(o, input, i);
      i := i + 1;
    }
    assert input[..a.Length] == input;
  }


  /** `min_price` / `max_price`: a bound that is given must hold. */
  predicate InRange(d: Deal, minPrice: Option<real>, maxPrice: Option<real>)
  {
    (minPrice.None? || d.price >= minPrice.value) && (maxPrice.None? || d.price <= maxPrice.value)
  }

  /** `[d for d in deals if d.price >= lo]` */
  function AtLeast(s: seq<Deal>, lo: real): (r: seq<Deal>)
    ensures forall d :: d in r <==> d in s && d.price >= lo
  {
    if s == [] then []
    else (if s[0].price >= lo then [s[0]] else []) + AtLeast(s[1..], lo)
  }

  /** `[d for d in deals if d.price <= hi]` */
  function AtMost(s: seq<Deal>, hi: real): (r: seq<Deal>)
    ensures forall d :: d in r <==> d in s && d.price <= hi
  {
    if s == [] then []
    else (if s[0].price <= hi then [s[0]] else []) + AtMost(s[1..], hi)
  }

  /** The two filtering comprehensions, each applied when its bound is given. */
  function PriceFilter(s: seq<Deal>, minPrice: Option<real>, maxPrice: Option<real>): (r: seq<Deal>)
    ensures forall d :: d in r <==> d in s && InRange(d, minPrice, maxPrice)
  {
    var s1 := if minPrice.Some? then AtLeast(s, minPrice.value) else s;
    if maxPrice.Some? then AtMost(s1, maxPrice.value) else s1
  }

  lemma {:induction false} AtLeastConcat(a: seq<Deal>, b: seq<Deal>, lo: real)
    ensures AtLeast(a + b, lo) == AtLeast(a, lo) + AtLeast(b, lo)
  {
    if a == [] {
      assert a + b == b;
    } else {
      assert (a + b)[1..] == a[1..] + b;
      AtLeastConcat(a[1..], b, lo);
    }
  }

  lemma {:induction false} AtMostConcat(a: seq<Deal>, b: seq<Deal>, hi: real)
    ensures AtMost(a + b, hi) == AtMost(a, hi) + AtMost(b, hi)
  {
    if a == [] {
      assert a + b == b;
    } else {
      assert (a + b)[1..] == a[1..] + b;
      AtMostConcat(a[1..], b, hi);
    }
  }

  /** Filtering keeps the relative order: the result on a concatenation is
      the concatenation of the results. */
  lemma PriceFilterConcat(a: seq<Deal>, b: seq<Deal>, minPrice: Option<real>, maxPrice: Option<real>)
    ensures PriceFilter(a + b, minPrice, maxPrice) == PriceFilter(a, minPrice, maxPrice) + PriceFilter(b, minPrice, maxPrice)
  {
    var a1 := if minPrice.Some? then AtLeast(a, minPrice.value) else a;
    var b1 := if minPrice.Some? then AtLeast(b, minPrice.value) else b;
    if minPrice.Some? {
      AtLeastConcat(a, b, minPrice.value);
    }
    if maxPrice.Some? {
      AtMostConcat(a1, b1, maxPrice.value);
    }
  }

  /** One deal passes the filter exactly when it is in range. */
  lemma PriceFilterSingle(d: Deal, minPrice: Option<real>, maxPrice: Option<real>)
    ensures PriceFilter([d], minPrice, maxPrice) == if InRange(d, minPrice, maxPrice) then [d] else []
  {
    assert [d][1..] == [];
    if minPrice.Some? {
      assert AtLeast([d], minPrice.value)
        == (if d.price >= minPrice.value then [d] else []) + AtLeast([], minPrice.value);
    }
    if maxPrice.Some? {
      assert AtMost([d], maxPrice.value)
        == (if d.price <= maxPrice.value then [d] else []) + AtMost([], maxPrice.value);
    }
  }

  lemma {:induction false} AtLeastKeepsAll(s: seq<Deal>, lo: real)
    requires forall d :: d in s ==> d.price >= lo
    ensures AtLeast(s, lo) == s
  {
    if s != [] {
      AtLeastKeepsAll(s[1..], lo);
      assert s == [s[0]] + s[1..];
    }
  }

  lemma {:induction false} AtMostKeepsAll(s: seq<Deal>, hi: real)
    requires forall d :: d in s ==> d.price <= hi
    ensures AtMost(s, hi) == s
  {
    if s != [] {
      AtMostKeepsAll(s[1..], hi);
      assert s == [s[0]] + s[1..];
    }
  }

  /** A list already within the bounds passes the filter unchanged; in
      particular filtering twice with the same bounds equals filtering once,
      and with no bounds the list is kept as it is. */
  lemma PriceFilterIdempotent(s: seq<Deal>, minPrice: Option<real>, maxPrice: Option<real>)
    ensures (forall d :: d in s ==> InRange(d, minPrice, maxPrice)) ==> PriceFilter(s, minPrice, maxPrice) == s
    ensures PriceFilter(PriceFilter(s, minPrice, maxPrice), minPrice, maxPrice) == PriceFilter(s, minPrice, maxPrice)
    ensures PriceFilter(s, None, None) == s
  {
    forall t: seq<Deal> | forall d :: d in t ==> InRange(d, minPrice, maxPrice)
      ensures PriceFilter(t, minPrice, maxPrice) == t
    {
      if minPrice.Some? {
        AtLeastKeepsAll(t, minPrice.value);
      }
      if maxPrice.Some? {
        AtMostKeepsAll(t, maxPrice.value);
      }
    }
  }

  /** The order a `sort_by` value selects; anything but the four named
      directives, `"best"` and a missing value included, sorts by score. */
  function OrderFor(sortBy: Option<string>): (o: Order)
    ensures o.key == ByPrice <==> sortBy == Some("price_low") || sortBy == Some("price_high")
    ensures o.key == ByRating <==> sortBy == Some("rating")
    ensures o.key == ByReviews <==> sortBy == Some("reviews")
    ensures o.key == ByScore <==> !IsNamedDirective(sortBy)
    ensures o.descending <==> sortBy != Some("price_low")
  {
    if sortBy == Some("price_low") then Order(ByPrice, false)
    else if sortBy == Some("price_high") then Order(ByPrice, true)
    else if sortBy == Some("rating") then Order(ByRating, true)
    else if sortBy == Some("reviews") then Order(ByReviews, true)
    else Order(ByScore, true)
  }

  /** The directive names the endpoint recognises besides the default. */
  predicate IsNamedDirective(sortBy: Option<string>)
  {
    sortBy == Some("price_low") || sortBy == Some("price_high")
    || sortBy == Some("rating") || sortBy == Some("reviews")
  }

  /** An unknown directive, `"best"` and no directive all sort by descending score. */
  lemma UnknownDirectiveIsBest(sortBy: Option<string>)
    requires !IsNamedDirective(sortBy)
    ensures OrderFor(sortBy) == OrderFor(Some("best")) == OrderFor(None) == Order(ByScore, true)
  {
  }

  /** The order a list is in, directive by directive, in the endpoint's
      terms: ascending or descending price, descending rating, review count
      or score. */
  predicate DirectiveOrder(sortBy: Option<string>, r: seq<Deal>)
  {
    && (sortBy == Some("price_low") ==>
          forall i, j :: 0 <= i < j < |r| ==> r[i].price <= r[j].price)
    && (sortBy == Some("price_high") ==>
          forall i, j :: 0 <= i < j < |r| ==> r[i].price >= r[j].price)
    && (sortBy == Some("rating") ==>
          forall i, j :: 0 <= i < j < |r| ==> RealOrZero(r[i].rating) >= RealOrZero(r[j].rating))
    && (sortBy == Some("reviews") ==>
          forall i, j :: 0 <= i < j < |r| ==> IntOrZero(r[i].reviewsCount) >= IntOrZero(r[j].reviewsCount))
    && (!IsNamedDirective(sortBy) ==>
          forall i, j :: 0 <= i < j < |r| ==> RealOrZero(r[i].qualityScore) >= RealOrZero(r[j].qualityScore))
  }

  /** Sorted under the order a directive selects means `DirectiveOrder`. */
  lemma SortedByDirective(sortBy: Option<string>, r: seq<Deal>)
    ensures Sorted(OrderFor(sortBy), r) <==> DirectiveOrder(sortBy, r)
  {
    var o := OrderFor(sortBy);
    if DirectiveOrder(sortBy, r) {
      forall i, j | 0 <= i < j < |r| ensures !Before(o, r[j], r[i]) {
      }
    }
  }

  /** Python's `list.sort`: the list is copied into an array, which is
      sorted in place. */
  method SortCopy(s: seq<Deal>, o: Order) returns (r: seq<Deal>)
    ensures r == StableSort(o, s)
  {
    var a := new Deal[|s|](i requires 0 <= i < |s| => s[i]);
    assert a[..] == s;
    SortInPlace(a, o);
    r := a[..];
  }

  /** The filter-and-sort block of `search_deals`. */
  method Rank(deals: seq<Deal>, minPrice: Option<real>, maxPrice: Option<real>, sortBy: Option<string>)
    returns (r: seq<Deal>)
    ensures r == StableSort(OrderFor(sortBy), PriceFilter(deals, minPrice, maxPrice))
    ensures multiset(r) == multiset(PriceFilter(deals, minPrice, maxPrice))
    ensures forall d :: d in r <==> d in deals && InRange(d, minPrice, maxPrice)
    ensures Stable(OrderFor(sortBy).key, r, PriceFilter(deals, minPrice, maxPrice))
    ensures DirectiveOrder(sortBy, r)
  {
    var filtered := PriceFilter(deals, minPrice, maxPrice);
    r := SortCopy(filtered, OrderFor(sortBy));
    StableSortStable(OrderFor(sortBy), filtered);
    SortedByDirective(sortBy, r);
    assert forall d :: d in r <==> d in multiset(r);
  }

  /** `s` reversed. */
  function Reverse(s: seq<Deal>): (r: seq<Deal>)
    ensures |r| == |s| && forall i :: 0 <= i < |s| ==> r[i] == s[|s| - 1 - i]
  {
    seq(|s|, i requires 0 <= i < |s| => s[|s| - 1 - i])
  }

  lemma ReverseConcat(a: seq<Deal>, b: seq<Deal>)
    ensures Reverse(a + b) == Reverse(b) + Reverse(a)
  {
    var l, r := Reverse(a + b), Reverse(b) + Reverse(a);
    forall i | 0 <= i < |l| ensures l[i] == r[i] {
      if i < |b| {
        assert l[i] == (a + b)[|a| + |b| - 1 - i] == b[|b| - 1 - i];
      } else {
        assert l[i] == (a + b)[|a| + |b| - 1 - i] == a[|a| + |b| - 1 - i];
      }
    }
  }

  /** Reversing a list reverses each of its tied groups. */
  lemma {:induction false} TiedReverse(k: Key, s: seq<Deal>, v: real)
    ensures Tied(k, Reverse(s), v) == Reverse(Tied(k, s, v))
  {
    if s != [] {
      var head := if KeyOf(k, s[0]) == v then [s[0]] else [];
      var rest := Tied(k, s[1..], v);
      assert s == [s[0]] + s[1..];
      ReverseConcat([s[0]], s[1..]);
      assert Reverse([s[0]]) == [s[0]];
      TiedConcat(k, Reverse(s[1..]), [s[0]], v);
      TiedReverse(k, s[1..], v);
      assert Tied(k, [s[0]], v) == head;
      ReverseConcat(head, rest);
      assert Reverse(head) == head;
    }
  }

  /** No two deals of `s` share a price. */
  predicate DistinctPrices(s: seq<Deal>)
  {
    forall i, j :: 0 <= i < j < |s| ==> s[i].price != s[j].price
  }

  lemma {:induction false} TiedDistinct(s: seq<Deal>, v: real)
    requires DistinctPrices(s)
    ensures |Tied(ByPrice, s, v)| <= 1
  {
    if s != [] {
      TiedDistinct(s[1..], v);
      if s[0].price == v {
        forall i | 0 <= i < |s[1..]| ensures KeyOf(ByPrice, s[1..][i]) != v {
          assert s[1..][i] == s[i + 1];
        }
        TiedNone(ByPrice, s[1..], v);
      }
    }
  }

  /** With no two equal prices, sorting by `price_high` is sorting by
      `price_low` and reversing. */
  lemma PriceHighReversesPriceLow(s: seq<Deal>)
    requires DistinctPrices(s)
    ensures StableSort(Order(ByPrice, true), s) == Reverse(StableSort(Order(ByPrice, false), s))
  {
    var low := StableSort(Order(ByPrice, false), s);
    var r := Reverse(low);
    StableSortStable(Order(ByPrice, false), s);
    forall v ensures Tied(ByPrice, r, v) == Tied(ByPrice, s, v) {
      TiedReverse(ByPrice, low, v);
      TiedDistinct(s, v);
      ReverseShort(Tied(ByPrice, s, v));
    }
    ReverseAscendingIsDescending(low);
    StableSortUnique(Order(ByPrice, true), s, r);
  }

  /** A list of at most one deal is its own reverse. Stated on its own
      so that the proofs using it stay small for the solver. */
  lemma ReverseShort(t: seq<Deal>)
    requires |t| <= 1
    ensures Reverse(t) == t
  {
  }

  /** A list in ascending price order, reversed, is in descending order. */
  lemma ReverseAscendingIsDescending(low: seq<Deal>)
    requires Sorted(Order(ByPrice, false), low)
    ensures Sorted(Order(ByPrice, true), Reverse(low))
  {
    var r := Reverse(low);
    forall i, j | 0 <= i < j < |r| ensures !Before(Order(ByPrice, true), r[j], r[i]) {
      assert r[i] == low[|low| - 1 - i] && r[j] == low[|low| - 1 - j];
      assert !Before(Order(ByPrice, false), low[|low| - 1 - i], low[|low| - 1 - j]);
    }
  }
}
