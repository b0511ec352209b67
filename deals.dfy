/** The Deal record of the search API and the small value helpers shared by
    the scoring, ranking, synthesis and pitch modules. */
module Deals {

  datatype Option<+T> = None | Some(value: T)

  /** A point in time; the service only stores the clock reading. */
  type Timestamp = int

  /** One offer from one retail platform. Optional fields are `None` when the
      producer leaves them out. */
  datatype Deal = Deal(
    platform: string,
    title: string,
    price: real,
    originalPrice: Option<real>,
    discountPercent: Option<real>,
    rating: Option<real>,
    reviewsCount: Option<int>,
    qualityScore: Option<real>,
    imageUrls: seq<string>,
    productUrl: Option<string>,
    delivery: Option<string>,
    createdAt: Option<Timestamp>)

  /** Python's `x or 0` on an optional float: a missing value counts as 0. */
  function RealOrZero(o: Option<real>): real
  {
    match o
    case None => 0.0
    case Some(v) => v
  }

  /** Python's `x or 0` on an optional int, as a real sort key. */
  function IntOrZero(o: Option<int>): real
  {
    match o
    case None => 0.0
    case Some(n) => n as real
  }

  function Min(a: int, b: int): int { if a <= b then a else b }

  function MaxReal(a: real, b: real): (r: real)
    ensures r >= a && r >= b && (r == a || r == b)
  {
    if a >= b then a else b
  }

  function MinReal(a: real, b: real): (r: real)
    ensures r <= a && r <= b && (r == a || r == b)
  {
    if a <= b then a else b
  }

  /** Python's `int(x)` on a float: the integer part, truncated toward zero. */
  function Trunc(x: real): (n: int)
    ensures x >= 0.0 ==> 0 <= n && n as real <= x < n as real + 1.0
    ensures x < 0.0 ==> n <= 0 && n as real - 1.0 < x <= n as real
  {
    if x >= 0.0 then x.Floor else -((-x).Floor)
  }

  /** The decimal digit character for `d`. */
  function DigitChar(d: nat): (c: char)
    requires d < 10
    ensures '0' <= c <= '9'
  {
    ('0' as int + d) as char
  }

  /** The value of a decimal digit character. */
  function DigitValue(c: char): nat
    requires '0' <= c <= '9'
  {
    c as int - '0' as int
  }

  /** `s` is made of decimal digits only. */
  predicate AllDigits(s: string)
  {
    forall i :: 0 <= i < |s| ==> '0' <= s[i] <= '9'
  }

  /** The number a string of decimal digits denotes, the last digit being
      the least significant. */
  function DigitsValue(s: string): nat
    requires AllDigits(s)
  {
    if s == [] then 0 else DigitsValue(s[..|s| - 1]) * 10 + DigitValue(s[|s| - 1])
  }

  /** Python's `str(n)` on a non-negative integer: the decimal numeral of
      `n`, without leading zeros. */
  function NatToString(n: nat): (r: string)
    ensures |r| >= 1 && AllDigits(r)
    ensures DigitsValue(r) == n
    ensures r[0] == '0' ==> n == 0
  {
    if n < 10 then [DigitChar(n)]
    else
      var front := NatToString(n / 10);
      var r := front + [DigitChar(n % 10)];
      assert r[..|r| - 1] == front;
      r
  }

  /** Python's `str(n)` on an integer: a minus sign in front of the numeral
      of a negative number. */
  function IntToString(n: int): (r: string)
    ensures n >= 0 ==> |r| >= 1 && AllDigits(r) && DigitsValue(r) == n && (r[0] == '0' ==> n == 0)
    ensures n < 0 ==> |r| >= 2 && r[0] == '-' && AllDigits(r[1..]) && DigitsValue(r[1..]) == -n
    ensures n < 0 ==> r[1] != '0'
  {
    if n >= 0 then NatToString(n)
    else
      var digits := NatToString(-n);
      assert ("-" + digits)[1..] == digits;
      "-" + digits
  }

  /** `q` occurs in `t` starting at index `i`. */
  predicate OccursAt(q: string, t: string, i: int)
  {
    0 <= i && i + |q| <= |t| && t[i..i + |q|] == q
  }

  /** Each part of a concatenation occurs in it where it was put. */
  lemma OccursAtJoin(a: string, b: string)
    ensures OccursAt(a, a + b, 0) && OccursAt(b, a + b, |a|)
  {
    assert (a + b)[0..|a|] == a;
    assert (a + b)[|a|..|a| + |b|] == b;
  }

  /** An occurrence moves along when text is put in front. */
  lemma OccursAtPrefixed(q: string, t: string, i: int, pre: string)
    requires OccursAt(q, t, i)
    ensures OccursAt(q, pre + t, |pre| + i)
  {
    assert (pre + t)[|pre| + i..|pre| + i + |q|] == t[i..i + |q|];
  }

  /** An occurrence stays where it is when text is put behind. */
  lemma OccursAtSuffixed(q: string, t: string, i: int, post: string)
    requires OccursAt(q, t, i)
    ensures OccursAt(q, t + post, i)
  {
    assert (t + post)[i..i + |q|] == t[i..i + |q|];
  }

  /** Python's `q in t` on strings. */
  predicate Contains(t: string, q: string)
  {
    exists i :: 0 <= i <= |t| && OccursAt(q, t, i)
  }

  /** If `t` is a concatenation with `q` as its middle part, `t` contains `q`. */
  lemma ContainsMiddle(pre: string, q: string, post: string)
    ensures Contains(pre + q + post, q)
  {
    var t := pre + q + post;
    assert t[|pre|..|pre| + |q|] == q;
    assert OccursAt(q, t, |pre|);
  }

  /** Containment survives putting more text around the containing string. */
  lemma ContainsWiden(pre: string, t: string, post: string, q: string)
    requires Contains(t, q)
    ensures Contains(pre + t + post, q)
  {
    var i :| 0 <= i <= |t| && OccursAt(q, t, i);
    assert i + |q| <= |t|;
    var w := pre + t + post;
    assert w[|pre| + i..|pre| + i + |q|] == t[i..i + |q|];
    assert OccursAt(q, w, |pre| + i);
  }

  /** Containment is transitive. */
  lemma ContainsTransitive(t: string, m: string, q: string)
    requires Contains(t, m) && Contains(m, q)
    ensures Contains(t, q)
  {
    var i :| 0 <= i <= |t| && OccursAt(m, t, i);
    var j :| 0 <= j <= |m| && OccursAt(q, m, j);
    assert t[i..i + |m|] == m;
    forall k | 0 <= k < |q| ensures t[i + j + k] == q[k] {
      assert t[i..i + |m|][j + k] == m[j + k];
      assert m[j..j + |q|][k] == q[k];
    }
    assert t[i + j..i + j + |q|] == q;
    assert OccursAt(q, t, i + j);
  }

  /** Containment survives putting more text in front. */
  lemma ContainsPrefixed(pre: string, t: string, q: string)
    requires Contains(t, q)
    ensures Contains(pre + t, q)
  {
    ContainsWiden(pre, t, "", q);
    assert pre + t + "" == pre + t;
  }
}
