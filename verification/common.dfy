/**
 The shared vocabulary of the model: optional values, the integer forms of
 the JavaScript arithmetic the service relies on (`Math.round`, `Math.ceil`,
 the `Math.max(1, parseInt(x) || d)` query clamp) and the result window that
 both `Array.prototype.slice(skip, skip + limit)` and a MongoDB
 `.skip(skip).limit(limit)` produce.
 */
module Common {

  datatype Option<+T> = None | Some(value: T)

  /** The outcome of an operation that can be refused. */
  datatype Result<+T, +E> = Ok(value: T) | Err(error: E)

  function Min(a: int, b: int): int { if a <= b then a else b }

  function Max(a: int, b: int): int { if a >= b then a else b }

  /** `Math.ceil(n / d)` for a non-negative count and a positive divisor. */
  function CeilDiv(n: nat, d: nat): (q: nat)
    requires 0 < d
    ensures n <= d * q
    ensures 0 < q ==> d * (q - 1) < n
  {
    var q := (n + d - 1) / d;
    assert d * q + (n + d - 1) % d == n + d - 1;
    q
  }

  /** `Math.round(100 * a / b)` for `0 <= a` and `0 < b`, taken over the
      rationals: the integer nearest to `100 * a / b`, halves rounded up. */
  function RoundPercent(a: nat, b: nat): (r: nat)
    requires 0 < b
    ensures 2 * b * r <= 200 * a + b < 2 * b * r + 2 * b
  {
    var r := (200 * a + b) / (2 * b);
    assert (2 * b) * r + (200 * a + b) % (2 * b) == 200 * a + b;
    r
  }

  lemma {:induction false} RoundPercentAtMost100(a: nat, b: nat)
    requires 0 < b && a <= b
    ensures RoundPercent(a, b) <= 100
  {
    var r := RoundPercent(a, b);
    if r > 100 {
      assert 2 * b * r >= 2 * b * 101 by {
        MulMonotone(2 * b, 101, r);
      }
      assert false;
    }
  }

  lemma MulMonotone(k: nat, x: int, y: int)
    requires x <= y
    ensures k * x <= k * y
  {
    assert k * y - k * x == k * (y - x);
  }

  /** The query clamp `Math.max(1, parseInt(x) || d)`: an absent or unparsable
      parameter (`None`) and the falsy value 0 both give the default. */
  function ClampParam(p: Option<int>, d: nat): (r: nat)
    requires 1 <= d
    ensures 1 <= r
    ensures p.None? ==> r == d
    ensures p.Some? && p.value == 0 ==> r == d
    ensures p.Some? && 1 <= p.value ==> r == p.value
    ensures p.Some? && p.value < 0 ==> r == 1
  {
    var parsed := if p.Some? && p.value != 0 then p.value else d;
    Max(1, parsed)
  }

  /** `s.slice(skip, skip + limit)`: at most `limit` consecutive elements of `s`,
      starting at position `skip`. */
  function Window<T>(s: seq<T>, skip: nat, limit: nat): (w: seq<T>)
    ensures |w| == Min(limit, Max(0, |s| - skip))
    ensures forall i :: 0 <= i < |w| ==> w[i] == s[skip + i]
  {
    if skip >= |s| then [] else s[skip..Min(|s|, skip + limit)]
  }

  /** `Array.prototype.filter`: the elements that pass, in order. */
  function FilterBy<T(!new)>(s: seq<T>, keep: T -> bool): (r: seq<T>)
    ensures |r| <= |s|
    ensures forall i :: 0 <= i < |r| ==> keep(r[i])
    ensures forall x :: x in r <==> x in s && keep(x)
  {
    if |s| == 0 then []
    else
      var init := s[..|s| - 1];
      var rest := FilterBy(init, keep);
      assert s == init + [s[|s| - 1]];
      if keep(s[|s| - 1]) then rest + [s[|s| - 1]] else rest
  }

  /** The filter keeps each passing element as often as it occurs, and
      nothing else. */
  lemma {:induction false} FilterMultiplicity<T(!new)>(s: seq<T>, keep: T -> bool)
    ensures forall x :: multiset(FilterBy(s, keep))[x] == if keep(x) then multiset(s)[x] else 0
  {
    if |s| > 0 {
      var init := s[..|s| - 1];
      FilterMultiplicity(init, keep);
      FilterLast(s, keep);
      assert s == init + [s[|s| - 1]];
    }
  }

  /** Filtering distributes over concatenation. */
  lemma {:induction false} FilterConcat<T(!new)>(a: seq<T>, b: seq<T>, keep: T -> bool)
    ensures FilterBy(a + b, keep) == FilterBy(a, keep) + FilterBy(b, keep)
  {
    if |b| == 0 {
      assert a + b == a;
    } else {
      var init := b[..|b| - 1];
      var last := [b[|b| - 1]];
      var kept := if keep(b[|b| - 1]) then last else [];
      var ab := a + b;
      assert ab[..|ab| - 1] == a + init && ab[|ab| - 1] == b[|b| - 1];
      calc {
        FilterBy(ab, keep);
        { FilterLast(ab, keep); }
        FilterBy(a + init, keep) + kept;
        { FilterConcat(a, init, keep); }
        (FilterBy(a, keep) + FilterBy(init, keep)) + kept;
        FilterBy(a, keep) + (FilterBy(init, keep) + kept);
        { FilterLast(b, keep); }
        FilterBy(a, keep) + FilterBy(b, keep);
      }
    }
  }

  /** A filter every element passes keeps the whole sequence. */
  lemma {:induction false} FilterKeepsAll<T(!new)>(s: seq<T>, keep: T -> bool)
    requires forall i :: 0 <= i < |s| ==> keep(s[i])
    ensures FilterBy(s, keep) == s
  {
    if |s| > 0 {
      var init := s[..|s| - 1];
      assert forall i :: 0 <= i < |init| ==> keep(init[i]) by {
        forall i | 0 <= i < |init|
          ensures keep(init[i])
        {
          assert init[i] == s[i];
        }
      }
      FilterKeepsAll(init, keep);
      FilterLast(s, keep);
      assert init + [s[|s| - 1]] == s;
    }
  }

  /** One unfolding of `FilterBy`: the last element is kept or dropped. */
  lemma FilterLast<T(!new)>(s: seq<T>, keep: T -> bool)
    requires 0 < |s|
    ensures FilterBy(s, keep) == FilterBy(s[..|s| - 1], keep) + (if keep(s[|s| - 1]) then [s[|s| - 1]] else [])
  {
  }

  /** One field of every row of a table, in row order. */
  function Column<R, X>(rows: seq<R>, field: R -> X): (xs: seq<X>)
    ensures |xs| == |rows|
    ensures forall i :: 0 <= i < |rows| ==> xs[i] == field(rows[i])
  {
    seq(|rows|, i requires 0 <= i < |rows| => field(rows[i]))
  }

  /** The sum of a sequence of counts. */
  function SumOf(xs: seq<nat>): nat
  {
    if |xs| == 0 then 0 else SumOf(xs[..|xs| - 1]) + xs[|xs| - 1]
  }

  /** The sum of a sequence of reals. */
  function SumReal(xs: seq<real>): real
  {
    if |xs| == 0 then 0.0 else SumReal(xs[..|xs| - 1]) + xs[|xs| - 1]
  }

  /** `s.slice().reverse()`. */
  function Reverse<T>(s: seq<T>): (r: seq<T>)
    ensures |r| == |s|
    ensures forall k :: 0 <= k < |s| ==> r[k] == s[|s| - 1 - k]
  {
    if |s| == 0 then [] else [s[|s| - 1]] + Reverse(s[..|s| - 1])
  }

  /** The `pagination` object of a listing response. */
  datatype Pagination = Pagination(total: nat, page: nat, limit: nat, pages: nat)

  /** The pagination the service reports for `total` matches: `pages` is
      `Math.ceil(total / limit)`. */
  function Paginate(total: nat, page: nat, limit: nat): (p: Pagination)
    requires 0 < limit
    ensures p.total == total && p.page == page && p.limit == limit
    ensures p.pages * limit >= total
    ensures p.pages == 0 <==> total == 0
    ensures 0 < p.pages ==> (p.pages - 1) * limit < total
  {
    Pagination(total, page, limit, CeilDiv(total, limit))
  }

  /** The matches page `page` skips. */
  function Skip(page: nat, limit: nat): nat
    requires 1 <= page
  {
    (page - 1) * limit
  }

  /** A listing response: one page of the matches, and the pagination. */
  datatype Listing<T> = Listing(data: seq<T>, pagination: Pagination)

  /** `.skip((page - 1) * limit).limit(limit)` over all the matches, with
      `total` counting the matches before the page is cut. */
  function Page<T>(matches: seq<T>, page: nat, limit: nat): (r: Listing<T>)
    requires 1 <= page && 1 <= limit
    ensures r.pagination == Paginate(|matches|, page, limit)
    ensures |r.data| == Min(limit, Max(0, |matches| - Skip(page, limit)))
    ensures forall i :: 0 <= i < |r.data| ==> r.data[i] == matches[Skip(page, limit) + i]
  {
    Listing(Window(matches, Skip(page, limit), limit), Paginate(|matches|, page, limit))
  }

  /** A page holds only matches, and at most `limit` of them. */
  lemma PageMembers<T>(matches: seq<T>, page: nat, limit: nat)
    requires 1 <= page && 1 <= limit
    ensures |Page(matches, page, limit).data| <= limit
    ensures forall x :: x in Page(matches, page, limit).data ==> x in matches
  {
    var r := Page(matches, page, limit);
    forall x | x in r.data
      ensures x in matches
    {
      var i :| 0 <= i < |r.data| && r.data[i] == x;
      assert x == matches[Skip(page, limit) + i];
    }
  }

  /** The number of items page `page` shows: everything after the first
      `(page - 1) * limit` matches, at most `limit` of them. */
  lemma {:induction false} WindowOfPage<T>(s: seq<T>, page: nat, limit: nat)
    requires 1 <= page && 1 <= limit
    ensures (page - 1) * limit + limit <= |s| ==> |Window(s, (page - 1) * limit, limit)| == limit
    ensures |s| <= (page - 1) * limit ==> |Window(s, (page - 1) * limit, limit)| == 0
    ensures page == CeilDiv(|s|, limit) ==>
              |Window(s, (page - 1) * limit, limit)| == |s| - (page - 1) * limit
  {
    var skip := (page - 1) * limit;
    var q := CeilDiv(|s|, limit);
    if page == q {
      assert skip < |s|;
      assert |s| <= limit * page;
      assert limit * page == skip + limit;
    }
  }
}
