/**
 `Array.prototype.sort` with a comparator, as the listing uses it: a stable
 sort by a "comes no later than" relation. The relation must be a total
 preorder (every two elements comparable, transitive); ties keep their input
 order.
 */
module Sorting {

  import opened Common

  /** `le(a, b)`: `a` may come before `b`. */
  ghost predicate TotalPreorder<T(!new)>(le: (T, T) -> bool)
  {
    && (forall a, b :: le(a, b) || le(b, a))
    && (forall a, b, c :: le(a, b) && le(b, c) ==> le(a, c))
  }

  predicate SortedBy<T>(s: seq<T>, le: (T, T) -> bool)
  {
    forall i, j :: 0 <= i < j < |s| ==> le(s[i], s[j])
  }

  /** Inserts `x` after every leading element that may come before it, so in
      a sorted sequence it lands behind its ties. */
  function InsertBy<T>(x: T, s: seq<T>, le: (T, T) -> bool): (r: seq<T>)
    ensures multiset(r) == multiset(s) + multiset{x}
  {
    if |s| == 0 then [x]
    else if le(s[0], x) then
      assert s == [s[0]] + s[1..];
      [s[0]] + InsertBy(x, s[1..], le)
    else [x] + s
  }

  lemma {:induction false} InsertBySorted<T(!new)>(x: T, s: seq<T>, le: (T, T) -> bool)
    requires TotalPreorder(le)
    requires SortedBy(s, le)
    ensures SortedBy(InsertBy(x, s, le), le)
  {
    if |s| > 0 {
      if le(s[0], x) {
        var tail := s[1..];
        assert SortedBy(tail, le) by {
          forall i, j | 0 <= i < j < |tail|
            ensures le(tail[i], tail[j])
          {
            assert tail[i] == s[i + 1] && tail[j] == s[j + 1];
          }
        }
        InsertBySorted(x, tail, le);
        var rest := InsertBy(x, tail, le);
        var r := [s[0]] + rest;
        forall k | 0 <= k < |rest|
          ensures le(s[0], rest[k])
        {
          assert rest[k] in multiset(rest);
          if rest[k] != x {
            assert rest[k] in multiset(tail);
            var j :| 0 <= j < |tail| && tail[j] == rest[k];
            assert tail[j] == s[j + 1];
          }
        }
        forall i, j | 0 <= i < j < |r|
          ensures le(r[i], r[j])
        {
          if i > 0 {
            assert r[i] == rest[i - 1] && r[j] == rest[j - 1];
          } else {
            assert r[j] == rest[j - 1];
          }
        }
      } else {
        assert le(x, s[0]);
        var r := [x] + s;
        forall i, j | 0 <= i < j < |r|
          ensures le(r[i], r[j])
        {
          if i > 0 {
            assert r[i] == s[i - 1] && r[j] == s[j - 1];
          } else {
            assert le(s[0], s[j - 1]) || j - 1 == 0;
          }
        }
      }
    }
  }

  lemma ConcatAssoc<T>(a: seq<T>, b: seq<T>, c: seq<T>)
    ensures a + (b + c) == (a + b) + c
  {
  }

  /** The elements tied with `c`: each may come before the other. */
  function Tie<T>(le: (T, T) -> bool, c: T): T -> bool
  {
    (y: T) => le(c, y) && le(y, c)
  }

  /** Inserting into a sorted sequence puts `x` behind every element tied
      with it, so each class of ties gains `x` at its end or not at all. */
  lemma {:induction false} InsertByTies<T(!new)>(x: T, s: seq<T>, le: (T, T) -> bool, c: T)
    requires TotalPreorder(le)
    requires SortedBy(s, le)
    ensures FilterBy(InsertBy(x, s, le), Tie(le, c))
            == FilterBy(s, Tie(le, c)) + (if Tie(le, c)(x) then [x] else [])
  {
    var p := Tie(le, c);
    var tail := if p(x) then [x] else [];
    if |s| == 0 {
      FilterLast([x], p);
      assert [x][..0] == [];
    } else if le(s[0], x) {
      var rest := s[1..];
      assert SortedBy(rest, le) by {
        forall i, j | 0 <= i < j < |rest|
          ensures le(rest[i], rest[j])
        {
          assert rest[i] == s[i + 1] && rest[j] == s[j + 1];
        }
      }
      InsertByTies(x, rest, le, c);
      InsertBehindHead(x, s, le, p, tail);
    } else {
      InsertInFront(x, s, le, c);
    }
  }

  /** The step of `InsertByTies` when `x` goes behind the first element. */
  lemma InsertBehindHead<T(!new)>(x: T, s: seq<T>, le: (T, T) -> bool, p: T -> bool, tail: seq<T>)
    requires 0 < |s| && le(s[0], x)
    requires FilterBy(InsertBy(x, s[1..], le), p) == FilterBy(s[1..], p) + tail
    ensures FilterBy(InsertBy(x, s, le), p) == FilterBy(s, p) + tail
  {
    var rest := s[1..];
    var head := FilterBy([s[0]], p);
    assert s == [s[0]] + rest;
    calc {
      FilterBy(InsertBy(x, s, le), p);
      FilterBy([s[0]] + InsertBy(x, rest, le), p);
      { FilterConcat([s[0]], InsertBy(x, rest, le), p); }
      head + (FilterBy(rest, p) + tail);
      { ConcatAssoc(head, FilterBy(rest, p), tail); }
      (head + FilterBy(rest, p)) + tail;
      { FilterConcat([s[0]], rest, p); }
      FilterBy(s, p) + tail;
    }
  }

  /** The step of `InsertByTies` when `x` goes in front: the sequence holds
      nothing tied with `x`. */
  lemma InsertInFront<T(!new)>(x: T, s: seq<T>, le: (T, T) -> bool, c: T)
    requires TotalPreorder(le)
    requires SortedBy(s, le)
    requires 0 < |s| && !le(s[0], x)
    ensures FilterBy(InsertBy(x, s, le), Tie(le, c))
            == FilterBy(s, Tie(le, c)) + (if Tie(le, c)(x) then [x] else [])
  {
    var p := Tie(le, c);
    assert InsertBy(x, s, le) == [x] + s;
    FilterConcat([x], s, p);
    FilterLast([x], p);
    assert [x][..0] == [];
    if p(x) {
      TiesBeforeGreater(x, s, le, c);
    }
  }

  /** When `x` is tied with `c` and comes strictly before the first element
      of a sorted sequence, no element of the sequence is tied with `c`. */
  lemma TiesBeforeGreater<T(!new)>(x: T, s: seq<T>, le: (T, T) -> bool, c: T)
    requires TotalPreorder(le)
    requires SortedBy(s, le)
    requires 0 < |s| && !le(s[0], x) && Tie(le, c)(x)
    ensures FilterBy(s, Tie(le, c)) == []
  {
    var p := Tie(le, c);
    forall y | y in s
      ensures !p(y)
    {
      var j :| 0 <= j < |s| && s[j] == y;
      assert j == 0 || le(s[0], s[j]);
    }
  }

  /** The stable sort: each element is inserted behind the already sorted
      elements that may come before it, so elements tied under `le` keep
      their input order. */
  function SortBy<T(!new)>(s: seq<T>, le: (T, T) -> bool): (r: seq<T>)
    requires TotalPreorder(le)
    ensures |r| == |s|
    ensures multiset(r) == multiset(s)
    ensures SortedBy(r, le)
    ensures forall c :: FilterBy(r, Tie(le, c)) == FilterBy(s, Tie(le, c))
  {
    if |s| == 0 then []
    else
      var init := SortBy(s[..|s| - 1], le);
      var x := s[|s| - 1];
      assert s == s[..|s| - 1] + [x];
      InsertBySorted(x, init, le);
      var r := InsertBy(x, init, le);
      assert |r| == |multiset(r)|;
      assert forall c :: FilterBy(r, Tie(le, c)) == FilterBy(s, Tie(le, c)) by {
        forall c
          ensures FilterBy(r, Tie(le, c)) == FilterBy(s, Tie(le, c))
        {
          InsertByTies(x, init, le, c);
          FilterLast(s, Tie(le, c));
        }
      }
      r
  }

  /** The sorted sequence holds exactly the elements of the input. */
  lemma SortByMembers<T(!new)>(s: seq<T>, le: (T, T) -> bool)
    requires TotalPreorder(le)
    ensures forall x :: x in SortBy(s, le) <==> x in s
  {
    var r := SortBy(s, le);
    forall x
      ensures x in r <==> x in s
    {
      assert x in r <==> x in multiset(r);
      assert x in s <==> x in multiset(s);
    }
  }

  /** A page of a sorted sequence is sorted. */
  lemma PageSorted<T>(s: seq<T>, page: nat, limit: nat, le: (T, T) -> bool)
    requires 1 <= page && 1 <= limit
    requires SortedBy(s, le)
    ensures SortedBy(Page(s, page, limit).data, le)
  {
    var w := Page(s, page, limit).data;
    forall i, j | 0 <= i < j < |w|
      ensures le(w[i], w[j])
    {
      assert w[i] == s[Skip(page, limit) + i] && w[j] == s[Skip(page, limit) + j];
    }
  }
}
