/**
 * A stable insertion sort over an arbitrary comparator, with the three facts every
 * sort in the system relies on: the output is ordered, it is a permutation of the
 * input, and elements that compare equal keep their input order (stability).
 */
module Sorting {

  /** `le` is total and transitive, so "le both ways" is an equivalence of ties. */
  ghost predicate TotalPreorder<T(!new)>(le: (T, T) -> bool) {
    && (forall x, y :: le(x, y) || le(y, x))
    && (forall x, y, z :: le(x, y) && le(y, z) ==> le(x, z))
  }

  predicate SortedBy<T>(s: seq<T>, le: (T, T) -> bool) {
    forall i, j :: 0 <= i < j < |s| ==> le(s[i], s[j])
  }

  /** Two elements tie when each is `le` the other. */
  predicate Tie<T>(le: (T, T) -> bool, x: T, y: T) {
    le(x, y) && le(y, x)
  }

  /** The elements of `s` that tie with `p`, in the order `s` has them. */
  function Ties<T>(s: seq<T>, le: (T, T) -> bool, p: T): (r: seq<T>)
    ensures |r| <= |s|
  {
    if s == [] then [] else (if Tie(le, s[0], p) then [s[0]] else []) + Ties(s[1..], le, p)
  }

  /** Places `x` before the first element it is `le`, so `x` stays ahead of its ties. */
  function Insert<T>(x: T, s: seq<T>, le: (T, T) -> bool): (r: seq<T>)
    ensures |r| == |s| + 1
    ensures multiset(r) == multiset(s) + multiset{x}
  {
    if s == [] || le(x, s[0]) then [x] + s
    else
      assert s == [s[0]] + s[1..];
      [s[0]] + Insert(x, s[1..], le)
  }

  /** Stable insertion sort: each element is inserted ahead of the sorted rest. */
  function Sort<T>(s: seq<T>, le: (T, T) -> bool): (r: seq<T>)
    ensures |r| == |s|
    ensures multiset(r) == multiset(s)
  {
    if s == [] then []
    else
      assert s == [s[0]] + s[1..];
      Insert(s[0], Sort(s[1..], le), le)
  }

  lemma {:induction false} InsertSorted<T(!new)>(x: T, s: seq<T>, le: (T, T) -> bool)
    requires TotalPreorder(le) && SortedBy(s, le)
    ensures SortedBy(Insert(x, s, le), le)
  {
    if s != [] && !le(x, s[0]) {
      var rest := Insert(x, s[1..], le);
      InsertSorted(x, s[1..], le);
      assert le(s[0], x);
      forall k | 0 <= k < |rest| ensures le(s[0], rest[k]) {
        assert rest[k] in multiset(rest);
        assert rest[k] in multiset(s[1..]) || rest[k] == x;
        if rest[k] != x {
          var m :| 0 <= m < |s[1..]| && s[1..][m] == rest[k];
          assert s[1 + m] == rest[k];
        }
      }
      var r := [s[0]] + rest;
      forall i, j | 0 <= i < j < |r| ensures le(r[i], r[j]) {
        if i > 0 { assert r[i] == rest[i - 1] && r[j] == rest[j - 1]; }
        else { assert r[j] == rest[j - 1]; }
      }
    }
  }

  /** The sort's output is ordered by `le`. */
  lemma {:induction false} SortSorted<T(!new)>(s: seq<T>, le: (T, T) -> bool)
    requires TotalPreorder(le)
    ensures SortedBy(Sort(s, le), le)
  {
    if s != [] {
      SortSorted(s[1..], le);
      InsertSorted(s[0], Sort(s[1..], le), le);
    }
  }

  lemma {:induction false} InsertTies<T(!new)>(x: T, s: seq<T>, le: (T, T) -> bool, p: T)
    requires TotalPreorder(le)
    ensures Ties(Insert(x, s, le), le, p) == (if Tie(le, x, p) then [x] else []) + Ties(s, le, p)
  {
    if s == [] || le(x, s[0]) {
      assert ([x] + s)[1..] == s;
    } else {
      InsertTies(x, s[1..], le, p);
      var rest := Insert(x, s[1..], le);
      var head := if Tie(le, s[0], p) then [s[0]] else [];
      var mid := if Tie(le, x, p) then [x] else [];
      assert Insert(x, s, le) == [s[0]] + rest;
      assert ([s[0]] + rest)[1..] == rest;
      assert Ties(Insert(x, s, le), le, p) == head + (mid + Ties(s[1..], le, p));
      assert Ties(s, le, p) == head + Ties(s[1..], le, p);
      // s[0] is strictly below x, so x and s[0] cannot both tie with p
      var y := s[0];
      assert le(x, p) && le(p, y) ==> le(x, y);
      assert !(Tie(le, x, p) && Tie(le, y, p));
    }
  }

  /** Stability: the elements tying with any `p` come out in the order they went in. */
  lemma {:induction false} SortStable<T(!new)>(s: seq<T>, le: (T, T) -> bool, p: T)
    requires TotalPreorder(le)
    ensures Ties(Sort(s, le), le, p) == Ties(s, le, p)
  {
    if s != [] {
      SortStable(s[1..], le, p);
      InsertTies(s[0], Sort(s[1..], le), le, p);
    }
  }

  /** Sorting a sequence that is already ordered leaves it unchanged. */
  lemma {:induction false} SortOfSorted<T>(s: seq<T>, le: (T, T) -> bool)
    requires SortedBy(s, le)
    ensures Sort(s, le) == s
  {
    if s != [] {
      SortOfSorted(s[1..], le);
      assert Sort(s[1..], le) == s[1..];
    }
  }
}
