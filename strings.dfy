/**
 * Text helpers shared by every stage: Python's ordering of `str` values
 * (lexicographic by code point), the decimal rendering `str(int)`, and the
 * sorted, duplicate-free list of a column's values (`sorted(col.unique())`,
 * and the category list behind `astype('category')`).
 */
module Strings {

  /** Python's `a < b` on `str`: lexicographic by code point, a proper prefix first. */
  predicate Less(a: string, b: string)
    decreases |a|
  {
    |b| > 0 && (|a| == 0 || a[0] < b[0] || (a[0] == b[0] && Less(a[1..], b[1..])))
  }

  lemma {:induction false} LessIrreflexive(a: string)
    ensures !Less(a, a)
    decreases |a|
  {
    if |a| > 0 { LessIrreflexive(a[1..]); }
  }

  lemma {:induction false} LessTransitive(a: string, b: string, c: string)
    requires Less(a, b) && Less(b, c)
    ensures Less(a, c)
    decreases |a|
  {
    if |a| > 0 && a[0] == b[0] && b[0] == c[0] {
      LessTransitive(a[1..], b[1..], c[1..]);
    }
  }

  lemma {:induction false} LessTotal(a: string, b: string)
    requires a != b
    ensures Less(a, b) || Less(b, a)
    decreases |a|
  {
    if |a| > 0 && |b| > 0 && a[0] == b[0] {
      assert a == [a[0]] + a[1..] && b == [b[0]] + b[1..];
      LessTotal(a[1..], b[1..]);
    }
  }

  // ---------------------------------------------------------------- str(int)

  function DigitChar(d: nat): char
    requires d < 10
  {
    "0123456789"[d]
  }

  /** Decimal digits of `n`, most significant first, without leading zeros. */
  function NatToString(n: nat): (s: string)
    ensures |s| >= 1
    ensures n >= 10 ==> |s| >= 2
    ensures forall k :: 0 <= k < |s| ==> '0' <= s[k] <= '9'
    decreases n
  {
    if n < 10 then [DigitChar(n)] else NatToString(n / 10) + [DigitChar(n % 10)]
  }

  /** Python's `str(i)` for an `int`: a minus sign, then the digits of `|i|`. */
  function IntToString(i: int): (s: string)
    ensures |s| >= 1
    ensures '_' !in s
  {
    if i < 0 then "-" + NatToString(-i) else NatToString(i)
  }

  lemma {:induction false} NatToStringInjective(a: nat, b: nat)
    requires NatToString(a) == NatToString(b)
    ensures a == b
    decreases a
  {
    var sa, sb := NatToString(a), NatToString(b);
    if a < 10 && b < 10 {
      assert sa[0] == DigitChar(a) && sb[0] == DigitChar(b);
    } else if a >= 10 && b >= 10 {
      assert sa[..|sa| - 1] == NatToString(a / 10);
      assert sb[..|sb| - 1] == NatToString(b / 10);
      NatToStringInjective(a / 10, b / 10);
      assert sa[|sa| - 1] == DigitChar(a % 10) && sb[|sb| - 1] == DigitChar(b % 10);
    }
  }

  /** Different integers render differently. */
  lemma IntToStringInjective(a: int, b: int)
    requires IntToString(a) == IntToString(b)
    ensures a == b
  {
    var sa, sb := IntToString(a), IntToString(b);
    assert a < 0 ==> sa[0] == '-';
    assert b < 0 ==> sb[0] == '-';
    assert a >= 0 ==> '0' <= sa[0] <= '9';
    assert b >= 0 ==> '0' <= sb[0] <= '9';
    if a < 0 && b < 0 {
      assert sa[1..] == NatToString(-a) && sb[1..] == NatToString(-b);
      NatToStringInjective(-a, -b);
    } else if a >= 0 && b >= 0 {
      NatToStringInjective(a, b);
    }
  }

  /** A separator that occurs in neither left part splits a joined key uniquely. */
  lemma SplitAtSeparator(a: string, b: string, c: string, d: string, sep: char)
    requires sep !in a && sep !in c
    requires a + [sep] + b == c + [sep] + d
    ensures a == c && b == d
  {
    var x := a + [sep] + b;
    assert x[|a|] == sep && x[|c|] == sep;
    assert forall k :: 0 <= k < |a| ==> x[k] == a[k] != sep;
    assert forall k :: 0 <= k < |c| ==> x[k] == c[k] != sep;
    assert |a| == |c|;
    assert a == x[..|a|] == c;
    assert b == x[|a| + 1..] == d;
  }

  // ------------------------------------------------ sorted distinct values

  predicate StrictlyAscending(s: seq<string>) {
    forall i, j :: 0 <= i < j < |s| ==> Less(s[i], s[j])
  }

  /** Adds `v` to an ascending duplicate-free list, keeping it so. */
  function InsertDistinct(v: string, s: seq<string>): (r: seq<string>)
    requires StrictlyAscending(s)
    ensures StrictlyAscending(r)
    ensures forall w :: w in r <==> w == v || w in s
  {
    if s == [] then [v]
    else if v == s[0] then s
    else if Less(v, s[0]) then
      forall j | 0 <= j < |s| ensures Less(v, s[j]) {
        if j > 0 { LessTransitive(v, s[0], s[j]); }
      }
      [v] + s
    else
      LessTotal(v, s[0]);
      var rest := InsertDistinct(v, s[1..]);
      assert forall w :: w in s <==> w == s[0] || w in s[1..] by {
        assert s == [s[0]] + s[1..];
      }
      forall j | 0 <= j < |rest| ensures Less(s[0], rest[j]) {
        assert rest[j] == v || rest[j] in s[1..];
        if rest[j] != v {
          var m :| 0 <= m < |s[1..]| && s[1..][m] == rest[j];
          assert s[m + 1] == rest[j];
        }
      }
      [s[0]] + rest
  }

  /** `sorted(set(col))`: every value once, in ascending order. */
  function SortedUnique(col: seq<string>): (r: seq<string>)
    ensures StrictlyAscending(r)
    ensures forall w :: w in r <==> w in col
  {
    if col == [] then []
    else
      assert forall w :: w in col <==> w == col[0] || w in col[1..] by {
        assert col == [col[0]] + col[1..];
      }
      InsertDistinct(col[0], SortedUnique(col[1..]))
  }

  /** An ascending duplicate-free list is determined by its set of elements. */
  lemma {:induction false} AscendingDeterminedBySet(a: seq<string>, b: seq<string>)
    requires StrictlyAscending(a) && StrictlyAscending(b)
    requires forall w :: w in a <==> w in b
    ensures a == b
    decreases |a|
  {
    if a == [] {
      assert forall i :: 0 <= i < |b| ==> b[i] in b;
    } else {
      assert a[0] in b;
      FirstElementsAgree(a, b);
      LessIrreflexive(a[0]);
      forall w | w in a[1..] ensures w in b[1..] {
        var i :| 0 <= i < |a[1..]| && a[1..][i] == w;
        assert Less(a[0], a[i + 1]);
        assert w in b && w != b[0];
        assert b == [b[0]] + b[1..];
      }
      forall w | w in b[1..] ensures w in a[1..] {
        var i :| 0 <= i < |b[1..]| && b[1..][i] == w;
        assert Less(b[0], b[i + 1]);
        assert w in a && w != a[0];
        assert a == [a[0]] + a[1..];
      }
      AscendingDeterminedBySet(a[1..], b[1..]);
      assert a == [a[0]] + a[1..] && b == [b[0]] + b[1..];
    }
  }

  /** No two strings are each smaller than the other. */
  lemma LessAsymmetric(a: string, b: string)
    ensures !(Less(a, b) && Less(b, a))
  {
    LessIrreflexive(a);
    if Less(a, b) && Less(b, a) {
      LessTransitive(a, b, a);
    }
  }

  /** Two ascending lists with the same elements start with the same element. */
  lemma FirstElementsAgree(a: seq<string>, b: seq<string>)
    requires StrictlyAscending(a) && StrictlyAscending(b)
    requires forall w :: w in a <==> w in b
    requires a != [] && b != []
    ensures a[0] == b[0]
  {
    assert a[0] in b && b[0] in a;
    var k :| 0 <= k < |b| && b[k] == a[0];
    var m :| 0 <= m < |a| && a[m] == b[0];
    assert a[0] == b[0] || Less(b[0], a[0]) by {
      assert k == 0 || Less(b[0], b[k]);
    }
    assert a[0] == b[0] || Less(a[0], b[0]) by {
      assert m == 0 || Less(a[0], a[m]);
    }
    LessAsymmetric(a[0], b[0]);
  }

  /** Position of `v` in `s`, or -1 when `v` does not occur. */
  function IndexOf(s: seq<string>, v: string): (i: int)
    ensures -1 <= i < |s|
    ensures i >= 0 ==> s[i] == v
    ensures i == -1 <==> v !in s
  {
    if s == [] then -1
    else if s[0] == v then 0
    else
      var k := IndexOf(s[1..], v);
      assert v in s ==> v in s[1..] by {
        assert s == [s[0]] + s[1..];
      }
      if k == -1 then -1 else k + 1
  }

  /** In an ascending list every element sits at exactly one index, which `IndexOf` finds. */
  lemma IndexOfAscending(s: seq<string>, k: nat)
    requires StrictlyAscending(s) && k < |s|
    ensures IndexOf(s, s[k]) == k
  {
    var i := IndexOf(s, s[k]);
    assert s[k] in s;
    forall p, q | 0 <= p < q < |s| ensures s[p] != s[q] {
      LessIrreflexive(s[p]);
    }
  }
}
