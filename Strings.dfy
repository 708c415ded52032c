/** The few operations on Python `str` values that the cache relies on:
    ordering and `sorted()`, the substring test `a in b`, and
    `"\n".join(...)`. Strings are sequences of code points. */
module Strings {

  /** Python's `a < b` on strings: code-point lexicographic order, where a
      proper prefix comes first. */
  predicate Below(a: string, b: string)
  {
    |b| > 0 && (|a| == 0 || a[0] < b[0] || (a[0] == b[0] && Below(a[1..], b[1..])))
  }

  lemma {:induction false} BelowIrreflexive(a: string)
    ensures !Below(a, a)
  {
    if |a| > 0 {
      BelowIrreflexive(a[1..]);
    }
  }

  lemma {:induction false} BelowAsymmetric(a: string, b: string)
    ensures !(Below(a, b) && Below(b, a))
  {
    if |a| > 0 && |b| > 0 && a[0] == b[0] {
      BelowAsymmetric(a[1..], b[1..]);
    }
  }

  lemma {:induction false} BelowTransitive(a: string, b: string, c: string)
    requires Below(a, b) && Below(b, c)
    ensures Below(a, c)
  {
    if |a| > 0 && a[0] == b[0] && b[0] == c[0] {
      BelowTransitive(a[1..], b[1..], c[1..]);
    }
  }

  lemma {:induction false} BelowTotal(a: string, b: string)
    requires a != b
    ensures Below(a, b) || Below(b, a)
  {
    if |a| > 0 && |b| > 0 && a[0] == b[0] {
      assert a == [a[0]] + a[1..] && b == [b[0]] + b[1..];
      BelowTotal(a[1..], b[1..]);
    }
  }

  /** `m` is the smallest string of `s`. */
  predicate IsLeast(m: string, s: set<string>)
  {
    m in s && forall y | y in s :: y == m || Below(m, y)
  }

  lemma {:induction false} LeastExists(s: set<string>)
    requires s != {}
    ensures exists m :: IsLeast(m, s)
    decreases |s|
  {
    var x :| x in s;
    if s == {x} {
      assert IsLeast(x, s);
    } else {
      LeastExists(s - {x});
      var m :| IsLeast(m, s - {x});
      if Below(m, x) {
        assert IsLeast(m, s);
      } else {
        BelowTotal(m, x);
        forall y | y in s
          ensures y == x || Below(x, y)
        {
          if y != x && y != m {
            BelowTransitive(x, m, y);
          }
        }
        assert IsLeast(x, s);
      }
    }
  }

  lemma LeastUnique(s: set<string>)
    ensures forall m1, m2 | IsLeast(m1, s) && IsLeast(m2, s) :: m1 == m2
  {
    forall m1, m2 | IsLeast(m1, s) && IsLeast(m2, s)
      ensures m1 == m2
    {
      BelowAsymmetric(m1, m2);
    }
  }

  /** Python's `sorted()` applied to a set of strings (the keys of a dict):
      every element exactly once, in increasing order. */
  function Sorted(s: set<string>): (r: seq<string>)
    ensures |r| == |s|
    ensures forall x :: x in r <==> x in s
    ensures forall i, j | 0 <= i < j < |r| :: Below(r[i], r[j])
    decreases |s|
  {
    if s == {} then []
    else
      LeastExists(s);
      LeastUnique(s);
      var m :| IsLeast(m, s);
      var rest := Sorted(s - {m});
      assert forall j | 0 <= j < |rest| :: Below(m, rest[j]) by {
        forall j | 0 <= j < |rest| ensures Below(m, rest[j]) {
          assert rest[j] in s - {m};
        }
      }
      [m] + rest
  }

  /** A sorted list of a set holds no element twice. */
  lemma SortedDistinct(s: set<string>)
    ensures forall i, j | 0 <= i < j < |Sorted(s)| :: Sorted(s)[i] != Sorted(s)[j]
  {
    var r := Sorted(s);
    forall i, j | 0 <= i < j < |r|
      ensures r[i] != r[j]
    {
      BelowIrreflexive(r[i]);
    }
  }

  /** Python's `a in b` on strings: `a` occurs in `b` as a contiguous
      substring. */
  predicate IsSubstring(a: string, b: string)
    decreases |b|
  {
    a <= b || (|b| > 0 && IsSubstring(a, b[1..]))
  }

  lemma {:induction false} SubstringOfPrefix(a: string, b: string, c: string)
    requires IsSubstring(a, b) && b <= c
    ensures IsSubstring(a, c)
    decreases |b|
  {
    if !(a <= b) {
      assert b[1..] <= c[1..];
      SubstringOfPrefix(a, b[1..], c[1..]);
    }
  }

  /** A string that contains `b` contains everything `b` contains. */
  lemma {:induction false} SubstringTransitive(a: string, b: string, c: string)
    requires IsSubstring(a, b) && IsSubstring(b, c)
    ensures IsSubstring(a, c)
    decreases |c|
  {
    if b <= c {
      SubstringOfPrefix(a, b, c);
    } else {
      SubstringTransitive(a, b, c[1..]);
    }
  }

  /** Python's `"\n".join(lines)`. */
  function JoinLines(lines: seq<string>): string
  {
    if |lines| == 0 then ""
    else if |lines| == 1 then lines[0]
    else lines[0] + "\n" + JoinLines(lines[1..])
  }

  /** Python's `"".join(parts)`: the parts one after another. */
  function Concat(parts: seq<string>): string
  {
    if parts == [] then "" else parts[0] + Concat(parts[1..])
  }

}
