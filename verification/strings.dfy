/** The string operations the runtime relies on: decimal rendering of numbers
    inside template literals, JavaScript's default `Array.prototype.sort` order
    on strings, `Array.prototype.join` and `String.prototype.replaceAll` with a
    one-character pattern. */
module Strings {

  /** One decimal digit. */
  function DigitChar(d: nat): (c: char)
    requires d < 10
    ensures '0' <= c <= '9'
  {
    ['0', '1', '2', '3', '4', '5', '6', '7', '8', '9'][d]
  }

  /** Decimal rendering of a natural number, as `${n}` produces. */
  function NatToString(n: nat): (r: string)
    ensures |r| > 0
    ensures forall i :: 0 <= i < |r| ==> '0' <= r[i] <= '9'
  {
    if n < 10 then [DigitChar(n)] else NatToString(n / 10) + [DigitChar(n % 10)]
  }

  /** Decimal rendering of an integer, with a leading minus for negatives. */
  function IntToString(i: int): (r: string)
    ensures |r| > 0
    ensures (r[0] == '-') == (i < 0)
  {
    if i < 0 then "-" + NatToString(-i) else NatToString(i)
  }

  /** `a` sorts before or equal to `b` under the code-unit lexicographic order
      that JavaScript's default sort uses. */
  predicate LexLe(a: string, b: string)
  {
    a == [] || (b != [] && (a[0] < b[0] || (a[0] == b[0] && LexLe(a[1..], b[1..]))))
  }

  lemma {:induction false} LexLeTotal(a: string, b: string)
    ensures LexLe(a, b) || LexLe(b, a)
  {
    if a != [] && b != [] && a[0] == b[0] {
      LexLeTotal(a[1..], b[1..]);
    }
  }

  lemma {:induction false} LexLeAntisymmetric(a: string, b: string)
    requires LexLe(a, b) && LexLe(b, a)
    ensures a == b
  {
    if a != [] && b != [] {
      LexLeAntisymmetric(a[1..], b[1..]);
      assert a == [a[0]] + a[1..] && b == [b[0]] + b[1..];
    }
  }

  lemma {:induction false} LexLeTransitive(a: string, b: string, c: string)
    requires LexLe(a, b) && LexLe(b, c)
    ensures LexLe(a, c)
  {
    if a != [] && b != [] && c != [] && a[0] == b[0] == c[0] {
      LexLeTransitive(a[1..], b[1..], c[1..]);
    }
  }

  /** Every pair of elements is in order. */
  ghost predicate Sorted(s: seq<string>)
  {
    forall i, j :: 0 <= i < j < |s| ==> LexLe(s[i], s[j])
  }

  /** Insertion of one string into a sorted sequence. */
  function Insert(x: string, s: seq<string>): (r: seq<string>)
    ensures multiset(r) == multiset(s) + multiset{x}
  {
    if s == [] then [x]
    else if LexLe(x, s[0]) then [x] + s
    else
      assert s == [s[0]] + s[1..];
      [s[0]] + Insert(x, s[1..])
  }

  /** The strings of `s` in ascending order; any correct sorting algorithm
      gives the same result (`SortedUnique`), so this one stands for the
      engine's `.sort()`. */
  function SortStrings(s: seq<string>): (r: seq<string>)
    ensures multiset(r) == multiset(s)
  {
    if s == [] then []
    else
      assert s == [s[0]] + s[1..];
      Insert(s[0], SortStrings(s[1..]))
  }

  lemma {:induction false} InsertSorted(x: string, s: seq<string>)
    requires Sorted(s)
    ensures Sorted(Insert(x, s))
  {
    if s == [] {
    } else if LexLe(x, s[0]) {
      var r := Insert(x, s);
      forall i, j | 0 <= i < j < |r| ensures LexLe(r[i], r[j]) {
        if i == 0 && j > 1 {
          LexLeTransitive(x, s[0], s[j - 1]);
        }
      }
    } else {
      InsertSorted(x, s[1..]);
      var t := Insert(x, s[1..]);
      var r := [s[0]] + t;
      assert Insert(x, s) == r;
      LexLeTotal(x, s[0]);
      forall i, j | 0 <= i < j < |r| ensures LexLe(r[i], r[j]) {
        if i == 0 {
          InsertBound(x, s[1..], s[0], j - 1);
        }
      }
    }
  }

  /** A lower bound of `x` and of every element of `s` bounds `Insert(x, s)`. */
  lemma InsertBound(x: string, s: seq<string>, lo: string, k: nat)
    requires LexLe(lo, x) && forall m :: 0 <= m < |s| ==> LexLe(lo, s[m])
    requires k < |Insert(x, s)|
    ensures LexLe(lo, Insert(x, s)[k])
  {
    var y := Insert(x, s)[k];
    assert y in multiset(Insert(x, s));
    if y != x {
      assert y in multiset(s);
      var m :| 0 <= m < |s| && s[m] == y;
    }
  }

  lemma {:induction false} SortStringsSorted(s: seq<string>)
    ensures Sorted(SortStrings(s))
  {
    if s != [] {
      SortStringsSorted(s[1..]);
      InsertSorted(s[0], SortStrings(s[1..]));
    }
  }

  /** Two sorted sequences holding the same strings are the same sequence. */
  lemma {:induction false} SortedUnique(a: seq<string>, b: seq<string>)
    requires Sorted(a) && Sorted(b) && multiset(a) == multiset(b)
    ensures a == b
    decreases |a|
  {
    if a == [] {
      assert |b| == |multiset(b)| == 0;
    } else {
      assert |b| == |multiset(b)| == |multiset(a)| == |a|;
      SortedHeads(a, b);
      assert a == [a[0]] + a[1..] && b == [b[0]] + b[1..];
      assert multiset(a[1..]) == multiset(a) - multiset{a[0]};
      assert multiset(b[1..]) == multiset(b) - multiset{b[0]};
      SortedUnique(a[1..], b[1..]);
    }
  }

  /** Two nonempty sorted sequences holding the same strings start alike:
      each head is below the other. */
  lemma SortedHeads(a: seq<string>, b: seq<string>)
    requires Sorted(a) && Sorted(b) && multiset(a) == multiset(b) && a != [] && b != []
    ensures a[0] == b[0]
  {
    assert a[0] in multiset(b) && b[0] in multiset(a);
    var i :| 0 <= i < |b| && b[i] == a[0];
    var j :| 0 <= j < |a| && a[j] == b[0];
    assert i == 0 || LexLe(b[0], b[i]);
    assert j == 0 || LexLe(a[0], a[j]);
    if a[0] != b[0] {
      LexLeAntisymmetric(a[0], b[0]);
    }
  }

  /** Sorting forgets the input order. */
  lemma SortStringsOrderIndependent(a: seq<string>, b: seq<string>)
    requires multiset(a) == multiset(b)
    ensures SortStrings(a) == SortStrings(b)
  {
    SortStringsSorted(a);
    SortStringsSorted(b);
    SortedUnique(SortStrings(a), SortStrings(b));
  }

  /** `parts.join(sep)`. */
  function Join(parts: seq<string>, sep: string): string
  {
    if parts == [] then ""
    else if |parts| == 1 then parts[0]
    else Join(parts[..|parts| - 1], sep) + sep + parts[|parts| - 1]
  }

  /** `s.replaceAll(ch, rep)` for a one-character pattern `ch`. */
  function ReplaceAll(s: string, ch: char, rep: string): (r: string)
    ensures ch !in s ==> r == s
  {
    if s == [] then [] else (if s[0] == ch then rep else [s[0]]) + ReplaceAll(s[1..], ch, rep)
  }

  /** Replacement works piece by piece. */
  lemma {:induction false} ReplaceAllConcat(a: string, b: string, ch: char, rep: string)
    ensures ReplaceAll(a + b, ch, rep) == ReplaceAll(a, ch, rep) + ReplaceAll(b, ch, rep)
  {
    if a != [] {
      var head := if a[0] == ch then rep else [a[0]];
      assert (a + b)[0] == a[0] && (a + b)[1..] == a[1..] + b;
      assert ReplaceAll(a + b, ch, rep) == head + ReplaceAll(a[1..] + b, ch, rep);
      ReplaceAllConcat(a[1..], b, ch, rep);
      assert ReplaceAll(a, ch, rep) == head + ReplaceAll(a[1..], ch, rep);
    } else {
      assert a + b == b;
    }
  }
}
