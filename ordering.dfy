/** Orders and sorting: a character order on strings, the comparator that
    `Array.prototype.sort()` uses when it is given none, and a reference sort. */
module Ordering {
  import Decimal

  /** Lexicographic order by character, a proper prefix being smaller than the
      longer string. It equals JavaScript's `a <= b` on the digit strings it is
      applied to here (the two differ only above U+FFFF, where JavaScript
      compares UTF-16 code units). */
  predicate LexLe(a: string, b: string)
    decreases |a|
  {
    |a| == 0 || (0 < |b| && (a[0] < b[0] || (a[0] == b[0] && LexLe(a[1..], b[1..]))))
  }

  lemma {:induction false} LexLeTotal(a: string, b: string)
    ensures LexLe(a, b) || LexLe(b, a)
    decreases |a|
  {
    if 0 < |a| && 0 < |b| && a[0] == b[0] {
      LexLeTotal(a[1..], b[1..]);
    }
  }

  lemma {:induction false} LexLeAntisymmetric(a: string, b: string)
    requires LexLe(a, b) && LexLe(b, a)
    ensures a == b
    decreases |a|
  {
    if 0 < |a| {
      LexLeAntisymmetric(a[1..], b[1..]);
      assert a == [a[0]] + a[1..] && b == [b[0]] + b[1..];
    }
  }

  /** The comparison `Array.prototype.sort()` applies without a comparator:
      both numbers are converted to strings, which are then compared. */
  predicate DefaultLe(x: nat, y: nat) {
    LexLe(Decimal.DecimalString(x), Decimal.DecimalString(y))
  }

  ghost predicate Total<T(!new)>(le: (T, T) -> bool) {
    forall x, y :: le(x, y) || le(y, x)
  }

  ghost predicate Transitive<T(!new)>(le: (T, T) -> bool) {
    forall x, y, z :: le(x, y) && le(y, z) ==> le(x, z)
  }

  ghost predicate Antisymmetric<T(!new)>(le: (T, T) -> bool) {
    forall x, y :: le(x, y) && le(y, x) ==> x == y
  }

  /** Every element is `le` every later element. */
  ghost predicate SortedBy<T>(s: seq<T>, le: (T, T) -> bool) {
    forall i, j :: 0 <= i < j < |s| ==> le(s[i], s[j])
  }

  function Insert<T>(x: T, s: seq<T>, le: (T, T) -> bool): (r: seq<T>)
    ensures multiset(r) == multiset(s) + multiset{x}
  {
    if |s| == 0 then [x]
    else if le(x, s[0]) then [x] + s
    else
      assert s == [s[0]] + s[1..];
      [s[0]] + Insert(x, s[1..], le)
  }

  /** Insertion sort: the reference sort of the model. */
  function SortBy<T>(s: seq<T>, le: (T, T) -> bool): (r: seq<T>)
    ensures multiset(r) == multiset(s)
  {
    if |s| == 0 then []
    else
      assert s == [s[0]] + s[1..];
      Insert(s[0], SortBy(s[1..], le), le)
  }

  lemma {:induction false} InsertSorted<T(!new)>(x: T, s: seq<T>, le: (T, T) -> bool)
    requires Total(le) && Transitive(le) && SortedBy(s, le)
    ensures SortedBy(Insert(x, s, le), le)
  {
    if 0 < |s| && le(x, s[0]) {
      forall k | 0 <= k < |s| ensures le(x, s[k]) {
        if 0 < k { assert le(s[0], s[k]); }
      }
    } else if 0 < |s| {
      InsertSorted(x, s[1..], le);
      var r := Insert(x, s[1..], le);
      assert le(s[0], x);
      forall k | 0 <= k < |r| ensures le(s[0], r[k]) {
        assert r[k] in multiset(s[1..]) + multiset{x};
        if r[k] != x {
          assert r[k] in s[1..];
          var j :| 0 <= j < |s[1..]| && s[1..][j] == r[k];
          assert s[j + 1] == r[k];
        }
      }
    }
  }

  /** With a total, transitive comparator the reference sort yields a sorted permutation. */
  lemma {:induction false} SortBySorted<T(!new)>(s: seq<T>, le: (T, T) -> bool)
    requires Total(le) && Transitive(le)
    ensures SortedBy(SortBy(s, le), le)
  {
    if 0 < |s| {
      SortBySorted(s[1..], le);
      InsertSorted(s[0], SortBy(s[1..], le), le);
    }
  }

  lemma SortedHeadIsLeast<T(!new)>(a: seq<T>, le: (T, T) -> bool, x: T)
    requires Total(le) && SortedBy(a, le) && x in multiset(a)
    ensures le(a[0], x)
  {
    var i :| 0 <= i < |a| && a[i] == x;
    if i == 0 {
      assert le(x, x) || le(x, x);
    } else {
      assert le(a[0], a[i]);
    }
  }

  lemma SortedTail<T>(a: seq<T>, le: (T, T) -> bool)
    requires SortedBy(a, le) && 0 < |a|
    ensures SortedBy(a[1..], le)
  {
    forall i, j | 0 <= i < j < |a| - 1 ensures le(a[1..][i], a[1..][j]) {
      assert le(a[i + 1], a[j + 1]);
    }
  }

  /** Under an antisymmetric comparator there is only one sorted permutation of
      a sequence, so every correct sorting routine returns the same result. */
  lemma {:induction false} SortedPermutationUnique<T(!new)>(a: seq<T>, b: seq<T>, le: (T, T) -> bool)
    requires Total(le) && Antisymmetric(le)
    requires SortedBy(a, le) && SortedBy(b, le) && multiset(a) == multiset(b)
    ensures a == b
    decreases |a|
  {
    assert |a| == |multiset(a)| == |multiset(b)| == |b|;
    if 0 < |a| {
      assert a[0] in multiset(a) && b[0] in multiset(b);
      SortedHeadIsLeast(b, le, a[0]);
      SortedHeadIsLeast(a, le, b[0]);
      assert a[0] == b[0];
      assert a == [a[0]] + a[1..] && b == [b[0]] + b[1..];
      assert multiset(a[1..]) == multiset(a) - multiset{a[0]};
      assert multiset(b[1..]) == multiset(b) - multiset{b[0]};
      SortedTail(a, le);
      SortedTail(b, le);
      SortedPermutationUnique(a[1..], b[1..], le);
    }
  }

  lemma DefaultLeTotal()
    ensures Total(DefaultLe)
  {
    forall x: nat, y: nat ensures DefaultLe(x, y) || DefaultLe(y, x) {
      LexLeTotal(Decimal.DecimalString(x), Decimal.DecimalString(y));
    }
  }

  lemma {:induction false} LexLeTransitive(a: string, b: string, c: string)
    requires LexLe(a, b) && LexLe(b, c)
    ensures LexLe(a, c)
    decreases |a|
  {
    if 0 < |a| && a[0] == b[0] && b[0] == c[0] {
      LexLeTransitive(a[1..], b[1..], c[1..]);
    }
  }

  lemma DefaultLeTransitive()
    ensures Transitive(DefaultLe)
  {
    forall x: nat, y: nat, z: nat | DefaultLe(x, y) && DefaultLe(y, z) ensures DefaultLe(x, z) {
      LexLeTransitive(Decimal.DecimalString(x), Decimal.DecimalString(y), Decimal.DecimalString(z));
    }
  }

  lemma DefaultLeAntisymmetric()
    ensures Antisymmetric(DefaultLe)
  {
    forall x: nat, y: nat | DefaultLe(x, y) && DefaultLe(y, x) ensures x == y {
      LexLeAntisymmetric(Decimal.DecimalString(x), Decimal.DecimalString(y));
      Decimal.DecimalStringInjective(x, y);
    }
  }

  /** What `array.sort()` leaves in an array of naturals: a permutation of it,
      ordered by the decimal strings of its elements. */
  function DefaultSort(s: seq<nat>): (r: seq<nat>)
    ensures multiset(r) == multiset(s)
  {
    SortBy(s, DefaultLe)
  }

  lemma DefaultSortSorted(s: seq<nat>)
    ensures SortedBy(DefaultSort(s), DefaultLe)
  {
    DefaultLeTotal();
    DefaultLeTransitive();
    SortBySorted(s, DefaultLe);
  }

  /** Any sorting routine that honours the default comparator produces exactly
      `DefaultSort`, whatever algorithm the engine uses. */
  lemma DefaultSortCharacterised(s: seq<nat>, r: seq<nat>)
    requires multiset(r) == multiset(s) && SortedBy(r, DefaultLe)
    ensures r == DefaultSort(s)
  {
    DefaultLeTotal();
    DefaultLeAntisymmetric();
    DefaultSortSorted(s);
    SortedPermutationUnique(r, DefaultSort(s), DefaultLe);
  }

  /** Sorting an already sorted array changes nothing. */
  lemma DefaultSortIdempotent(s: seq<nat>)
    ensures DefaultSort(DefaultSort(s)) == DefaultSort(s)
  {
    DefaultSortSorted(s);
    DefaultSortCharacterised(DefaultSort(s), DefaultSort(s));
  }

  ghost predicate NumericallySorted(s: seq<nat>) {
    forall i, j :: 0 <= i < j < |s| ==> s[i] <= s[j]
  }

  lemma DefaultLeExamples()
    ensures DefaultLe(100, 20) && DefaultLe(100, 3) && DefaultLe(20, 3)
  {
    assert Decimal.DecimalString(3) == "3";
    assert Decimal.DecimalString(20) == "20" by {
      assert Decimal.DecimalString(2) == "2";
    }
    assert Decimal.DecimalString(100) == "100" by {
      assert Decimal.DecimalString(1) == "1";
      assert Decimal.DecimalString(10) == "10";
    }
  }

  // The list is a parameter pinned by `requires` rather than a literal in the
  // statement: a literal here is unfolded eagerly and exceeds the resource limit.
  lemma DefaultSortedExample(r: seq<nat>)
    requires r == [100, 20, 3]
    ensures SortedBy(r, DefaultLe)
  {
    DefaultLeExamples();
  }

  /** The default comparator is not numeric: `[3, 20, 100].sort()` is
      `[100, 20, 3]`, which is not in ascending numeric order. The input is a
      parameter pinned by `requires`, for the same reason as above. */
  lemma DefaultSortIsNotNumeric(s: seq<nat>)
    requires s == [3, 20, 100]
    ensures DefaultSort(s) == [100, 20, 3]
    ensures !NumericallySorted(DefaultSort(s))
  {
    var r: seq<nat> := [100, 20, 3];
    DefaultSortedExample(r);
    assert multiset(r) == multiset(s);
    DefaultSortCharacterised(s, r);
    assert r[0] > r[1];
  }
}
