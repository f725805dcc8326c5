/** Go's string ordering and set.Strings.SortedValues: the strict
    lexicographic order on character sequences, and the sorted
    duplicate-free listing of a collection of names. */
module StringOrder {

  /** a sorts strictly before b. */
  predicate Below(a: string, b: string)
    decreases |a|
  {
    if |b| == 0 then false
    else if |a| == 0 then true
    else a[0] < b[0] || (a[0] == b[0] && Below(a[1..], b[1..]))
  }

  lemma {:induction false} BelowIrreflexive(a: string)
    ensures !Below(a, a)
    decreases |a|
  {
    if |a| > 0 {
      BelowIrreflexive(a[1..]);
    }
  }

  lemma {:induction false} BelowTransitive(a: string, b: string, c: string)
    requires Below(a, b) && Below(b, c)
    ensures Below(a, c)
    decreases |a|
  {
    if |a| > 0 && a[0] == b[0] && b[0] == c[0] {
      BelowTransitive(a[1..], b[1..], c[1..]);
    }
  }

  lemma {:induction false} BelowTotal(a: string, b: string)
    requires a != b
    ensures Below(a, b) || Below(b, a)
    decreases |a|
  {
    if |a| > 0 && |b| > 0 && a[0] == b[0] {
      assert a == [a[0]] + a[1..] && b == [b[0]] + b[1..];
      BelowTotal(a[1..], b[1..]);
    }
  }

  lemma {:induction false} BelowAsymmetric(a: string, b: string)
    requires Below(a, b)
    ensures !Below(b, a)
    decreases |a|
  {
    if |a| > 0 && a[0] == b[0] {
      BelowAsymmetric(a[1..], b[1..]);
    }
  }

  /** Strictly increasing, hence duplicate-free. */
  predicate Sorted(s: seq<string>) {
    forall i, j :: 0 <= i < j < |s| ==> Below(s[i], s[j])
  }

  /** Inserts x into a sorted sequence, unless it is already there. */
  function Insert(x: string, s: seq<string>): (r: seq<string>)
    requires Sorted(s)
    ensures Sorted(r)
    ensures forall y :: y in r <==> y == x || y in s
    decreases |s|
  {
    if |s| == 0 then [x]
    else if x == s[0] then s
    else if Below(x, s[0]) then
      InsertBefore(x, s);
      [x] + s
    else
      BelowTotal(x, s[0]);
      var rest := Insert(x, s[1..]);
      assert forall y :: y in rest ==> Below(s[0], y) by {
        forall y | y in rest ensures Below(s[0], y) {
          if y != x {
            var k :| 1 <= k < |s| && s[k] == y;
          }
        }
      }
      [s[0]] + rest
  }

  lemma InsertBefore(x: string, s: seq<string>)
    requires Sorted(s) && |s| > 0 && Below(x, s[0])
    ensures Sorted([x] + s)
  {
    forall j | 0 <= j < |s| ensures Below(x, s[j]) {
      if j > 0 {
        BelowTransitive(x, s[0], s[j]);
      }
    }
    var r := [x] + s;
    forall i, j | 0 <= i < j < |r| ensures Below(r[i], r[j]) {
      assert r[j] == s[j - 1];
      if i > 0 {
        assert r[i] == s[i - 1];
      }
    }
  }

  /** set.NewStrings(xs...).SortedValues(): the distinct names of xs in
      ascending order. */
  function SortedDistinct(xs: seq<string>): (r: seq<string>)
    ensures Sorted(r)
    ensures forall y :: y in r <==> y in xs
    decreases |xs|
  {
    if |xs| == 0 then []
    else Insert(xs[|xs| - 1], SortedDistinct(xs[..|xs| - 1]))
  }

  /** A sorted listing is determined by its elements: two sorted sequences
      with the same members are equal. */
  lemma {:induction false} SortedUnique(a: seq<string>, b: seq<string>)
    requires Sorted(a) && Sorted(b)
    requires forall y :: y in a <==> y in b
    ensures a == b
    decreases |a|
  {
    if |a| > 0 && |b| > 0 {
      if a[0] != b[0] {
        BelowTotal(a[0], b[0]);
        HeadIsLeast(a, b);
        HeadIsLeast(b, a);
        assert false;
      } else {
        forall y ensures y in a[1..] <==> y in b[1..] {
          if y in a[1..] {
            var k :| 0 <= k < |a[1..]| && a[1..][k] == y;
            assert a[k + 1] == y;
            if y == b[0] { BelowIrreflexive(a[0]); }
            assert y in b;
            var m :| 0 <= m < |b| && b[m] == y;
            assert m > 0 && b[1..][m - 1] == y;
          }
          if y in b[1..] {
            var k :| 0 <= k < |b[1..]| && b[1..][k] == y;
            assert b[k + 1] == y;
            if y == a[0] { BelowIrreflexive(b[0]); }
            assert y in a;
            var m :| 0 <= m < |a| && a[m] == y;
            assert m > 0 && a[1..][m - 1] == y;
          }
        }
        SortedUnique(a[1..], b[1..]);
        assert a == [a[0]] + a[1..] && b == [b[0]] + b[1..];
      }
    } else if |a| > 0 {
      HeadIsMember(a);
      assert false;
    } else if |b| > 0 {
      HeadIsMember(b);
      assert false;
    }
  }

  /** The head of a sorted sequence does not sort after any member of it. */
  lemma HeadIsLeast(a: seq<string>, b: seq<string>)
    requires Sorted(a) && Sorted(b) && |a| > 0 && |b| > 0
    requires forall y :: y in a <==> y in b
    ensures !Below(b[0], a[0])
  {
    if Below(b[0], a[0]) {
      HeadIsMember(b);
      var k :| 0 <= k < |a| && a[k] == b[0];
      if k == 0 {
        BelowIrreflexive(a[0]);
      } else {
        BelowAsymmetric(a[0], a[k]);
      }
    }
  }

  lemma HeadIsMember(s: seq<string>)
    requires |s| > 0
    ensures s[0] in s
  {
  }

  /** The listing depends only on which names occur, not on their order or
      repetition. */
  lemma SortedDistinctBySet(xs: seq<string>, ys: seq<string>)
    requires forall y :: y in xs <==> y in ys
    ensures SortedDistinct(xs) == SortedDistinct(ys)
  {
    SortedUnique(SortedDistinct(xs), SortedDistinct(ys));
  }

  /** A sorted sequence has no repeated entry. */
  lemma SortedDistinctEntries(s: seq<string>, i: nat, j: nat)
    requires Sorted(s) && i < j < |s|
    ensures s[i] != s[j]
  {
    if s[i] == s[j] { BelowIrreflexive(s[i]); }
  }
}
