/** Go's order on strings and the sort `slices.Sort` applies to a slice of
    branch names. Go compares strings byte by byte over their UTF-8 encoding;
    UTF-8 preserves the order of code points, so that order is the
    lexicographic order of the character sequences used here. */
module StringOrder {

  /** a <= b in Go's string order. */
  predicate Below(a: string, b: string) {
    a == [] || (b != [] && (a[0] < b[0] || (a[0] == b[0] && Below(a[1..], b[1..]))))
  }

  lemma {:induction false} BelowReflexive(a: string)
    ensures Below(a, a)
  {
    if a != [] {
      BelowReflexive(a[1..]);
    }
  }

  lemma {:induction false} BelowTotal(a: string, b: string)
    ensures Below(a, b) || Below(b, a)
  {
    if a != [] && b != [] && a[0] == b[0] {
      BelowTotal(a[1..], b[1..]);
    }
  }

  lemma {:induction false} BelowAntisymmetric(a: string, b: string)
    requires Below(a, b) && Below(b, a)
    ensures a == b
  {
    if a != [] && b != [] {
      BelowAntisymmetric(a[1..], b[1..]);
      assert a == [a[0]] + a[1..] && b == [b[0]] + b[1..];
    }
  }

  lemma {:induction false} BelowTransitive(a: string, b: string, c: string)
    requires Below(a, b) && Below(b, c)
    ensures Below(a, c)
  {
    if a != [] && b != [] && c != [] && a[0] == b[0] && b[0] == c[0] {
      BelowTransitive(a[1..], b[1..], c[1..]);
    }
  }

  /** Ascending in Go's string order. */
  predicate Sorted(s: seq<string>) {
    forall i, j :: 0 <= i < j < |s| ==> Below(s[i], s[j])
  }

  /** Every element of s is at least x. */
  predicate AllAbove(x: string, s: seq<string>) {
    forall i :: 0 <= i < |s| ==> Below(x, s[i])
  }

  lemma SortedCons(x: string, s: seq<string>)
    requires AllAbove(x, s) && Sorted(s)
    ensures Sorted([x] + s)
  {
    var t := [x] + s;
    forall i, j | 0 <= i < j < |t| ensures Below(t[i], t[j]) {
      if i > 0 {
        assert t[i] == s[i - 1] && t[j] == s[j - 1];
      } else {
        assert t[j] == s[j - 1];
      }
    }
  }

  /** Insertion of x into an ascending sequence, before the first element
      that x is below. */
  function Insert(x: string, s: seq<string>): seq<string>
  {
    if s == [] then [x]
    else if Below(x, s[0]) then [x] + s
    else [s[0]] + Insert(x, s[1..])
  }

  lemma {:induction false} InsertMultiset(x: string, s: seq<string>)
    ensures multiset(Insert(x, s)) == multiset(s) + multiset{x}
  {
    if s != [] && !Below(x, s[0]) {
      InsertMultiset(x, s[1..]);
      assert s == [s[0]] + s[1..];
    }
  }

  lemma {:induction false} InsertAbove(y: string, x: string, s: seq<string>)
    requires Below(y, x) && AllAbove(y, s)
    ensures AllAbove(y, Insert(x, s))
  {
    if s != [] && !Below(x, s[0]) {
      InsertAbove(y, x, s[1..]);
      var r := Insert(x, s);
      assert r == [s[0]] + Insert(x, s[1..]);
      forall i | 0 <= i < |r| ensures Below(y, r[i]) {
        if i > 0 {
          assert r[i] == Insert(x, s[1..])[i - 1];
        }
      }
    }
  }

  lemma {:induction false} InsertSorted(x: string, s: seq<string>)
    requires Sorted(s)
    ensures Sorted(Insert(x, s))
  {
    if s == [] {
    } else if Below(x, s[0]) {
      forall i | 0 <= i < |s| ensures Below(x, s[i]) {
        if i > 0 {
          BelowTransitive(x, s[0], s[i]);
        }
      }
      SortedCons(x, s);
    } else {
      BelowTotal(x, s[0]);
      InsertSorted(x, s[1..]);
      InsertAbove(s[0], x, s[1..]);
      SortedCons(s[0], Insert(x, s[1..]));
    }
  }

  /** The reference sort: insertion of each element, from the back. */
  function Sort(s: seq<string>): seq<string> {
    if s == [] then [] else Insert(s[0], Sort(s[1..]))
  }

  /** The reference sort yields an ascending permutation of its input. */
  lemma SortSpec(s: seq<string>)
    ensures Sorted(Sort(s)) && multiset(Sort(s)) == multiset(s)
  {
    SortSorted(s);
    SortPermutes(s);
  }

  lemma {:induction false} SortSorted(s: seq<string>)
    ensures Sorted(Sort(s))
  {
    if s != [] {
      SortSorted(s[1..]);
      InsertSorted(s[0], Sort(s[1..]));
    }
  }

  lemma {:induction false} SortPermutes(s: seq<string>)
    ensures multiset(Sort(s)) == multiset(s)
  {
    if s != [] {
      SortPermutes(s[1..]);
      InsertMultiset(s[0], Sort(s[1..]));
      assert s == [s[0]] + s[1..];
    }
  }

  /** Two ascending permutations of each other start with the same element. */
  lemma SortedSameHead(a: seq<string>, b: seq<string>)
    requires a != [] && b != []
    requires Sorted(a) && Sorted(b) && multiset(a) == multiset(b)
    ensures a[0] == b[0]
  {
    assert a[0] in multiset(b);
    var j :| 0 <= j < |b| && b[j] == a[0];
    assert b[0] in multiset(a);
    var i :| 0 <= i < |a| && a[i] == b[0];
    if i == 0 { BelowReflexive(a[0]); }
    if j == 0 { BelowReflexive(b[0]); }
    BelowAntisymmetric(a[0], b[0]);
  }

  lemma TailMultiset(a: seq<string>)
    requires a != []
    ensures multiset(a[1..]) == multiset(a) - multiset{a[0]}
  {
    assert a == [a[0]] + a[1..];
  }

  /** An ascending permutation is unique: whatever algorithm produces one
      produces Sort's result. */
  lemma {:induction false} SortedUnique(a: seq<string>, b: seq<string>)
    requires Sorted(a) && Sorted(b) && multiset(a) == multiset(b)
    ensures a == b
  {
    if a == [] {
      assert |multiset(b)| == 0;
    } else {
      assert |b| == |multiset(b)|;
      SortedSameHead(a, b);
      TailMultiset(a);
      TailMultiset(b);
      SortedUnique(a[1..], b[1..]);
      assert a == [a[0]] + a[1..] && b == [b[0]] + b[1..];
    }
  }

  lemma SortOfSorted(s: seq<string>)
    requires Sorted(s)
    ensures Sort(s) == s
  {
    SortSpec(s);
    SortedUnique(Sort(s), s);
  }

  /** Every pair of s[..] except those involving position j is in order. */
  predicate SortedExcept(s: seq<string>, j: int) {
    forall k, l :: 0 <= k < l < |s| && k != j && l != j ==> Below(s[k], s[l])
  }

  /** One swap of the inner insertion loop: the element being inserted moves
      from j down to j - 1 past a larger neighbour. */
  lemma SwapStep(s: seq<string>, j: int)
    requires 0 < j < |s|
    requires SortedExcept(s, j)
    requires forall k :: j < k < |s| ==> Below(s[j], s[k])
    requires !Below(s[j - 1], s[j])
    ensures var t := s[j - 1 := s[j]][j := s[j - 1]];
      SortedExcept(t, j - 1) && forall k :: j - 1 < k < |t| ==> Below(t[j - 1], t[k])
  {
    BelowTotal(s[j - 1], s[j]);
  }

  /** The inner loop stops once the inserted element is in place. */
  lemma InsertionDone(s: seq<string>, j: int)
    requires 0 <= j < |s|
    requires SortedExcept(s, j)
    requires forall k :: j < k < |s| ==> Below(s[j], s[k])
    requires j == 0 || Below(s[j - 1], s[j])
    ensures Sorted(s)
  {
    forall k, l | 0 <= k < l < |s| ensures Below(s[k], s[l]) {
      if l == j {
        if k < j - 1 {
          BelowTransitive(s[k], s[j - 1], s[j]);
        }
      }
    }
  }

  method Swap(a: array<string>, i: int, j: int)
    requires 0 <= i < a.Length && 0 <= j < a.Length
    modifies a
    ensures a[..] == old(a[..])[i := old(a[j])][j := old(a[i])]
    ensures multiset(a[..]) == old(multiset(a[..]))
  {
    a[i], a[j] := a[j], a[i];
  }

  /** slices.Sort on a slice of strings, as an insertion sort in place. */
  method SortInPlace(a: array<string>)
    modifies a
    ensures Sorted(a[..])
    ensures multiset(a[..]) == old(multiset(a[..]))
  {
    for i := 0 to a.Length
      invariant Sorted(a[..i])
      invariant multiset(a[..]) == old(multiset(a[..]))
    {
      var j := i;
      assert SortedExcept(a[..i + 1], j);
      while 0 < j && !Below(a[j - 1], a[j])
        invariant 0 <= j <= i
        invariant SortedExcept(a[..i + 1], j)
        invariant forall k :: j < k <= i ==> Below(a[j], a[k])
        invariant multiset(a[..]) == old(multiset(a[..]))
      {
        ghost var s := a[..i + 1];
        SwapStep(s, j);
        Swap(a, j - 1, j);
        assert a[..i + 1] == s[j - 1 := s[j]][j := s[j - 1]];
        j := j - 1;
      }
      InsertionDone(a[..i + 1], j);
    }
    assert a[..a.Length] == a[..];
  }
}
