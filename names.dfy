/** Ordering by name, as `sort_by(|a, b| a.name.cmp(&b.name))` does it in
    `compute_signature` (src/bank.rs). Strings compare lexicographically by
    character code, which for UTF-8 text is Rust's byte-wise `str` order.
    The sort is the standard library's stable sort; it is described here by
    the order it produces, through a stable insertion sort. */
module NameOrder {

  /** `a <= b` in lexicographic order. */
  predicate NameLe(a: string, b: string)
    decreases |a|
  {
    if a == [] then true
    else if b == [] then false
    else if a[0] != b[0] then a[0] < b[0]
    else NameLe(a[1..], b[1..])
  }

  lemma {:induction false} NameLeTotal(a: string, b: string)
    ensures NameLe(a, b) || NameLe(b, a)
    decreases |a|
  {
    if a != [] && b != [] && a[0] == b[0] {
      NameLeTotal(a[1..], b[1..]);
    }
  }

  lemma {:induction false} NameLeAntisymmetric(a: string, b: string)
    requires NameLe(a, b) && NameLe(b, a)
    ensures a == b
    decreases |a|
  {
    if a != [] {
      NameLeAntisymmetric(a[1..], b[1..]);
      assert a == [a[0]] + a[1..] && b == [b[0]] + b[1..];
    }
  }

  lemma {:induction false} NameLeTransitive(a: string, b: string, c: string)
    requires NameLe(a, b) && NameLe(b, c)
    ensures NameLe(a, c)
    decreases |a|
  {
    if a != [] && b != [] && c != [] && a[0] == b[0] && b[0] == c[0] {
      NameLeTransitive(a[1..], b[1..], c[1..]);
    }
  }

  /** Every element's name is at most the next ones'. */
  predicate SortedBy<T>(s: seq<T>, name: T -> string) {
    forall i, j :: 0 <= i < j < |s| ==> NameLe(name(s[i]), name(s[j]))
  }

  /** No two elements share a name. */
  predicate UniqueNames<T>(s: seq<T>, name: T -> string) {
    forall i, j :: 0 <= i < j < |s| ==> name(s[i]) != name(s[j])
  }

  /** Places `x` after every element of `s` whose name is not above its
      own, so that equal names keep their input order. */
  function Insert<T>(s: seq<T>, x: T, name: T -> string): seq<T>
    decreases |s|
  {
    if s == [] then [x]
    else
      var n := |s| - 1;
      if NameLe(name(s[n]), name(x)) then s + [x]
      else Insert(s[..n], x, name) + [s[n]]
  }

  /** Inserting into a sorted sequence keeps it sorted and adds exactly
      `x`. */
  lemma {:induction false} InsertSorted<T>(s: seq<T>, x: T, name: T -> string)
    requires SortedBy(s, name)
    ensures SortedBy(Insert(s, x, name), name)
    ensures multiset(Insert(s, x, name)) == multiset(s) + multiset{x}
    decreases |s|
  {
    if s != [] {
      var n := |s| - 1;
      if NameLe(name(s[n]), name(x)) {
        InsertAtEnd(s, x, name);
      } else {
        assert SortedBy(s[..n], name);
        InsertSorted(s[..n], x, name);
        NameLeTotal(name(s[n]), name(x));
        InsertBeforeLast(s, x, Insert(s[..n], x, name), name);
        assert s[..n] + [s[n]] == s;
      }
    }
  }

  lemma InsertAtEnd<T>(s: seq<T>, x: T, name: T -> string)
    requires s != [] && SortedBy(s, name)
    requires NameLe(name(s[|s| - 1]), name(x))
    ensures SortedBy(s + [x], name)
  {
    var r := s + [x];
    forall i, j | 0 <= i < j < |r|
      ensures NameLe(name(r[i]), name(r[j]))
    {
      if j == |s| && i < |s| - 1 {
        NameLeTransitive(name(s[i]), name(s[|s| - 1]), name(x));
      }
    }
  }

  lemma InsertBeforeLast<T>(s: seq<T>, x: T, r': seq<T>, name: T -> string)
    requires s != [] && SortedBy(s, name)
    requires NameLe(name(x), name(s[|s| - 1]))
    requires SortedBy(r', name)
    requires multiset(r') == multiset(s[..|s| - 1]) + multiset{x}
    ensures SortedBy(r' + [s[|s| - 1]], name)
  {
    var last := s[|s| - 1];
    var r := r' + [last];
    forall i, j | 0 <= i < j < |r|
      ensures NameLe(name(r[i]), name(r[j]))
    {
      if j == |r'| {
        assert r[i] in multiset(r');
        if r[i] == x {
        } else {
          assert r[i] in multiset(s[..|s| - 1]);
          var k :| 0 <= k < |s| - 1 && s[k] == r[i];
        }
      }
    }
  }

  /** What the stable `sort_by` on names leaves: elements are inserted one
      by one in input order. */
  function SortByName<T>(s: seq<T>, name: T -> string): seq<T>
    decreases |s|
  {
    if s == [] then []
    else
      var n := |s| - 1;
      Insert(SortByName(s[..n], name), s[n], name)
  }

  /** The sort leaves its input sorted by name and holding the same
      elements. */
  lemma {:induction false} SortByNameSorted<T>(s: seq<T>, name: T -> string)
    ensures SortedBy(SortByName(s, name), name)
    ensures multiset(SortByName(s, name)) == multiset(s)
    decreases |s|
  {
    if s != [] {
      var n := |s| - 1;
      SortByNameSorted(s[..n], name);
      InsertSorted(SortByName(s[..n], name), s[n], name);
      assert s[..n] + [s[n]] == s;
    }
  }

  /** Sorting input that is already in order changes nothing. */
  lemma {:induction false} SortSorted<T>(s: seq<T>, name: T -> string)
    requires SortedBy(s, name)
    ensures SortByName(s, name) == s
    decreases |s|
  {
    if s != [] {
      var n := |s| - 1;
      assert SortedBy(s[..n], name);
      SortSorted(s[..n], name);
      if n > 0 {
        assert NameLe(name(s[n - 1]), name(s[n]));
      }
      assert s[..n] + [s[n]] == s;
    }
  }

  /** Two sorted sequences holding the same elements with unique names
      start with the same element. */
  lemma SortedPermutationsHead<T>(a: seq<T>, b: seq<T>, name: T -> string)
    requires a != [] && SortedBy(a, name) && SortedBy(b, name)
    requires multiset(a) == multiset(b)
    requires UniqueNames(a, name)
    ensures b != [] && a[0] == b[0]
  {
    assert a[0] in multiset(b);
    var j :| 0 <= j < |b| && b[j] == a[0];
    assert b[0] in multiset(a);
    var i :| 0 <= i < |a| && a[i] == b[0];
    if i != 0 {
      assert NameLe(name(a[0]), name(a[i]));
      assert NameLe(name(b[0]), name(b[j]));
      NameLeAntisymmetric(name(a[0]), name(a[i]));
      assert false;
    }
  }

  /** Two sorted sequences holding the same elements with unique names are
      equal. */
  lemma {:induction false} SortedPermutationsEqual<T>(a: seq<T>, b: seq<T>, name: T -> string)
    requires SortedBy(a, name) && SortedBy(b, name)
    requires multiset(a) == multiset(b)
    requires UniqueNames(a, name)
    ensures a == b
    decreases |a|
  {
    if a == [] {
      assert |b| == |multiset(b)| == 0;
    } else {
      SortedPermutationsHead(a, b, name);
      TailsPermutation(a, b);
      TailSortedUnique(a, name);
      TailSortedUnique(b, name);
      SortedPermutationsEqual(a[1..], b[1..], name);
      assert a == [a[0]] + a[1..] && b == [b[0]] + b[1..];
    }
  }

  /** Dropping a shared first element keeps two sequences permutations of
      each other. */
  lemma TailsPermutation<T>(a: seq<T>, b: seq<T>)
    requires a != [] && b != [] && a[0] == b[0]
    requires multiset(a) == multiset(b)
    ensures multiset(a[1..]) == multiset(b[1..])
  {
    assert a == [a[0]] + a[1..] && b == [b[0]] + b[1..];
    assert multiset(a) == multiset{a[0]} + multiset(a[1..]);
    assert multiset(b) == multiset{b[0]} + multiset(b[1..]);
    assert multiset(a[1..]) == multiset(a) - multiset{a[0]};
    assert multiset(b[1..]) == multiset(b) - multiset{b[0]};
  }

  /** The tail of a sorted sequence is sorted, and the tail of one with
      unique names has unique names. */
  lemma TailSortedUnique<T>(s: seq<T>, name: T -> string)
    requires s != []
    ensures SortedBy(s, name) ==> SortedBy(s[1..], name)
    ensures UniqueNames(s, name) ==> UniqueNames(s[1..], name)
  {
    assert forall i :: 0 <= i < |s| - 1 ==> s[1..][i] == s[i + 1];
  }

  /** Names that are unique stay unique in any permutation. */
  lemma UniqueNamesPermutation<T>(a: seq<T>, b: seq<T>, name: T -> string)
    requires multiset(a) == multiset(b)
    requires UniqueNames(a, name)
    ensures UniqueNames(b, name)
  {
    forall i, j | 0 <= i < j < |b|
      ensures name(b[i]) != name(b[j])
    {
      assert b[i] in multiset(a) && b[j] in multiset(a);
      var i' :| 0 <= i' < |a| && a[i'] == b[i];
      var j' :| 0 <= j' < |a| && a[j'] == b[j];
      if i' == j' {
        assert multiset(b)[b[i]] >= 2 by {
          assert b[i] == b[j];
          MultisetAtLeastTwo(b, i, j);
        }
        MultisetOfUnique(a, i', name);
        assert false;
      }
    }
  }

  lemma MultisetAtLeastTwo<T>(s: seq<T>, i: int, j: int)
    requires 0 <= i < j < |s| && s[i] == s[j]
    ensures multiset(s)[s[i]] >= 2
  {
    assert s == s[..i] + [s[i]] + s[i + 1..j] + [s[j]] + s[j + 1..];
  }

  lemma MultisetOfUnique<T>(s: seq<T>, i: int, name: T -> string)
    requires 0 <= i < |s| && UniqueNames(s, name)
    ensures multiset(s)[s[i]] == 1
  {
    var x := s[i];
    assert s == s[..i] + [x] + s[i + 1..];
    forall k | 0 <= k < |s| && k != i
      ensures s[k] != x
    {
      assert name(s[k]) != name(x);
    }
    assert x !in s[..i] && x !in s[i + 1..];
  }

  /** With unique names, the sorted order does not depend on the input
      order. */
  lemma SortIgnoresOrder<T>(a: seq<T>, b: seq<T>, name: T -> string)
    requires multiset(a) == multiset(b)
    requires UniqueNames(a, name)
    ensures SortByName(a, name) == SortByName(b, name)
  {
    var sa, sb := SortByName(a, name), SortByName(b, name);
    SortByNameSorted(a, name);
    SortByNameSorted(b, name);
    UniqueNamesPermutation(a, sa, name);
    SortedPermutationsEqual(sa, sb, name);
  }
}
