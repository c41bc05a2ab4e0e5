/** Small facts about sequences used as lists of names and ledger rows. */
module Collections {

  /** The set of elements of a sequence (a directory listing seen as a set). */
  function Names<T>(s: seq<T>): set<T>
  {
    set x | x in s
  }

  /** Appending an element adds it to the set of elements. */
  lemma NamesSnoc<T>(s: seq<T>, x: T)
    ensures Names(s + [x]) == Names(s) + {x}
  {
  }

  /** Extending a prefix of `s` after `a` by one element of `s`. */
  lemma AppendPrefixSnoc<T>(a: seq<T>, s: seq<T>, i: int)
    requires 0 <= i < |s|
    ensures a + s[..i + 1] == (a + s[..i]) + [s[i]]
  {
    assert s[..i + 1] == s[..i] + [s[i]];
  }

  /** The elements of a prefix one longer gain the next element. */
  lemma NamesPrefixSnoc<T>(s: seq<T>, i: int)
    requires 0 <= i < |s|
    ensures Names(s[..i + 1]) == Names(s[..i]) + {s[i]}
  {
    assert s[..i + 1] == s[..i] + [s[i]];
    NamesSnoc(s[..i], s[i]);
  }

  /** A slice inside the first part of a concatenation is a slice of that
      part, and what follows the first part is the second. */
  lemma SliceOfAppend<T>(a: seq<T>, b: seq<T>, i: int, j: int)
    requires 0 <= i <= j <= |a|
    ensures (a + b)[i..j] == a[i..j]
    ensures (a + b)[|a|..] == b
  {
  }

  /** The elements of a concatenation are those of either part. */
  lemma NamesConcat<T>(a: seq<T>, b: seq<T>)
    ensures Names(a + b) == Names(a) + Names(b)
  {
  }

  /** No element occurs twice. */
  predicate Distinct<T(==)>(s: seq<T>)
  {
    forall i, j :: 0 <= i < j < |s| ==> s[i] != s[j]
  }

  /** Two duplicate-free sequences with no common element concatenate to a
      duplicate-free sequence. */
  lemma DistinctConcat<T>(a: seq<T>, b: seq<T>)
    requires Distinct(a) && Distinct(b)
    requires forall x | x in a :: x !in b
    ensures Distinct(a + b)
  {
    forall i, j | 0 <= i < j < |a + b| ensures (a + b)[i] != (a + b)[j] {
      if j >= |a| && i < |a| {
        assert (a + b)[i] in a && (a + b)[j] in b;
      }
    }
  }

  /** The elements of `s` that satisfy `p`, in their original order. */
  function Filter<T(!new)>(p: T -> bool, s: seq<T>): (r: seq<T>)
    ensures |r| <= |s|
    ensures forall x :: x in r <==> x in s && p(x)
  {
    if s == [] then []
    else (if p(s[0]) then [s[0]] else []) + Filter(p, s[1..])
  }

  /** Nothing is kept when no element satisfies the predicate. */
  lemma FilterNone<T(!new)>(p: T -> bool, s: seq<T>)
    requires forall x | x in s :: !p(x)
    ensures Filter(p, s) == []
  {
  }

  /** Filtering distributes over concatenation: the kept elements of `a`
      come first and in order, followed by the kept elements of `b`. */
  lemma {:induction false} FilterConcat<T(!new)>(p: T -> bool, a: seq<T>, b: seq<T>)
    ensures Filter(p, a + b) == Filter(p, a) + Filter(p, b)
  {
    if a == [] {
      assert a + b == b;
    } else {
      assert (a + b)[1..] == a[1..] + b;
      FilterConcat(p, a[1..], b);
    }
  }

  /** Filtering twice with the same predicate changes nothing more. */
  lemma {:induction false} FilterIdempotent<T(!new)>(p: T -> bool, s: seq<T>)
    ensures Filter(p, Filter(p, s)) == Filter(p, s)
  {
    if s != [] {
      FilterIdempotent(p, s[1..]);
      var head := if p(s[0]) then [s[0]] else [];
      FilterConcat(p, head, Filter(p, s[1..]));
    }
  }

  /** A filter of a duplicate-free sequence is duplicate-free. */
  lemma {:induction false} FilterDistinct<T(!new)>(p: T -> bool, s: seq<T>)
    requires Distinct(s)
    ensures Distinct(Filter(p, s))
  {
    if s != [] {
      assert Distinct(s[1..]) by {
        forall i, j | 0 <= i < j < |s[1..]| ensures s[1..][i] != s[1..][j] {
          assert s[1..][i] == s[i + 1] && s[1..][j] == s[j + 1];
        }
      }
      FilterDistinct(p, s[1..]);
      var rest := Filter(p, s[1..]);
      assert s[0] !in rest;
    }
  }
}
