/** The order `std::sort` puts a `std::vector<std::string>` in: `operator<` on strings,
    which compares character by character and ranks a proper prefix first. */
module StringOrder {

  /** `a` sorts before `b` or equals it; in particular every prefix of `b` does. */
  predicate LessEq(a: string, b: string)
    ensures a <= b ==> LessEq(a, b)
    decreases |a|
  {
    |a| == 0 || (|b| > 0 && (a[0] < b[0] || (a[0] == b[0] && LessEq(a[1..], b[1..]))))
  }

  lemma {:induction false} LessEqReflexive(a: string)
    ensures LessEq(a, a)
    decreases |a|
  {
    if |a| > 0 {
      LessEqReflexive(a[1..]);
    }
  }

  lemma {:induction false} LessEqAntisymmetric(a: string, b: string)
    requires LessEq(a, b) && LessEq(b, a)
    ensures a == b
    decreases |a|
  {
    if |a| > 0 {
      LessEqAntisymmetric(a[1..], b[1..]);
      assert a == [a[0]] + a[1..];
      assert b == [b[0]] + b[1..];
    }
  }

  lemma {:induction false} LessEqTransitive(a: string, b: string, c: string)
    requires LessEq(a, b) && LessEq(b, c)
    ensures LessEq(a, c)
    decreases |a|
  {
    if |a| > 0 && a[0] == b[0] && b[0] == c[0] {
      LessEqTransitive(a[1..], b[1..], c[1..]);
    }
  }

  lemma {:induction false} LessEqTotal(a: string, b: string)
    ensures LessEq(a, b) || LessEq(b, a)
    decreases |a|
  {
    if |a| > 0 && |b| > 0 && a[0] == b[0] {
      LessEqTotal(a[1..], b[1..]);
    }
  }

  predicate Sorted(s: seq<string>) {
    forall i, j :: 0 <= i < j < |s| ==> LessEq(s[i], s[j])
  }

  /** `x` placed into the sorted `s` before the first entry it sorts at or below. */
  function Insert(x: string, s: seq<string>): (r: seq<string>)
    requires Sorted(s)
    ensures Sorted(r)
    ensures multiset(r) == multiset(s) + multiset{x}
    decreases |s|
  {
    if |s| == 0 then [x]
    else if LessEq(x, s[0]) then
      InsertFront(x, s);
      [x] + s
    else
      var rest := Insert(x, s[1..]);
      LessEqTotal(x, s[0]);
      InsertBehind(s[0], x, s[1..], rest);
      assert s == [s[0]] + s[1..];
      [s[0]] + rest
  }

  /** An entry at or below the head of a sorted sequence may go in front of it. */
  lemma InsertFront(x: string, s: seq<string>)
    requires Sorted(s) && |s| > 0 && LessEq(x, s[0])
    ensures Sorted([x] + s)
  {
    forall j | 0 < j < |s| ensures LessEq(x, s[j]) {
      LessEqTransitive(x, s[0], s[j]);
    }
  }

  /** A head at or below the inserted entry and every entry of the tail stays in front. */
  lemma InsertBehind(h: string, x: string, tail: seq<string>, rest: seq<string>)
    requires Sorted([h] + tail) && LessEq(h, x) && Sorted(rest)
    requires multiset(rest) == multiset(tail) + multiset{x}
    ensures Sorted([h] + rest)
  {
    forall j | 0 <= j < |rest| ensures LessEq(h, rest[j]) {
      assert rest[j] in multiset(rest);
      if rest[j] != x {
        assert rest[j] in multiset(tail);
        var k :| 0 <= k < |tail| && tail[k] == rest[j];
        assert ([h] + tail)[0] == h && ([h] + tail)[k + 1] == tail[k];
      }
    }
  }

  /** Sorting, as `std::sort` leaves the vector: sorted, and a permutation of the input. */
  function Sort(s: seq<string>): (r: seq<string>)
    ensures Sorted(r)
    ensures multiset(r) == multiset(s)
    decreases |s|
  {
    if |s| == 0 then []
    else
      assert s == [s[0]] + s[1..];
      Insert(s[0], Sort(s[1..]))
  }

  /** Two sorted permutations of the same entries are the same sequence, so a sorted result
      does not depend on the order of the input. */
  lemma {:induction false} SortedUnique(a: seq<string>, b: seq<string>)
    requires Sorted(a) && Sorted(b) && multiset(a) == multiset(b)
    ensures a == b
    decreases |a|
  {
    if |a| == 0 {
      assert |b| == |multiset(b)| == 0;
    } else {
      assert |b| == |multiset(b)| == |a|;
      assert a[0] in multiset(b);
      var j :| 0 <= j < |b| && b[j] == a[0];
      assert b[0] in multiset(a);
      var i :| 0 <= i < |a| && a[i] == b[0];
      LessEqReflexive(a[0]);
      LessEqReflexive(b[0]);
      assert LessEq(b[0], a[0]);
      assert LessEq(a[0], b[0]);
      LessEqAntisymmetric(a[0], b[0]);
      assert a == [a[0]] + a[1..];
      assert b == [b[0]] + b[1..];
      calc {
        multiset(a[1..]);
        multiset(a) - multiset{a[0]};
        multiset(b) - multiset{b[0]};
        multiset(b[1..]);
      }
      SortedUnique(a[1..], b[1..]);
    }
  }

  /** Sorting depends only on the entries, not on their order. */
  lemma SortPermutationInvariant(a: seq<string>, b: seq<string>)
    requires multiset(a) == multiset(b)
    ensures Sort(a) == Sort(b)
  {
    SortedUnique(Sort(a), Sort(b));
  }

  /** Sorting a sorted sequence leaves it as it is. */
  lemma SortOfSorted(s: seq<string>)
    requires Sorted(s)
    ensures Sort(s) == s
  {
    SortedUnique(Sort(s), s);
  }
}
