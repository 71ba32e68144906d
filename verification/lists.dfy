/**
 * The Kotlin collection operations the task screens are built from:
 * `filter`, `indexOfFirst` and `sortedByDescending` on a Boolean key.
 */
module Lists {

  /** `filter`: the elements that satisfy p, in their original order. */
  function Filter<T(!new)>(s: seq<T>, p: T -> bool): (r: seq<T>)
    ensures |r| <= |s|
    ensures forall x :: x in r <==> x in s && p(x)
  {
    if s == [] then []
    else if p(s[0]) then [s[0]] + Filter(s[1..], p)
    else Filter(s[1..], p)
  }

  /** `indexOfFirst`: the index of the first element that satisfies p, or -1. */
  function IndexOfFirst<T>(s: seq<T>, p: T -> bool): (r: int)
    ensures -1 <= r < |s|
    ensures r == -1 <==> forall i :: 0 <= i < |s| ==> !p(s[i])
    ensures r >= 0 ==> p(s[r]) && forall j :: 0 <= j < r ==> !p(s[j])
  {
    if s == [] then -1
    else if p(s[0]) then 0
    else
      var k := IndexOfFirst(s[1..], p);
      if k == -1 then -1 else k + 1
  }

  /** The negation of a predicate, as a value. */
  function Not<T>(p: T -> bool): T -> bool
  {
    x => !p(x)
  }

  /** Every element with a true key comes before every element with a false one. */
  predicate TrueKeysFirst<T>(s: seq<T>, key: T -> bool)
  {
    forall i, j :: 0 <= i < j < |s| && key(s[j]) ==> key(s[i])
  }

  /** Places x into s, which is ordered true-keys-first, after every element
      whose key is at least x's key. */
  function InsertDescending<T>(x: T, s: seq<T>, key: T -> bool): seq<T>
  {
    if s == [] then [x]
    else if key(x) && !key(s[0]) then [x] + s
    else [s[0]] + InsertDescending(x, s[1..], key)
  }

  /** `sortedByDescending` on a Boolean key (false < true), which sorts
      stably: insertion sort taking the elements in their original order.
      The result is a permutation of s with every true key first. */
  function SortedByDescending<T>(s: seq<T>, key: T -> bool): (r: seq<T>)
    ensures multiset(r) == multiset(s)
    ensures TrueKeysFirst(r, key)
  {
    if s == [] then []
    else
      var sorted := SortedByDescending(s[..|s| - 1], key);
      assert s == s[..|s| - 1] + [s[|s| - 1]];
      InsertMultiset(s[|s| - 1], sorted, key);
      InsertKeepsOrder(s[|s| - 1], sorted, key);
      InsertDescending(s[|s| - 1], sorted, key)
  }

  // ---------------------------------------------------------------------------
  // Lemmas

  /** A filter keeps every copy of an element that satisfies p and no copy
      of one that does not. */
  lemma {:induction false} FilterMultiset<T(!new)>(s: seq<T>, p: T -> bool)
    ensures forall x :: multiset(Filter(s, p))[x] == if p(x) then multiset(s)[x] else 0
  {
    if s != [] {
      FilterMultiset(s[1..], p);
      assert s == [s[0]] + s[1..];
    }
  }

  /** Splitting by p and by its negation loses and duplicates nothing. */
  lemma {:induction false} PartitionMultiset<T(!new)>(s: seq<T>, p: T -> bool)
    ensures multiset(Filter(s, p) + Filter(s, Not(p))) == multiset(s)
  {
    if s != [] {
      PartitionMultiset(s[1..], p);
      assert s == [s[0]] + s[1..];
      assert Not(p)(s[0]) == !p(s[0]);
    }
  }

  lemma {:induction false} FilterConcat<T(!new)>(a: seq<T>, b: seq<T>, p: T -> bool)
    ensures Filter(a + b, p) == Filter(a, p) + Filter(b, p)
  {
    if a != [] {
      var ab := a + b;
      assert ab[0] == a[0] && ab[1..] == a[1..] + b;
      FilterConcat(a[1..], b, p);
      if p(a[0]) {
        calc {
          Filter(ab, p);
          [a[0]] + Filter(a[1..] + b, p);
          [a[0]] + (Filter(a[1..], p) + Filter(b, p));
          ([a[0]] + Filter(a[1..], p)) + Filter(b, p);
        }
      }
    } else {
      assert a + b == b;
    }
  }

  lemma {:induction false} FilterSnoc<T(!new)>(s: seq<T>, x: T, p: T -> bool)
    ensures Filter(s + [x], p) == Filter(s, p) + (if p(x) then [x] else [])
  {
    FilterConcat(s, [x], p);
    assert [x][1..] == [];
  }

  /** Filtering what a filter kept changes nothing; filtering it by the
      opposite predicate keeps nothing. */
  lemma {:induction false} FilterFiltered<T(!new)>(s: seq<T>, p: T -> bool)
    ensures Filter(Filter(s, p), p) == Filter(s, p)
    ensures Filter(Filter(s, p), Not(p)) == []
  {
    if s != [] {
      FilterFiltered(s[1..], p);
      assert Not(p)(s[0]) == !p(s[0]);
    }
  }

  /** Filtering what the opposite filter kept keeps nothing. */
  lemma {:induction false} FilterRejected<T(!new)>(s: seq<T>, p: T -> bool)
    ensures Filter(Filter(s, Not(p)), p) == []
  {
    if s != [] {
      FilterRejected(s[1..], p);
      assert Not(p)(s[0]) == !p(s[0]);
    }
  }

  /** Refiltering the two groups of a partition gives each group back. */
  lemma {:induction false} PartitionRefilters<T(!new)>(s: seq<T>, p: T -> bool)
    ensures Filter(Filter(s, p) + Filter(s, Not(p)), p) == Filter(s, p)
    ensures Filter(Filter(s, p) + Filter(s, Not(p)), Not(p)) == Filter(s, Not(p))
  {
    var yes, no := Filter(s, p), Filter(s, Not(p));
    FilterConcat(yes, no, p);
    FilterConcat(yes, no, Not(p));
    FilterFiltered(s, p);
    FilterFiltered(s, Not(p));
    FilterRejected(s, p);
    assert yes + [] == yes && [] + no == no;
  }

  lemma {:induction false} InsertMultiset<T>(x: T, s: seq<T>, key: T -> bool)
    ensures multiset(InsertDescending(x, s, key)) == multiset(s) + multiset{x}
  {
    if s != [] {
      assert s == [s[0]] + s[1..];
      InsertMultiset(x, s[1..], key);
    }
  }

  /** Inserting into a list ordered true-keys-first keeps it so. */
  lemma {:induction false} InsertKeepsOrder<T>(x: T, s: seq<T>, key: T -> bool)
    requires TrueKeysFirst(s, key)
    ensures TrueKeysFirst(InsertDescending(x, s, key), key)
  {
    if s != [] && !(key(x) && !key(s[0])) {
      var rest := InsertDescending(x, s[1..], key);
      InsertKeepsOrder(x, s[1..], key);
      InsertMultiset(x, s[1..], key);
      if !key(s[0]) {
        forall y | y in rest ensures !key(y) {
          assert y in multiset(rest);
          if y != x {
            assert y in multiset(s[1..]);
            var j :| 0 <= j < |s[1..]| && s[1..][j] == y;
            assert s[j + 1] == y;
          }
        }
      }
      var r := [s[0]] + rest;
      forall i, j | 0 <= i < j < |r| && key(r[j]) ensures key(r[i]) {
        if i > 0 {
          assert r[i] == rest[i - 1] && r[j] == rest[j - 1];
        } else {
          assert r[j] in rest;
        }
      }
    }
  }

  lemma {:induction false} InsertIntoPartition<T>(x: T, a: seq<T>, b: seq<T>, key: T -> bool)
    requires forall y :: y in a ==> key(y)
    requires forall y :: y in b ==> !key(y)
    ensures InsertDescending(x, a + b, key) == if key(x) then a + [x] + b else a + b + [x]
  {
    if a != [] {
      assert (a + b)[0] == a[0] && (a + b)[1..] == a[1..] + b;
      InsertIntoPartition(x, a[1..], b, key);
    } else if b != [] {
      assert a + b == b;
      if !key(x) {
        InsertIntoPartition(x, [], b[1..], key);
        assert [] + b[1..] == b[1..];
      }
    }
  }

  /** A stable sort on a Boolean key puts every true-key element first and
      keeps the original order within each of the two groups. */
  lemma {:induction false} SortedIsPartition<T(!new)>(s: seq<T>, key: T -> bool)
    ensures SortedByDescending(s, key) == Filter(s, key) + Filter(s, Not(key))
  {
    if s != [] {
      var init, x := s[..|s| - 1], s[|s| - 1];
      assert s == init + [x];
      var yes, no := Filter(init, key), Filter(init, Not(key));
      SortedIsPartition(init, key);
      assert SortedByDescending(s, key) == InsertDescending(x, yes + no, key);
      NotKeyHolds(init, key);
      InsertIntoPartition(x, yes, no, key);
      FilterSnoc(init, x, key);
      FilterSnoc(init, x, Not(key));
      assert Not(key)(x) == !key(x);
      if key(x) {
        assert Filter(s, key) == yes + [x];
        assert Filter(s, Not(key)) == no;
        assert yes + [x] + no == (yes + [x]) + no;
      } else {
        assert Filter(s, key) == yes;
        assert Filter(s, Not(key)) == no + [x];
        assert yes + no + [x] == yes + (no + [x]);
      }
    }
  }

  lemma NotKeyHolds<T(!new)>(s: seq<T>, key: T -> bool)
    ensures forall y :: y in Filter(s, Not(key)) ==> !key(y)
  {
    forall y | y in Filter(s, Not(key)) ensures !key(y) {
      assert Not(key)(y) == !key(y);
    }
  }
}
