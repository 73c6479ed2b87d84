/** Sorting as the source calls it: higher rank first, then smaller id. Ids are pairwise different wherever the
    source sorts, so the order is strict and one permutation only is sorted: the result depends neither on the
    algorithm behind the library call nor on the order in which a map was ranged over. */
module Ranking {
  import opened Scores
  import Text

  datatype Key = Key(rank: Score, id: string)

  predicate Before(a: Key, b: Key) {
    Above(a.rank, b.rank) || (a.rank == b.rank && Text.Less(a.id, b.id))
  }

  lemma BeforeStrict(a: Key, b: Key)
    ensures !(Before(a, b) && Before(b, a))
    ensures Before(a, b) || Before(b, a) || a == b
    ensures !Before(a, a)
  {
    Text.LessTotal(a.id, b.id);
    Text.LessTotal(a.id, a.id);
  }

  lemma BeforeTransitive(a: Key, b: Key, c: Key)
    requires !Before(b, a) && !Before(c, b)
    ensures !Before(c, a)
  {
    if Before(c, a) && c.rank == b.rank == a.rank {
      Text.LessTotal(a.id, b.id);
      Text.LessTotal(b.id, c.id);
      if a.id != b.id && b.id != c.id {
        Text.LessTransitive(a.id, b.id, c.id);
      }
      Text.LessTotal(a.id, c.id);
    }
  }

  predicate Sorted<T>(s: seq<T>, key: T -> Key) {
    forall i, j :: 0 <= i < j < |s| ==> !Before(key(s[j]), key(s[i]))
  }

  predicate DistinctIds<T>(s: seq<T>, key: T -> Key) {
    forall i, j :: 0 <= i < j < |s| ==> key(s[i]).id != key(s[j]).id
  }

  function Insert<T>(x: T, s: seq<T>, key: T -> Key): (r: seq<T>)
    ensures multiset(r) == multiset{x} + multiset(s)
    ensures |r| == |s| + 1
  {
    if s == [] || !Before(key(s[0]), key(x)) then [x] + s
    else
      assert s == [s[0]] + s[1..];
      [s[0]] + Insert(x, s[1..], key)
  }

  function Sort<T>(s: seq<T>, key: T -> Key): (r: seq<T>)
    ensures multiset(r) == multiset(s)
    ensures |r| == |s|
  {
    if s == [] then []
    else
      assert s == [s[0]] + s[1..];
      Insert(s[0], Sort(s[1..], key), key)
  }

  lemma {:induction false} InsertSorted<T>(x: T, s: seq<T>, key: T -> Key)
    requires Sorted(s, key)
    ensures Sorted(Insert(x, s, key), key)
  {
    if s == [] {
    } else if !Before(key(s[0]), key(x)) {
      forall j | 0 <= j < |s| ensures !Before(key(s[j]), key(x)) {
        if j > 0 { BeforeTransitive(key(x), key(s[0]), key(s[j])); }
      }
    } else {
      InsertSorted(x, s[1..], key);
      var tail := Insert(x, s[1..], key);
      forall j | 0 <= j < |tail| ensures !Before(key(tail[j]), key(s[0])) {
        assert tail[j] in multiset(tail);
        assert tail[j] == x || tail[j] in s[1..];
        BeforeStrict(key(s[0]), key(x));
      }
    }
  }

  lemma {:induction false} SortSorted<T>(s: seq<T>, key: T -> Key)
    ensures Sorted(Sort(s, key), key)
  {
    if s != [] {
      SortSorted(s[1..], key);
      InsertSorted(s[0], Sort(s[1..], key), key);
    }
  }

  lemma SortedHead<T>(a: seq<T>, b: seq<T>, key: T -> Key)
    requires multiset(a) == multiset(b) && a != [] && b != []
    requires Sorted(a, key) && Sorted(b, key)
    ensures key(a[0]) == key(b[0])
  {
    assert a[0] in multiset(a) && b[0] in multiset(b);
    var j :| 0 <= j < |b| && b[j] == a[0];
    var i :| 0 <= i < |a| && a[i] == b[0];
    BeforeStrict(key(a[0]), key(b[0]));
  }

  lemma {:induction false} SortedUnique<T>(a: seq<T>, b: seq<T>, key: T -> Key)
    requires multiset(a) == multiset(b)
    requires Sorted(a, key) && Sorted(b, key) && DistinctIds(a, key)
    ensures a == b
  {
    assert |a| == |multiset(a)| && |b| == |multiset(b)|;
    if a != [] {
      SortedHead(a, b, key);
      assert b[0] in multiset(b);
      var i :| 0 <= i < |a| && a[i] == b[0];
      assert i == 0;
      TailsPermute(a, b);
      assert DistinctIds(a[1..], key) && Sorted(a[1..], key) && Sorted(b[1..], key);
      SortedUnique(a[1..], b[1..], key);
    }
  }

  lemma TailsPermute<T>(a: seq<T>, b: seq<T>)
    requires multiset(a) == multiset(b) && a != [] && b != [] && a[0] == b[0]
    ensures multiset(a[1..]) == multiset(b[1..])
  {
    assert a == [a[0]] + a[1..] && b == [b[0]] + b[1..];
    assert multiset(a[1..]) == multiset(a) - multiset{a[0]};
  }

  lemma DistinctIdsPermute<T>(a: seq<T>, b: seq<T>, key: T -> Key)
    requires multiset(a) == multiset(b) && DistinctIds(a, key)
    ensures DistinctIds(b, key)
  {
    forall i, j | 0 <= i < j < |b| ensures key(b[i]).id != key(b[j]).id {
      assert b[i] in multiset(a) && b[j] in multiset(a);
      if b[i] == b[j] {
        TwiceInMultiset(b, i, j);
        OccursAtMostOnce(a, b[i], key);
        assert false;
      }
    }
  }

  lemma OccursAtMostOnce<T>(a: seq<T>, x: T, key: T -> Key)
    requires DistinctIds(a, key)
    ensures multiset(a)[x] <= 1
  {
    if x in a {
      var k :| 0 <= k < |a| && a[k] == x;
      assert forall i :: 0 <= i < |a| && i != k ==> a[i] != x by {
        forall i | 0 <= i < |a| && i != k ensures a[i] != x {
          assert key(a[i]).id != key(a[k]).id;
        }
      }
      CountSplit(a, k);
    }
  }

  lemma CountSplit<T>(a: seq<T>, k: nat)
    requires k < |a| && forall i :: 0 <= i < |a| && i != k ==> a[i] != a[k]
    ensures multiset(a)[a[k]] == 1
  {
    assert a == a[..k] + [a[k]] + a[k + 1..];
    assert a[k] !in a[..k] && a[k] !in a[k + 1..];
  }

  lemma TwiceInMultiset<T>(b: seq<T>, i: nat, j: nat)
    requires i < j < |b| && b[i] == b[j]
    ensures multiset(b)[b[i]] >= 2
  {
    assert b == b[..i] + [b[i]] + b[i + 1..j] + [b[j]] + b[j + 1..];
  }

  /** Whatever order the elements arrive in, sorting gives the same sequence. */
  lemma SortIgnoresOrder<T>(a: seq<T>, b: seq<T>, key: T -> Key)
    requires multiset(a) == multiset(b) && DistinctIds(a, key)
    ensures Sort(a, key) == Sort(b, key)
  {
    SortSorted(a, key);
    SortSorted(b, key);
    DistinctIdsPermute(a, Sort(a, key), key);
    SortedUnique(Sort(a, key), Sort(b, key), key);
  }

  /** What a cut of a sorted sequence keeps comes before what it drops. */
  lemma KeptBeforeDropped<T>(s: seq<T>, n: nat, kept: T, dropped: T, key: T -> Key)
    requires Sorted(s, key) && DistinctIds(s, key) && n <= |s|
    requires kept in s[..n] && dropped in s && dropped !in s[..n]
    ensures Before(key(kept), key(dropped))
  {
    var i :| 0 <= i < n && s[i] == kept;
    var j :| 0 <= j < |s| && s[j] == dropped;
    assert j >= n;
    BeforeStrict(key(kept), key(dropped));
  }

  // ---------- Elements of a map, in an arbitrary order ----------

  /** `s` lists every element of `set` exactly once. */
  ghost predicate Enumerates<T(!new)>(s: seq<T>, elements: set<T>) {
    && (forall x :: x in s <==> x in elements)
    && (forall i, j :: 0 <= i < j < |s| ==> s[i] != s[j])
  }

  lemma {:induction false} EnumerationsPermute<T(!new)>(a: seq<T>, b: seq<T>, elements: set<T>)
    requires Enumerates(a, elements) && Enumerates(b, elements)
    ensures multiset(a) == multiset(b)
  {
    forall x ensures multiset(a)[x] == multiset(b)[x] {
      OccursOnce(a, elements, x);
      OccursOnce(b, elements, x);
    }
  }

  lemma OccursOnce<T(!new)>(a: seq<T>, elements: set<T>, x: T)
    requires Enumerates(a, elements)
    ensures multiset(a)[x] == if x in elements then 1 else 0
  {
    if x in elements {
      var k :| 0 <= k < |a| && a[k] == x;
      CountSplit(a, k);
    }
  }

  ghost function Listed<T(!new)>(elements: set<T>): (s: seq<T>)
    ensures Enumerates(s, elements)
    ensures |s| == |elements|
  {
    if elements == {} then []
    else
      var x :| x in elements;
      [x] + Listed(elements - {x})
  }

  predicate IdentifiedBy<T(!new)>(elements: set<T>, key: T -> Key) {
    forall x, y :: x in elements && y in elements && x != y ==> key(x).id != key(y).id
  }

  ghost function SortedSet<T(!new)>(elements: set<T>, key: T -> Key): (s: seq<T>)
    ensures |s| == |elements|
  {
    Sort(Listed(elements), key)
  }

  /** Sorting any listing of a set gives the sequence `SortedSet`, which is sorted and lists the set once. */
  lemma SortOfListing<T(!new)>(s: seq<T>, elements: set<T>, key: T -> Key)
    requires Enumerates(s, elements) && IdentifiedBy(elements, key)
    ensures Sort(s, key) == SortedSet(elements, key)
  {
    var l := Listed(elements);
    EnumerationsPermute(s, l, elements);
    forall i, j | 0 <= i < j < |s| ensures key(s[i]).id != key(s[j]).id {
      assert s[i] in elements && s[j] in elements && s[i] != s[j];
    }
    SortIgnoresOrder(s, l, key);
  }

  lemma SortedSetCorrect<T(!new)>(elements: set<T>, key: T -> Key)
    requires IdentifiedBy(elements, key)
    ensures Sorted(SortedSet(elements, key), key)
    ensures DistinctIds(SortedSet(elements, key), key)
    ensures Enumerates(SortedSet(elements, key), elements)
  {
    var l := Listed(elements);
    var s := SortedSet(elements, key);
    SortSorted(l, key);
    forall i, j | 0 <= i < j < |l| ensures key(l[i]).id != key(l[j]).id {
      assert l[i] in elements && l[j] in elements && l[i] != l[j];
    }
    DistinctIdsPermute(l, s, key);
    forall x ensures x in s <==> x in elements {
      assert x in s <==> x in multiset(s);
      assert x in l <==> x in multiset(l);
    }
  }
}
