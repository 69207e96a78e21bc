/** A stable sort standing in for `Array.prototype.sort`. Every comparator in the
    calendar views and the search box orders by a tuple of integers (earlier fields
    decide, later ones break ties), so a sort is described by a key function into
    integer sequences compared lexicographically. */
module Sorting {

  /** Lexicographic order on integer sequences; a proper prefix comes first. */
  predicate LexLe(a: seq<int>, b: seq<int>)
    decreases |a|
  {
    a == [] || (b != [] && (a[0] < b[0] || (a[0] == b[0] && LexLe(a[1..], b[1..]))))
  }

  lemma {:induction false} LexLeTotal(a: seq<int>, b: seq<int>)
    ensures LexLe(a, b) || LexLe(b, a)
    decreases |a|
  {
    if a != [] && b != [] && a[0] == b[0] {
      LexLeTotal(a[1..], b[1..]);
    }
  }

  lemma {:induction false} LexLeTransitive(a: seq<int>, b: seq<int>, c: seq<int>)
    requires LexLe(a, b) && LexLe(b, c)
    ensures LexLe(a, c)
    decreases |a|
  {
    if a != [] && a[0] == b[0] && b[0] == c[0] {
      LexLeTransitive(a[1..], b[1..], c[1..]);
    }
  }

  /** Reading the first field alone: the smaller first field comes first. */
  lemma LexLeHead(a: seq<int>, b: seq<int>)
    requires a != [] && b != []
    ensures a[0] < b[0] ==> LexLe(a, b) && !LexLe(b, a)
    ensures LexLe(a, b) ==> a[0] <= b[0]
  {
  }

  predicate SortedBy<T>(s: seq<T>, key: T -> seq<int>) {
    forall i, j | 0 <= i < j < |s| :: LexLe(key(s[i]), key(s[j]))
  }

  /** Places `x` before the first element whose key is not below its own. */
  function Insert<T>(x: T, ys: seq<T>, key: T -> seq<int>): (r: seq<T>)
    ensures multiset(r) == multiset(ys) + multiset{x}
    ensures |r| == |ys| + 1
  {
    if ys == [] then [x]
    else if LexLe(key(x), key(ys[0])) then [x] + ys
    else
      var rest := Insert(x, ys[1..], key);
      assert ys == [ys[0]] + ys[1..];
      [ys[0]] + rest
  }

  /** Insertion sort; earlier elements stay before later ones with an equal key. */
  function SortBy<T>(s: seq<T>, key: T -> seq<int>): (r: seq<T>)
    ensures multiset(r) == multiset(s)
    ensures |r| == |s|
  {
    if s == [] then []
    else
      assert s == [s[0]] + s[1..];
      Insert(s[0], SortBy(s[1..], key), key)
  }

  lemma {:induction false} InsertSorted<T>(x: T, ys: seq<T>, key: T -> seq<int>)
    requires SortedBy(ys, key)
    ensures SortedBy(Insert(x, ys, key), key)
    decreases |ys|
  {
    var r := Insert(x, ys, key);
    if ys == [] {
    } else if LexLe(key(x), key(ys[0])) {
      forall i, j | 0 <= i < j < |r| ensures LexLe(key(r[i]), key(r[j])) {
        if i == 0 && j > 1 {
          LexLeTransitive(key(x), key(ys[0]), key(ys[j - 1]));
        }
      }
    } else {
      LexLeTotal(key(x), key(ys[0]));
      InsertSorted(x, ys[1..], key);
      var rest := Insert(x, ys[1..], key);
      assert r == [ys[0]] + rest;
      forall i, j | 0 <= i < j < |r| ensures LexLe(key(r[i]), key(r[j])) {
        if i == 0 {
          assert r[j] in multiset(rest);
          assert r[j] in multiset(ys[1..]) + multiset{x};
          if r[j] != x {
            assert r[j] in ys[1..];
            var k :| 0 <= k < |ys[1..]| && ys[1..][k] == r[j];
            assert ys[k + 1] == r[j];
          }
        }
      }
    }
  }

  lemma {:induction false} SortBySorted<T>(s: seq<T>, key: T -> seq<int>)
    ensures SortedBy(SortBy(s, key), key)
    decreases |s|
  {
    if s != [] {
      SortBySorted(s[1..], key);
      InsertSorted(s[0], SortBy(s[1..], key), key);
    }
  }

  /** The sorted list holds exactly the elements of the input. */
  lemma SortByMembers<T>(s: seq<T>, key: T -> seq<int>, x: T)
    ensures x in SortBy(s, key) <==> x in s
  {
    assert x in SortBy(s, key) <==> x in multiset(SortBy(s, key));
  }
}
