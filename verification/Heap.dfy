/** Go's container/heap and sort behind contracts: a heap operation returns some
    heap-ordered rearrangement. The bodies, which sort, are one way to meet the
    contracts; callers see the contracts only.
 */
module Heap {

  /** Elements are compared by a pair of integers, lexicographically. */
  type Key = (int, int)

  predicate KeyLe(a: Key, b: Key) { a.0 < b.0 || (a.0 == b.0 && a.1 <= b.1) }

  predicate AboveParent<T>(key: T -> Key, h: seq<T>, i: nat)
    requires 0 < i < |h|
  {
    KeyLe(key(h[(i - 1) / 2]), key(h[i]))
  }

  ghost predicate IsHeap<T>(key: T -> Key, h: seq<T>) {
    forall i :: 0 < i < |h| ==> AboveParent(key, h, i)
  }

  ghost predicate IsSorted<T>(key: T -> Key, h: seq<T>) {
    forall i, j :: 0 <= i < j < |h| ==> KeyLe(key(h[i]), key(h[j]))
  }

  /** The root of a heap is a least element. */
  lemma {:induction false} RootIsLeast<T>(key: T -> Key, h: seq<T>, i: nat)
    requires IsHeap(key, h) && i < |h|
    ensures KeyLe(key(h[0]), key(h[i]))
  {
    if i > 0 {
      RootIsLeast(key, h, (i - 1) / 2);
      assert AboveParent(key, h, i);
    }
  }

  function Insert<T>(key: T -> Key, x: T, s: seq<T>): seq<T> {
    if s == [] || KeyLe(key(x), key(s[0])) then [x] + s else [s[0]] + Insert(key, x, s[1..])
  }

  function Sorted<T>(key: T -> Key, s: seq<T>): seq<T> {
    if s == [] then [] else Insert(key, s[0], Sorted(key, s[1..]))
  }

  lemma {:induction false} InsertContents<T>(key: T -> Key, x: T, s: seq<T>)
    ensures multiset(Insert(key, x, s)) == multiset(s) + multiset{x}
  {
    if s == [] || KeyLe(key(x), key(s[0])) {
    } else {
      assert s == [s[0]] + s[1..];
      InsertContents(key, x, s[1..]);
    }
  }

  lemma {:induction false} InsertKeepsSorted<T>(key: T -> Key, x: T, s: seq<T>)
    requires IsSorted(key, s)
    ensures IsSorted(key, Insert(key, x, s))
  {
    if s == [] || KeyLe(key(x), key(s[0])) {
    } else {
      InsertKeepsSorted(key, x, s[1..]);
      InsertContents(key, x, s[1..]);
      var r := Insert(key, x, s[1..]);
      forall i | 0 <= i < |r| ensures KeyLe(key(s[0]), key(r[i])) {
        assert r[i] in multiset(r);
      }
    }
  }

  lemma {:induction false} SortedIsSorted<T>(key: T -> Key, s: seq<T>)
    ensures IsSorted(key, Sorted(key, s)) && multiset(Sorted(key, s)) == multiset(s)
  {
    if s != [] {
      assert s == [s[0]] + s[1..];
      SortedIsSorted(key, s[1..]);
      InsertContents(key, s[0], Sorted(key, s[1..]));
      InsertKeepsSorted(key, s[0], Sorted(key, s[1..]));
    }
  }

  /** sort.Sort */
  method Sort<T>(key: T -> Key, s: seq<T>) returns (r: seq<T>)
    ensures IsSorted(key, r) && multiset(r) == multiset(s) && |r| == |s|
  {
    r := Sorted(key, s);
    SortedIsSorted(key, s);
    assert |multiset(r)| == |multiset(s)|;
  }

  /** heap.Init */
  method Init<T>(key: T -> Key, s: seq<T>) returns (r: seq<T>)
    ensures IsHeap(key, r) && multiset(r) == multiset(s)
  {
    r := Sort(key, s);
  }

  /** heap.Push */
  method Push<T>(key: T -> Key, h: seq<T>, x: T) returns (r: seq<T>)
    requires IsHeap(key, h)
    ensures IsHeap(key, r) && multiset(r) == multiset(h) + multiset{x}
  {
    r := Init(key, h + [x]);
  }

  /** heap.Pop */
  method Pop<T>(key: T -> Key, h: seq<T>) returns (x: T, r: seq<T>)
    requires IsHeap(key, h) && h != []
    ensures x == h[0] && IsHeap(key, r) && multiset(r) == multiset(h) - multiset{x} && |r| == |h| - 1
  {
    x := h[0];
    assert h == [h[0]] + h[1..];
    r := Init(key, h[1..]);
    assert |multiset(r)| == |multiset(h[1..])|;
  }

  /** heap.Remove */
  method Remove<T>(key: T -> Key, h: seq<T>, i: nat) returns (r: seq<T>)
    requires IsHeap(key, h) && i < |h|
    ensures IsHeap(key, r) && multiset(r) == multiset(h) - multiset{h[i]}
  {
    assert h == h[..i] + [h[i]] + h[i + 1..];
    r := Init(key, h[..i] + h[i + 1..]);
  }

  /** Ranging over a set or map, in whatever order. */
  method Listing<T(==)>(whole: set<T>) returns (s: seq<T>)
    ensures multiset(s) == multiset(whole)
  {
    s := [];
    var todo := whole;
    while todo != {}
      invariant todo <= whole && multiset(s) == multiset(whole - todo)
      decreases todo
    {
      var x :| x in todo;
      assert whole - (todo - {x}) == (whole - todo) + {x};
      todo := todo - {x};
      s := s + [x];
    }
    assert whole - {} == whole;
  }
}
