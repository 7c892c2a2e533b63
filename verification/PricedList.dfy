/** The price heap of core/tx_list.go. Entries of transactions that left the pool
    stay in the heap until they surface or until a quarter of it is stale; `all`,
    the pool's lookup, is handed to each method that consults it.
 */
module PricedList {
  import opened Heap
  import opened TxList

  /** Cheaper first; at equal price the higher nonce goes first. */
  function PriceKey(tx: Tx): Key { (tx.price, 0 - tx.nonce) }

  /** The order discards follow. */
  predicate CheaperOrEqual(a: Tx, b: Tx) { a.price < b.price || (a.price == b.price && a.nonce >= b.nonce) }

  lemma KeyIsPrice(a: Tx, b: Tx)
    ensures KeyLe(PriceKey(a), PriceKey(b)) <==> CheaperOrEqual(a, b)
  {
  }

  ghost predicate NoDuplicates(items: multiset<Tx>) { forall tx :: items[tx] <= 1 }

  /** The books: `owed` are transactions already taken off the heap that the pool
      is about to drop from `all`. */
  ghost predicate Balanced(items: multiset<Tx>, stales: int, all: set<Tx>, owed: set<Tx>) {
    && NoDuplicates(items)
    && owed <= all && (forall tx :: tx in owed ==> tx !in items)
    && stales == |items| - |all| + |owed|
  }

  class Priced {
    var items: seq<Tx>
    var stales: int
    /** History: no removed transaction has come back while its old entry was still
        in the heap, since the heap was last rebuilt. */
    ghost var exact: bool

    ghost predicate Valid()
      reads `items
    {
      IsHeap(PriceKey, items)
    }

    /** Every known transaction is in the heap (or owed), and the stale count is
        right as long as history has been kind. */
    ghost predicate Tracks(all: set<Tx>, owed: set<Tx>)
      reads this
    {
      && Valid()
      && (forall tx :: tx in all && tx !in owed ==> tx in multiset(items))
      && (exact ==> Balanced(multiset(items), stales, all, owed))
    }

    /** As long as history has been kind no entry is in the way. */
    lemma ExactIsClear(all: set<Tx>, locals: set<Address>, count: nat)
      requires Tracks(all, {}) && exact
      ensures Clear(Remote(multiset(items), all, locals), count)
    {
      assert NoDuplicates(multiset(items));
    }

    /** Dropping an owed transaction from the pool settles the debt. */
    lemma PaidOff(all: set<Tx>, owed: set<Tx>, tx: Tx)
      requires Tracks(all, owed) && tx in all && tx in owed
      ensures Tracks(all - {tx}, owed - {tx})
    {
    }

    lemma NothingOwed(all: set<Tx>, owed: set<Tx>, tx: Tx)
      requires Tracks(all, owed) && tx !in all
      ensures Tracks(all, owed - {tx})
    {
      if exact { assert owed - {tx} == owed; }
    }

    constructor ()
      ensures Tracks({}, {}) && exact && items == [] && stales == 0
    {
      items, stales, exact := [], 0, true;
    }

    /** Put, for a transaction that has just been added to `all`. */
    method Put(tx: Tx, ghost all: set<Tx>)
      requires Tracks(all, {}) && tx !in all
      modifies this
      ensures Tracks(all + {tx}, {})
      ensures multiset(items) == old(multiset(items)) + multiset{tx} && stales == old(stales)
      ensures exact == (old(exact) && tx !in old(items))
    {
      exact := exact && tx !in items;
      items := Push(PriceKey, items, tx);
      assert |multiset(items)| == |old(multiset(items))| + 1;
    }

    /** Removed, for a transaction that has just left `all`: count it stale, and
        rebuild the heap once more than a quarter is. */
    method Removed(all: set<Tx>, ghost gone: Tx)
      requires gone !in all && Tracks(all + {gone}, {})
      modifies this
      ensures Tracks(all, {})
      ensures if old(stales) + 1 <= |old(items)| / 4 then items == old(items) && stales == old(stales) + 1 && exact == old(exact)
              else multiset(items) == multiset(all) && stales == 0 && exact
    {
      stales := stales + 1;
      if stales <= |items| / 4 {
        assert exact ==> |all + {gone}| == |all| + 1;
        return;
      }
      stales, exact := 0, true;
      items := Listing(all);
      assert |multiset(items)| == |multiset(all)|;
      items := Init(PriceKey, items);
    }

    /** Take the cheapest entry off the heap. */
    method PopCheapest() returns (tx: Tx)
      requires Valid() && items != []
      modifies this`items
      ensures Valid()
      ensures tx == old(items)[0] && |items| == |old(items)| - 1
      ensures multiset(items) == old(multiset(items)) - multiset{tx} && tx in old(multiset(items))
      ensures forall t :: t in multiset(items) ==> CheaperOrEqual(tx, t)
    {
      ghost var h := items;
      tx, items := Pop(PriceKey, items);
      forall t | t in multiset(items) ensures CheaperOrEqual(tx, t) {
        assert t in multiset(h);
        HeapRootCheapest(h, t);
      }
    }

    /** Drop stale entries off the top. */
    method SkipStale(all: set<Tx>)
      requires Tracks(all, {})
      modifies this`items, this`stales
      ensures Tracks(all, {}) && (items != [] ==> items[0] in all)
      ensures forall t :: t in all ==> multiset(items)[t] == old(multiset(items))[t]
    {
      while |items| > 0 && items[0] !in all
        invariant Tracks(all, {}) && forall t :: t in all ==> multiset(items)[t] == old(multiset(items))[t]
        decreases |items|
      {
        ghost var before, count := multiset(items), stales;
        stales := stales - 1;
        var gone := PopCheapest();
        StaleGone(before, multiset(items), count, all, gone, exact);
      }
    }

    /** Underpriced: as cheap as, or cheaper than, everything in the pool. */
    method Underpriced(tx: Tx, locals: set<Address>, all: set<Tx>) returns (b: bool)
      requires Tracks(all, {})
      modifies this`items, this`stales
      ensures Tracks(all, {})
      ensures b <==> tx.from !in locals && all != {} && forall t :: t in all ==> tx.price <= t.price
      ensures forall t :: t in all ==> multiset(items)[t] == old(multiset(items))[t]
    {
      if tx.from in locals {
        return false;
      }
      SkipStale(all);
      if |items| == 0 {
        assert forall t :: t in all ==> t in multiset(items);
        return false;
      }
      var cheapest := items[0];
      forall t | t in all ensures cheapest.price <= t.price {
        assert t in multiset(items);
        HeapRootCheapest(items, t);
      }
      b := cheapest.price >= tx.price;
    }

    /** Put back what was set aside. */
    method PushAll(save: seq<Tx>)
      requires Valid()
      modifies this`items
      ensures Valid() && multiset(items) == old(multiset(items)) + multiset(save)
    {
      for i := 0 to |save|
        invariant Valid() && multiset(items) == old(multiset(items)) + multiset(save[..i])
      {
        items := Push(PriceKey, items, save[i]);
        assert save[..i + 1] == save[..i] + [save[i]];
      }
      assert save[..|save|] == save;
    }

    /** Discard: take the cheapest remote transactions off the heap, up to `count`. */
    method Discard(count: nat, locals: set<Address>, all: set<Tx>) returns (drop: seq<Tx>)
      requires Tracks(all, {})
      modifies this`items, this`stales
      ensures Tracks(all, set t | t in drop)
      ensures exact ==> NoDuplicates(multiset(drop))
      ensures |drop| <= count
      ensures forall t :: t in all ==> multiset(items)[t] + multiset(drop)[t] == old(multiset(items))[t]
      ensures forall t :: t in drop ==> t in all && t.from !in locals
      ensures |drop| < count ==> forall t :: t in multiset(items) ==> t.from in locals
      ensures forall d, t :: d in drop && t in multiset(items) && t in all && t.from !in locals ==> CheaperOrEqual(d, t)
    {
      hide *;
      drop := [];
      var save := [];
      var left: nat := count;
      Opening(all);
      ghost var was := multiset(items);
      EntriesNone(was, all);
      while |items| > 0 && left > 0
        invariant Valid() && Split(multiset(items), save, drop, all, locals)
        invariant exact ==> Even(multiset(items), save, drop, stales, all)
        invariant left + |drop| == count && Entries(was, multiset(items), save, drop, all)
        decreases |items|
      {
        ghost var before, c := multiset(items), stales;
        var tx := PopCheapest();
        if tx !in all {
          stales := stales - 1;
          SplitStale(before, multiset(items), save, drop, c, all, locals, tx, exact);
          EntriesStale(was, before, multiset(items), save, drop, all, tx);
        } else if tx.from in locals {
          SplitMove(before, multiset(items), save, drop, c, all, locals, tx, exact);
          EntriesMove(was, before, multiset(items), save, drop, all, tx);
          save := save + [tx];
        } else {
          SplitMove(before, multiset(items), save, drop, c, all, locals, tx, exact);
          EntriesMove(was, before, multiset(items), save, drop, all, tx);
          drop := drop + [tx];
          left := left - 1;
        }
      }
      ghost var rest := multiset(items);
      PushAll(save);
      EntriesBack(was, rest, save, drop, all);
      Closing(rest, save, drop, all, locals);
    }

    /** Cap: take every remote transaction below `threshold` off the heap. */
    method Cap(threshold: nat, locals: set<Address>, all: set<Tx>) returns (drop: seq<Tx>)
      requires Tracks(all, {})
      modifies this`items, this`stales
      ensures Tracks(all, set t | t in drop)
      ensures exact ==> NoDuplicates(multiset(drop))
      ensures forall t :: t in drop <==> t in all && t.from !in locals && t.price < threshold
    {
      hide *;
      drop := [];
      var save, last := [], [];
      Opening(all);
      UnderNone(threshold, multiset(items));
      ghost var rest := multiset(items);
      while |items| > 0 && last == []
        invariant Valid() && Apart(rest, multiset(items), last)
        invariant Split(rest, save, drop, all, locals)
        invariant exact ==> Even(rest, save, drop, stales, all)
        invariant Under(drop, threshold) && (last != [] ==> NotUnder(rest, threshold))
        decreases |items|, |last| == 0
      {
        ghost var c := stales;
        SameApart(rest, multiset(items));
        var tx := PopCheapest();
        SameApart(multiset(items), multiset(items));
        if tx !in all {
          stales := stales - 1;
          SplitStale(rest, multiset(items), save, drop, c, all, locals, tx, exact);
          rest := multiset(items);
        } else if tx.price >= threshold {
          last := [tx];
          DearerThan(tx, multiset(items), rest, threshold);
        } else {
          SplitMove(rest, multiset(items), save, drop, c, all, locals, tx, exact);
          if tx.from in locals {
            save := save + [tx];
          } else {
            UnderMore(drop, tx, threshold);
            drop := drop + [tx];
          }
          rest := multiset(items);
        }
      }
      Exhausted(multiset(items), rest, last, threshold);
      ghost var left := multiset(items);
      PushAll(save + last);
      SavedBack(left, rest, save, last);
      Closing(rest, save, drop, all, locals);
      AllCheapTaken(rest, save, drop, all, locals, threshold);
    }

    lemma Opening(all: set<Tx>)
      requires Tracks(all, {})
      ensures Valid() && forall locals :: Split(multiset(items), [], [], all, locals)
      ensures exact ==> Even(multiset(items), [], [], stales, all)
    {
      assert multiset(items) + multiset([]) + multiset([]) == multiset(items);
    }

    lemma Closing(rest: multiset<Tx>, save: seq<Tx>, drop: seq<Tx>, all: set<Tx>, locals: set<Address>)
      requires Valid() && multiset(items) == rest + multiset(save)
      requires Split(rest, save, drop, all, locals) && (exact ==> Even(rest, save, drop, stales, all))
      ensures Tracks(all, set t | t in drop)
      ensures exact ==> NoDuplicates(multiset(drop))
      ensures forall t :: t in drop ==> t in all && t.from !in locals
      ensures |rest| == 0 ==> forall t :: t in multiset(items) ==> t.from in locals
      ensures forall d, t :: d in drop && t in multiset(items) && t in all && t.from !in locals ==> CheaperOrEqual(d, t)
    {
      forall t | t in multiset(items) && t !in rest ensures t in save { assert t in multiset(save); }
      if exact { EvenBalances(rest, save, drop, stales, all); }
      forall t | t in all && t !in drop ensures t in multiset(items) { assert t in rest || t in multiset(save); }
    }
  }

  /** Between pops: the heap, what was set aside and what was taken cover the pool,
      and everything taken off was no dearer than what is left. */
  ghost predicate Split(rest: multiset<Tx>, save: seq<Tx>, drop: seq<Tx>, all: set<Tx>, locals: set<Address>) {
    && (forall t :: t in all ==> t in rest || t in save || t in drop)
    && (forall t :: t in save ==> t in all && t.from in locals)
    && (forall t :: t in drop ==> t in all && t.from !in locals)
    && (forall d, t :: d in drop && t in rest ==> CheaperOrEqual(d, t))
  }

  ghost predicate Even(rest: multiset<Tx>, save: seq<Tx>, drop: seq<Tx>, stales: int, all: set<Tx>) {
    var entries := rest + multiset(save) + multiset(drop);
    NoDuplicates(entries) && stales == |entries| - |all|
  }

  /** Entries of known transactions are only moved. */
  ghost predicate Entries(was: multiset<Tx>, rest: multiset<Tx>, save: seq<Tx>, drop: seq<Tx>, all: set<Tx>) {
    forall t :: t in all ==> rest[t] + multiset(save)[t] + multiset(drop)[t] == was[t]
  }

  lemma EntriesNone(was: multiset<Tx>, all: set<Tx>)
    ensures Entries(was, was, [], [], all)
  {
  }

  lemma EntriesStale(was: multiset<Tx>, before: multiset<Tx>, after: multiset<Tx>, save: seq<Tx>, drop: seq<Tx>, all: set<Tx>, tx: Tx)
    requires Entries(was, before, save, drop, all) && tx in before && after == before - multiset{tx} && tx !in all
    ensures Entries(was, after, save, drop, all)
  {
  }

  lemma EntriesMove(was: multiset<Tx>, before: multiset<Tx>, after: multiset<Tx>, save: seq<Tx>, drop: seq<Tx>, all: set<Tx>, tx: Tx)
    requires Entries(was, before, save, drop, all) && tx in before && after == before - multiset{tx}
    ensures Entries(was, after, save + [tx], drop, all) && Entries(was, after, save, drop + [tx], all)
  {
    assert multiset(save + [tx]) == multiset(save) + multiset{tx};
    assert multiset(drop + [tx]) == multiset(drop) + multiset{tx};
  }

  lemma EntriesBack(was: multiset<Tx>, rest: multiset<Tx>, save: seq<Tx>, drop: seq<Tx>, all: set<Tx>)
    requires Entries(was, rest, save, drop, all)
    ensures forall t :: t in all ==> (rest + multiset(save))[t] + multiset(drop)[t] == was[t]
  {
  }

  // ----- how much room a discard makes -----

  ghost function Only(m: multiset<Tx>, s: set<Tx>): (r: multiset<Tx>)
    ensures forall t :: r[t] == if t in s then m[t] else 0
  {
    if s == {} then multiset{} else var x :| x in s; Only(m, s - {x})[x := m[x]]
  }

  /** The heap's entries of known remote transactions. */
  ghost function Remote(items: multiset<Tx>, all: set<Tx>, locals: set<Address>): multiset<Tx> {
    Only(items, set t | t in all && t.from !in locals)
  }

  /** The entries strictly cheaper than `t`. */
  ghost function Cheaper(rs: multiset<Tx>, t: Tx): multiset<Tx> { Only(rs, set x | x in rs && !CheaperOrEqual(t, x)) }

  /** The entries of others no dearer than `t`. */
  ghost function Rivals(rs: multiset<Tx>, t: Tx): multiset<Tx> { Only(rs, set x | x in rs && x != t && CheaperOrEqual(x, t)) }

  /** Whatever has two entries has so many cheaper ones before it that a discard of
      `count` does not reach the second. */
  ghost predicate Clear(rs: multiset<Tx>, count: nat) {
    forall t :: rs[t] >= 2 ==> |Cheaper(rs, t)| + 1 >= count
  }

  /** There are too few entries, or one with a second has so few others before it that a
      discard of `count` reaches both. */
  ghost predicate Clogged(rs: multiset<Tx>, count: nat) {
    |rs| < count || exists t :: rs[t] >= 2 && |Rivals(rs, t)| + 2 <= count
  }

  /** No two transactions are equal in price and nonce. */
  ghost predicate Untied(rs: multiset<Tx>) {
    forall x, y :: x in rs && y in rs && CheaperOrEqual(x, y) && CheaperOrEqual(y, x) ==> x == y
  }

  /** Up to ties the two say when room is made and when not. */
  lemma CutsMeet(rs: multiset<Tx>, count: nat)
    requires Untied(rs)
    ensures Clogged(rs, count) <==> |rs| < count || !Clear(rs, count)
  {
    forall t | t in rs ensures Rivals(rs, t) == Cheaper(rs, t) {
      forall x ensures Rivals(rs, t)[x] == Cheaper(rs, t)[x] { Comparable(x, t); }
    }
  }

  lemma Comparable(a: Tx, b: Tx)
    ensures CheaperOrEqual(a, b) || CheaperOrEqual(b, a)
    ensures CheaperOrEqual(a, a)
  {
  }

  /** What a discard does to the entries it looks at. */
  ghost predicate Taken(rs: multiset<Tx>, left: multiset<Tx>, drop: seq<Tx>, count: nat) {
    && rs == left + multiset(drop) && |drop| <= count && (|drop| < count ==> left == multiset{})
    && forall d, t :: d in drop && t in left ==> CheaperOrEqual(d, t)
  }

  /** Discard is such a cut. */
  lemma DiscardCuts(before: multiset<Tx>, after: multiset<Tx>, drop: seq<Tx>, count: nat, locals: set<Address>, all: set<Tx>)
    requires |drop| <= count && (forall t :: t in all ==> after[t] + multiset(drop)[t] == before[t])
    requires forall t :: t in drop ==> t in all && t.from !in locals
    requires |drop| < count ==> forall t :: t in after ==> t.from in locals
    requires forall d, t :: d in drop && t in after && t in all && t.from !in locals ==> CheaperOrEqual(d, t)
    ensures Taken(Remote(before, all, locals), Remote(after, all, locals), drop, count)
  {
    var rs, left := Remote(before, all, locals), Remote(after, all, locals);
    forall t ensures rs[t] == (left + multiset(drop))[t] {
      if t in multiset(drop) { assert t in drop; }
    }
  }

  lemma RemoteSame(items: multiset<Tx>, items': multiset<Tx>, all: set<Tx>, locals: set<Address>)
    requires forall t :: t in all ==> items'[t] == items[t]
    ensures Remote(items', all, locals) == Remote(items, all, locals)
  {
  }

  lemma CutOnce(rs: multiset<Tx>, left: multiset<Tx>, drop: seq<Tx>, count: nat)
    requires Taken(rs, left, drop, count) && Clear(rs, count)
    ensures NoDuplicates(multiset(drop))
  {
    forall t ensures multiset(drop)[t] <= 1 {
      var cheaper, dropped := Cheaper(rs, t), multiset(drop);
      if dropped[t] >= 2 {
        forall x ensures (cheaper + multiset{t, t})[x] <= dropped[x] {
          Comparable(t, t);
          assert x in cheaper ==> x !in left;
        }
        Within(cheaper + multiset{t, t}, dropped);
      }
    }
  }

  lemma CutTwice(rs: multiset<Tx>, left: multiset<Tx>, drop: seq<Tx>, count: nat)
    requires Taken(rs, left, drop, count) && Clogged(rs, count)
    ensures |set t | t in drop| < count
  {
    var dropped := multiset(drop);
    Within(dropped, rs);
    DistinctAmong(drop);
    if |drop| == count {
      var t :| rs[t] >= 2 && |Rivals(rs, t)| + 2 <= count;
      if t in left {
        Within(dropped[t := 0], Rivals(rs, t));
        WithoutOne(dropped, t);
      }
      TwiceAmong(drop, t);
    }
  }

  lemma Within(a: multiset<Tx>, b: multiset<Tx>)
    requires forall x :: a[x] <= b[x]
    ensures |a| <= |b|
  {
    assert b == a + (b - a);
  }

  lemma WithoutOne(m: multiset<Tx>, t: Tx)
    ensures |m| == |m[t := 0]| + m[t]
  {
    var only := multiset{}[t := m[t]];
    assert m == m[t := 0] + only;
  }

  lemma {:induction false} DistinctAmong(drop: seq<Tx>)
    ensures |set t | t in drop| <= |drop|
  {
    if drop != [] {
      var n := |drop| - 1;
      DistinctAmong(drop[..n]);
      assert drop == drop[..n] + [drop[n]];
      assert (set t | t in drop) == (set t | t in drop[..n]) + {drop[n]};
    }
  }

  lemma {:induction false} TwiceAmong(drop: seq<Tx>, t: Tx)
    requires multiset(drop)[t] >= 2
    ensures |set x | x in drop| < |drop|
  {
    var n := |drop| - 1;
    assert drop == drop[..n] + [drop[n]];
    assert (set x | x in drop) == (set x | x in drop[..n]) + {drop[n]};
    if drop[n] == t {
      assert t in multiset(drop[..n]);
      DistinctAmong(drop[..n]);
    } else {
      TwiceAmong(drop[..n], t);
    }
  }

  /** The cheapest of four leaves and comes back while its entry is still in the heap. */
  method Readded(a: Tx, b: Tx, c: Tx, d: Tx) returns (l: Priced)
    requires a != b && a != c && a != d && b != c && b != d && c != d
    ensures fresh(l) && l.Tracks({b, c, d, a}, {}) && multiset(l.items) == multiset{a, a, b, c, d}
  {
    hide *;
    l := new Priced();
    l.Put(b, {});
    l.Put(c, {b});
    assert {b} + {c} == {b, c};
    l.Put(d, {b, c});
    var others := {b, c, d};
    assert {b, c} + {d} == others;
    l.Put(a, others);
    assert others + {a} == {b, c, d, a};
    assert |l.items| == |multiset(l.items)| == 4;
    l.Removed(others, a);
    l.Put(a, others);
  }

  /** Where history has not been kind, a discard of two takes the same one twice, and
      makes room for one only. */
  method DropsTwice(a: Tx, b: Tx, c: Tx, d: Tx) returns (drop: seq<Tx>)
    requires a.price < b.price && a.price < c.price && a.price < d.price && b != c && b != d && c != d
    ensures drop == [a, a]
  {
    hide *;
    var l := Readded(a, b, c, d);
    drop := l.Discard(2, {}, {b, c, d, a});
    TwiceCheapest(a, b, c, d, multiset(l.items), drop);
  }

  lemma TwiceCheapest(a: Tx, b: Tx, c: Tx, d: Tx, left: multiset<Tx>, drop: seq<Tx>)
    requires a.price < b.price && a.price < c.price && a.price < d.price && b != c && b != d && c != d
    requires forall t :: t in {b, c, d, a} ==> left[t] + multiset(drop)[t] == multiset{a, a, b, c, d}[t]
    requires |drop| <= 2 && (forall t :: t in drop ==> t in {b, c, d, a}) && (|drop| < 2 ==> forall t :: t in left ==> t.from in {})
    requires forall x, t :: x in drop && t in left && t in {b, c, d, a} && t.from !in {} ==> CheaperOrEqual(x, t)
    ensures drop == [a, a]
  {
    assert |drop| < 2 ==> left[a] == 0 && left[b] == 0;
    if left[a] == 0 && left[b] == 0 { AtLeastThree(multiset(drop), a, b); }
    assert |multiset(drop)| == |drop| == 2;
    assert forall x :: x in drop && a in left ==> CheaperOrEqual(x, a);
    BothSame(drop, a, a in left);
  }

  lemma AtLeastThree(m: multiset<Tx>, a: Tx, b: Tx)
    requires a != b && m[a] >= 2 && m[b] >= 1
    ensures |m| >= 3
  {
    assert m == multiset{a, a, b} + (m - multiset{a, a, b});
  }

  lemma BothSame(drop: seq<Tx>, a: Tx, all: bool)
    requires |drop| == 2 && if all then forall x :: x in drop ==> x == a else multiset(drop)[a] == 2
    ensures drop == [a, a]
  {
    var x, y := drop[0], drop[1];
    assert drop == [x, y];
    assert multiset(drop) == multiset{x, y};
    assert x in drop && y in drop;
    assert multiset{x, y}[a] == (if x == a then 1 else 0) + (if y == a then 1 else 0);
  }

  lemma StaleGone(before: multiset<Tx>, after: multiset<Tx>, stales: int, all: set<Tx>, gone: Tx, exact: bool)
    requires forall tx :: tx in all ==> tx in before
    requires exact ==> Balanced(before, stales, all, {})
    requires gone in before && after == before - multiset{gone} && gone !in all
    ensures forall tx :: tx in all ==> tx in after
    ensures exact ==> Balanced(after, stales - 1, all, {})
  {
    assert |before| == |after| + 1;
  }

  lemma SplitStale(before: multiset<Tx>, after: multiset<Tx>, save: seq<Tx>, drop: seq<Tx>, stales: int,
                   all: set<Tx>, locals: set<Address>, tx: Tx, exact: bool)
    requires Split(before, save, drop, all, locals) && (exact ==> Even(before, save, drop, stales, all))
    requires tx in before && after == before - multiset{tx} && tx !in all
    ensures Split(after, save, drop, all, locals) && (exact ==> Even(after, save, drop, stales - 1, all))
  {
    assert |before| == |after| + 1;
    var more, less := before + multiset(save) + multiset(drop), after + multiset(save) + multiset(drop);
    assert forall t :: less[t] <= more[t];
  }

  lemma SplitMove(before: multiset<Tx>, after: multiset<Tx>, save: seq<Tx>, drop: seq<Tx>, stales: int,
                  all: set<Tx>, locals: set<Address>, tx: Tx, exact: bool)
    requires Split(before, save, drop, all, locals) && (exact ==> Even(before, save, drop, stales, all))
    requires tx in before && after == before - multiset{tx} && tx in all
    requires forall t :: t in after ==> CheaperOrEqual(tx, t)
    ensures tx.from in locals ==>
              Split(after, save + [tx], drop, all, locals) && (exact ==> Even(after, save + [tx], drop, stales, all))
    ensures tx.from !in locals ==>
              Split(after, save, drop + [tx], all, locals) && (exact ==> Even(after, save, drop + [tx], stales, all))
  {
    assert multiset(save + [tx]) == multiset(save) + multiset{tx};
    assert multiset(drop + [tx]) == multiset(drop) + multiset{tx};
    assert before == after + multiset{tx};
    assert after + multiset(save + [tx]) + multiset(drop) == before + multiset(save) + multiset(drop);
    assert after + multiset(save) + multiset(drop + [tx]) == before + multiset(save) + multiset(drop);
  }

  ghost predicate Under(drop: seq<Tx>, threshold: nat) { forall t :: t in drop ==> t.price < threshold }

  ghost predicate NotUnder(rest: multiset<Tx>, threshold: nat) { forall t :: t in rest ==> threshold <= t.price }

  /** The heap once the transaction that stopped the loop is set apart. */
  ghost predicate Apart(rest: multiset<Tx>, left: multiset<Tx>, last: seq<Tx>) {
    if last == [] then rest == left else rest == left + multiset(last)
  }

  lemma UnderNone(threshold: nat, rest: multiset<Tx>)
    ensures Under([], threshold) && Apart(rest, rest, [])
  {
  }

  lemma SameApart(rest: multiset<Tx>, left: multiset<Tx>)
    ensures Apart(rest, left, []) <==> rest == left
  {
  }

  lemma UnderMore(drop: seq<Tx>, tx: Tx, threshold: nat)
    requires Under(drop, threshold) && tx.price < threshold
    ensures Under(drop + [tx], threshold)
  {
  }

  lemma DearerThan(tx: Tx, after: multiset<Tx>, rest: multiset<Tx>, threshold: nat)
    requires tx in rest && after == rest - multiset{tx} && tx.price >= threshold
    requires forall t :: t in after ==> CheaperOrEqual(tx, t)
    ensures NotUnder(rest, threshold) && Apart(rest, after, [tx])
  {
    forall t | t in rest ensures threshold <= t.price { if t != tx { assert t in after; } }
  }

  lemma Exhausted(left: multiset<Tx>, rest: multiset<Tx>, last: seq<Tx>, threshold: nat)
    requires Apart(rest, left, last) && (|left| == 0 || last != [])
    requires last != [] ==> NotUnder(rest, threshold)
    ensures NotUnder(rest, threshold)
  {
  }

  lemma SavedBack(left: multiset<Tx>, rest: multiset<Tx>, save: seq<Tx>, last: seq<Tx>)
    requires Apart(rest, left, last)
    ensures left + multiset(save + last) == rest + multiset(save)
  {
    assert multiset(save + last) == multiset(save) + multiset(last);
  }

  lemma AllCheapTaken(rest: multiset<Tx>, save: seq<Tx>, drop: seq<Tx>, all: set<Tx>, locals: set<Address>, threshold: nat)
    requires Split(rest, save, drop, all, locals) && NotUnder(rest, threshold) && Under(drop, threshold)
    ensures forall t :: t in drop <==> t in all && t.from !in locals && t.price < threshold
  {
  }

  lemma EvenBalances(rest: multiset<Tx>, save: seq<Tx>, drop: seq<Tx>, stales: int, all: set<Tx>)
    requires Even(rest, save, drop, stales, all) && forall t :: t in drop ==> t in all
    ensures NoDuplicates(multiset(drop)) && Balanced(rest + multiset(save), stales, all, set t | t in drop)
  {
    var owed := set t | t in drop;
    var entries := rest + multiset(save) + multiset(drop);
    forall t ensures multiset(drop)[t] <= 1 && (rest + multiset(save))[t] <= 1 { assert entries[t] <= 1; }
    assert multiset(owed) == multiset(drop) by {
      forall t ensures multiset(owed)[t] == multiset(drop)[t] { }
    }
    assert |owed| == |multiset(owed)| == |drop|;
    forall t | t in owed ensures t !in rest + multiset(save) {
      assert t in multiset(drop);
      assert (rest + multiset(save) + multiset(drop))[t] <= 1;
    }
  }

  lemma HeapRootCheapest(h: seq<Tx>, t: Tx)
    requires IsHeap(PriceKey, h) && t in multiset(h)
    ensures h != [] && CheaperOrEqual(h[0], t)
  {
    var i :| 0 <= i < |h| && h[i] == t;
    RootIsLeast(PriceKey, h, i);
    KeyIsPrice(h[0], h[i]);
  }
}
