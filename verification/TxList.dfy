/** Nonce-ordered transaction lists, as in core/tx_list.go. Each list operation is
    first a function on the list's contents, a map from nonce to transaction; the
    class below then carries the heap index, the cached order and the cached caps
    and is proved to compute those functions.
 */
module TxList {
  import opened Wrappers
  import opened Heap

  type Address = nat

  const MAX_UINT64 := 0xffff_ffff_ffff_ffff
  type Uint64 = x: nat | x <= MAX_UINT64

  /** `id` tells apart transactions that agree in everything the pool looks at; a
      transaction hash stands for the transaction itself. */
  datatype Tx = Tx(id: nat, from: Address, nonce: Uint64, price: nat, cost: nat, gas: nat)

  type TxMap = map<nat, Tx>

  ghost predicate Keyed(m: TxMap) { forall n :: n in m ==> m[n].nonce == n }

  // ----- the operations on contents -----

  /** Forward: what goes, and what stays. */
  function Front(m: TxMap, threshold: nat): TxMap { map n | n in m && n < threshold :: m[n] }
  function DropBelow(m: TxMap, threshold: nat): TxMap { map n | n in m && n >= threshold :: m[n] }

  predicate Payable(tx: Tx, costLimit: nat, gasLimit: nat) { tx.cost <= costLimit && tx.gas <= gasLimit }

  /** Filter: what stays. A strict list also loses everything above the lowest
      transaction that cannot be paid. */
  function KeepPayable(m: TxMap, strict: bool, costLimit: nat, gasLimit: nat): TxMap {
    map n | n in m && Payable(m[n], costLimit, gasLimit) &&
            (strict ==> forall k :: k in m && k < n ==> Payable(m[k], costLimit, gasLimit)) :: m[n]
  }

  /** Filter: what is removed as unpayable, whatever the mode. */
  function Unpayable(m: TxMap, costLimit: nat, gasLimit: nat): TxMap {
    map n | n in m && !Payable(m[n], costLimit, gasLimit) :: m[n]
  }

  function Below(m: TxMap, n: nat): set<nat> { set k | k in m && k < n }

  /** Cap: the `k` lowest nonces stay. */
  function Lowest(m: TxMap, k: nat): TxMap { map n | n in m && |Below(m, n)| < k :: m[n] }

  /** Ready: the run of consecutive nonces from the lowest one, provided that one is
      not above `start`. */
  predicate InRun(m: TxMap, start: nat, n: nat) {
    && n in m
    && (exists k :: k in m && k <= start)
    && (forall k, j :: k in m && k <= j < n ==> j in m)
  }
  function Run(m: TxMap, start: nat): TxMap { map n | n in m && InRun(m, start, n) :: m[n] }
  function AfterRun(m: TxMap, start: nat): TxMap { map n | n in m && !InRun(m, start, n) :: m[n] }

  /** Remove: what stays. */
  function WithoutNonce(m: TxMap, strict: bool, nonce: nat): TxMap {
    if nonce !in m then m
    else map n | n in m && n != nonce && (strict ==> n < nonce) :: m[n]
  }

  /** Add: a transaction replaces one of the same nonce only at a high enough price. */
  predicate Replaces(m: TxMap, tx: Tx, priceBump: nat) {
    tx.nonce in m ==> Outbids(m[tx.nonce], tx, priceBump)
  }

  /** The price bump over the transaction held is met. */
  predicate Outbids(held: Tx, tx: Tx, priceBump: nat) {
    held.price < tx.price && held.price * (100 + priceBump) / 100 <= tx.price
  }

  /** The bump in whole numbers: dearer, and within one unit of the raised price. */
  lemma OutbidsMeans(held: Tx, tx: Tx, priceBump: nat)
    ensures Outbids(held, tx, priceBump) <==> tx.price > held.price && 100 * (tx.price + 1) > held.price * (100 + priceBump)
  {
  }

  // ----- sequences that list a map in nonce order -----

  ghost predicate Ascending(s: seq<Tx>) {
    forall i, j :: 0 <= i < j < |s| ==> s[i].nonce < s[j].nonce
  }

  ghost predicate Lists(s: seq<Tx>, m: TxMap) {
    && Ascending(s)
    && (forall i :: 0 <= i < |s| ==> s[i].nonce in m && m[s[i].nonce] == s[i])
    && (forall n :: n in m ==> m[n] in s)
  }

  /** The same without the order. */
  ghost predicate Enumerates(s: seq<Tx>, m: TxMap) {
    && (forall i, j :: 0 <= i < j < |s| ==> s[i] != s[j])
    && (forall i :: 0 <= i < |s| ==> s[i].nonce in m && m[s[i].nonce] == s[i])
    && (forall n :: n in m ==> m[n] in s)
  }

  function Minus(m: TxMap, kept: TxMap): TxMap { map n | n in m && n !in kept :: m[n] }

  lemma ListsLength(s: seq<Tx>, m: TxMap)
    requires Lists(s, m) && Keyed(m)
    ensures |s| == |m|
  {
    assert Enumerates(s, m);
    EnumeratesLength(s, m);
  }

  lemma {:induction false} EnumeratesLength(s: seq<Tx>, m: TxMap)
    requires Enumerates(s, m) && Keyed(m)
    ensures |s| == |m|
  {
    if s == [] {
      assert forall n :: n !in m;
      assert m == map[];
    } else {
      var k := |s| - 1;
      EnumerateOneLess(s, m, k);
      EnumeratesLength(s[..k], m - {s[k].nonce});
      assert m.Keys == (m - {s[k].nonce}).Keys + {s[k].nonce};
    }
  }

  lemma EnumerateOneLess(s: seq<Tx>, m: TxMap, k: nat)
    requires Enumerates(s, m) && Keyed(m) && k + 1 == |s|
    ensures Enumerates(s[..k], m - {s[k].nonce})
  {
    var n, t := s[k].nonce, s[..k];
    forall i | 0 <= i < k ensures t[i].nonce in m - {n} {
      assert s[i] != s[k];
    }
    forall j | j in m - {n} ensures m[j] in t {
      var i :| 0 <= i < |s| && s[i] == m[j];
      assert t[i] == m[j];
    }
  }

  /** Splitting a listed map at a nonce splits its listing. */
  lemma ListsFront(s: seq<Tx>, m: TxMap, t: nat)
    requires Lists(s, m) && Keyed(m)
    ensures Lists(s[..Cut(s, t)], Front(m, t))
  {
    var c := Cut(s, t);
    forall n | n in Front(m, t) ensures m[n] in s[..c] {
      FrontCovers(s, m, c, t, n);
    }
  }

  lemma FrontCovers(s: seq<Tx>, m: TxMap, c: nat, t: nat, n: nat)
    requires Keyed(m) && n in m && m[n] in s && n < t
    requires c <= |s| && forall i :: c <= i < |s| ==> s[i].nonce >= t
    ensures m[n] in s[..c]
  {
    var i :| 0 <= i < |s| && s[i] == m[n];
    assert s[..c][i] == m[n];
  }

  lemma ListsBack(s: seq<Tx>, m: TxMap, t: nat)
    requires Lists(s, m) && Keyed(m)
    ensures Lists(s[Cut(s, t)..], DropBelow(m, t))
  {
    var c := Cut(s, t);
    var r := s[c..];
    assert Ascending(r);
    forall i | 0 <= i < |r| ensures r[i].nonce in DropBelow(m, t) && m[r[i].nonce] == r[i] {
      assert r[i] == s[c + i];
    }
    forall n | n in DropBelow(m, t) ensures m[n] in r {
      BackCovers(s, m, c, t, n);
    }
  }

  lemma BackCovers(s: seq<Tx>, m: TxMap, c: nat, t: nat, n: nat)
    requires Keyed(m) && n in m && m[n] in s && n >= t
    requires c <= |s| && forall i :: 0 <= i < c ==> s[i].nonce < t
    ensures m[n] in s[c..]
  {
    var i :| 0 <= i < |s| && s[i] == m[n];
    assert s[c..][i - c] == m[n];
  }

  lemma ListsSplit(s: seq<Tx>, m: TxMap, k: nat, t: nat)
    requires Lists(s, m) && Keyed(m)
    requires k == |Front(m, t)|
    ensures k <= |s| && Lists(s[..k], Front(m, t)) && Lists(s[k..], DropBelow(m, t))
  {
    ListsFront(s, m, t);
    ListsBack(s, m, t);
    ListsLength(s[..Cut(s, t)], Front(m, t));
  }

  /** Where the nonces of an ascending sequence reach `t`. */
  function Cut(s: seq<Tx>, t: nat): (c: nat)
    requires Ascending(s)
    ensures c <= |s|
    ensures forall i :: 0 <= i < c ==> s[i].nonce < t
    ensures forall i :: c <= i < |s| ==> s[i].nonce >= t
  {
    if s == [] || s[0].nonce >= t then 0 else
      assert forall i :: 1 <= i < |s| ==> s[i] == s[1..][i - 1];
      1 + Cut(s[1..], t)
  }

  // ----- the list object -----

  function NonceKey(n: nat): Key { (n, 0) }

  /** The heap index is a rearrangement of the map's nonces. */
  ghost predicate Indexed(index: seq<nat>, items: TxMap) {
    IsHeap(NonceKey, index) && multiset(index) == multiset(items.Keys)
  }

  lemma IndexMembers(index: seq<nat>, items: TxMap, n: nat)
    requires Indexed(index, items)
    ensures n in index <==> n in items
    ensures |index| == |items|
  {
    assert n in index <==> n in multiset(index);
    assert n in items <==> n in multiset(items.Keys);
    assert |multiset(index)| == |multiset(items.Keys)|;
  }

  lemma IndexLowest(index: seq<nat>, items: TxMap)
    requires Indexed(index, items) && index != []
    ensures index[0] in items && forall n :: n in items ==> index[0] <= n
  {
    IndexMembers(index, items, index[0]);
    forall n | n in items ensures index[0] <= n {
      IndexMembers(index, items, n);
      var i :| 0 <= i < |index| && index[i] == n;
      RootIsLeast(NonceKey, index, i);
    }
  }

  lemma LowestReached(index: seq<nat>, items: TxMap, threshold: nat)
    requires Indexed(index, items) && (index != [] ==> index[0] >= threshold)
    ensures forall n :: n in items ==> n >= threshold
  {
    forall n | n in items ensures n >= threshold {
      IndexMembers(index, items, n);
      IndexLowest(index, items);
    }
  }

  lemma DropFront(s: seq<Tx>, m: TxMap, removed: seq<Tx>, t: nat)
    requires Lists(s, m) && Keyed(m) && Lists(removed, Front(m, t))
    ensures |removed| <= |s| && Lists(s[|removed|..], DropBelow(m, t))
  {
    ListsLength(removed, Front(m, t));
    ListsSplit(s, m, |removed|, t);
  }

  /** Map, heap index, cached order and cached caps agree. */
  ghost predicate Good(items: TxMap, index: seq<nat>, cache: Option<seq<Tx>>, costcap: nat, gascap: nat) {
    && Keyed(items)
    && Indexed(index, items)
    && (cache.Some? ==> Lists(cache.value, items))
    && Capped(items, costcap, gascap)
  }

  ghost predicate Capped(items: TxMap, costcap: nat, gascap: nat) {
    forall n :: n in items ==> Payable(items[n], costcap, gascap)
  }

  /** A txList with its txSortedMap. */
  class List {
    const strict: bool
    var items: TxMap
    var index: seq<nat>
    var cache: Option<seq<Tx>>
    var costcap: nat
    var gascap: nat

    ghost predicate Valid()
      reads this
    {
      Good(items, index, cache, costcap, gascap)
    }

    lemma Unfold()
      requires Valid()
      ensures Keyed(items) && Indexed(index, items) && (cache.Some? ==> Lists(cache.value, items))
      ensures Capped(items, costcap, gascap)
    {
    }

    lemma Fold()
      requires Good(items, index, cache, costcap, gascap)
      ensures Valid()
    {
    }

    constructor (strict: bool)
      ensures Valid() && items == map[] && this.strict == strict
    {
      this.strict := strict;
      items, index, cache, costcap, gascap := map[], [], None, 0, 0;
    }

    /** Take the lowest nonce off heap and map. */
    method PopLowest() returns (tx: Tx)
      requires Keyed(items) && Indexed(index, items) && index != []
      modifies this`items, this`index
      ensures Keyed(items) && Indexed(index, items)
      ensures tx.nonce in old(items) && old(items)[tx.nonce] == tx
      ensures forall n :: n in old(items) ==> tx.nonce <= n
      ensures items == old(items) - {tx.nonce} && |index| == |old(index)| - 1
    {
      IndexLowest(index, items);
      var nonce;
      nonce, index := Pop(NonceKey, index);
      tx := items[nonce];
      items := items - {nonce};
      assert multiset(items.Keys) == multiset(old(items).Keys) - multiset{nonce} by {
        assert items.Keys == old(items).Keys - {nonce};
      }
    }

    /** Put: overwrite or add, forgetting the cached order. */
    method Put(tx: Tx)
      requires Keyed(items) && Indexed(index, items)
      modifies this`items, this`index, this`cache
      ensures Keyed(items) && Indexed(index, items)
      ensures items == old(items)[tx.nonce := tx] && cache == None
    {
      if tx.nonce !in items {
        index := Push(NonceKey, index, tx.nonce);
        assert multiset(items.Keys + {tx.nonce}) == multiset(items.Keys) + multiset{tx.nonce};
      }
      items := items[tx.nonce := tx];
      assert items.Keys == old(items).Keys + {tx.nonce};
      cache := None;
    }

    /** Forward's loop: pop until the lowest nonce reaches `threshold`. */
    method PopBelow(threshold: nat) returns (removed: seq<Tx>)
      requires Keyed(items) && Indexed(index, items)
      modifies this`items, this`index
      ensures Keyed(items) && Indexed(index, items)
      ensures items == DropBelow(old(items), threshold)
      ensures Lists(removed, Front(old(items), threshold))
    {
      hide *;
      removed := [];
      ghost var m := items;
      ghost var t: nat := 0;
      NothingBelow(m, 0);
      while |index| > 0 && index[0] < threshold
        invariant Keyed(items) && Indexed(index, items)
        invariant t <= threshold && items == DropBelow(m, t)
        invariant Lists(removed, Front(m, t))
        decreases |index|
      {
        IndexLowest(index, items);
        var tx := PopLowest();
        ForwardStep(m, t, tx, removed);
        removed := removed + [tx];
        t := tx.nonce + 1;
      }
      LowestReached(index, items, threshold);
      NoneBetween(m, t, threshold);
    }

    /** Forward: drop every nonce below `threshold`; a cached order loses its front. */
    method Forward(threshold: nat) returns (removed: seq<Tx>)
      requires Valid()
      modifies this`items, this`index, this`cache
      ensures Valid()
      ensures items == DropBelow(old(items), threshold)
      ensures Lists(removed, Front(old(items), threshold))
    {
      hide *;
      Unfold();
      removed := PopBelow(threshold);
      var newCache := None;
      if cache.Some? {
        DropFront(cache.value, old(items), removed, threshold);
        newCache := Some(cache.value[|removed|..]);
      }
      cache := newCache;
      ForwardGood(old(items), threshold, index, cache, costcap, gascap);
      Fold();
    }

    method Collect(drop: Tx -> bool) returns (removed: seq<Tx>)
      requires Keyed(items)
      modifies this`items
      ensures items == map n | n in old(items) && !drop(old(items)[n]) :: old(items)[n]
      ensures Enumerates(removed, Minus(old(items), items))
    {
      removed := [];
      ghost var m := items;
      var todo := items.Keys;
      while todo != {}
        invariant todo <= m.Keys
        invariant items == map n | n in m && (n in todo || !drop(m[n])) :: m[n]
        invariant Enumerates(removed, Minus(m, items))
        decreases todo
      {
        var nonce :| nonce in todo;
        todo := todo - {nonce};
        if drop(items[nonce]) {
          EnumerateOneMore(removed, m, items, nonce);
          removed := removed + [items[nonce]];
          items := items - {nonce};
        }
      }
    }

    /** txSortedMap.Filter: remove what `drop` says, rebuilding the heap if anything
        went. */
    method FilterBy(drop: Tx -> bool) returns (removed: seq<Tx>)
      requires Valid()
      modifies this`items, this`index, this`cache
      ensures Valid()
      ensures items == map n | n in old(items) && !drop(old(items)[n]) :: old(items)[n]
      ensures Enumerates(removed, Minus(old(items), items))
    {
      removed := Collect(drop);
      if |removed| > 0 {
        index := Reindex(items);
        cache := None;
      } else {
        NothingRemoved(old(items), items);
      }
    }

    static method Reindex(items: TxMap) returns (index: seq<nat>)
      ensures Indexed(index, items)
    {
      index := Listing(items.Keys);
      index := Init(NonceKey, index);
    }

    /** txSortedMap.Remove */
    method RemoveNonce(nonce: nat) returns (found: bool)
      requires Valid()
      modifies this`items, this`index, this`cache
      ensures Valid()
      ensures found == (nonce in old(items)) && items == old(items) - {nonce}
    {
      found := nonce in items;
      if !found {
        return;
      }
      IndexMembers(index, items, nonce);
      var i := 0;
      while index[i] != nonce
        invariant i < |index| && nonce in index[i..]
        decreases |index| - i
      {
        i := i + 1;
      }
      index := Heap.Remove(NonceKey, index, i);
      items := items - {nonce};
      assert multiset(items.Keys) == multiset(old(items).Keys) - multiset{nonce} by {
        assert items.Keys == old(items).Keys - {nonce};
      }
      cache := None;
    }

    /** Ready: take out the run of consecutive nonces from the lowest one. */
    method Ready(start: nat) returns (ready: seq<Tx>)
      requires Valid()
      modifies this`items, this`index, this`cache
      ensures Valid()
      ensures items == AfterRun(old(items), start)
      ensures Lists(ready, Run(old(items), start))
    {
      hide *;
      Unfold();
      ready := [];
      ghost var m := items;
      if |index| == 0 || index[0] > start {
        NothingReady(index, m, start);
        return;
      }
      IndexLowest(index, items);
      ghost var low := index[0];
      ready := PopRun();
      RunIsFront(m, low, low + |ready|, start);
      cache := None;
      ForwardGood(m, low + |ready|, index, cache, costcap, gascap);
      Fold();
    }

    /** Ready's loop. */
    method PopRun() returns (ready: seq<Tx>)
      requires Keyed(items) && Indexed(index, items) && index != []
      modifies this`items, this`index
      ensures Keyed(items) && Indexed(index, items)
      ensures ready != []
      ensures var next := old(index)[0] + |ready|;
        && items == DropBelow(old(items), next) && next !in old(items)
        && Lists(ready, Front(old(items), next))
        && forall n :: old(index)[0] <= n < next ==> n in old(items)
    {
      hide *;
      ready := [];
      ghost var m, low := items, index[0];
      IndexLowest(index, items);
      var next := index[0];
      NothingBelow(m, low);
      while |index| > 0 && index[0] == next
        invariant Keyed(items) && Indexed(index, items)
        invariant next == low + |ready| && items == DropBelow(m, next)
        invariant Lists(ready, Front(m, next))
        invariant forall n :: low <= n < next ==> n in m
        decreases |index|
      {
        IndexLowest(index, items);
        var tx := PopLowest();
        ForwardStep(m, next, tx, ready);
        ready := ready + [tx];
        next := next + 1;
      }
      NextMissing(index, m, next);
    }

    /** Flatten: the contents in nonce order, from the cache if there is one. */
    method Flatten() returns (txs: seq<Tx>)
      requires Valid()
      modifies this`cache
      ensures Valid() && Lists(txs, items)
    {
      if cache == None {
        txs := Values(items);
        var sorted := Sort(TxNonceKey, txs);
        SortedLists(sorted, txs, items);
        cache := Some(sorted);
      }
      txs := cache.value;
    }

    static method Values(items: TxMap) returns (txs: seq<Tx>)
      requires Keyed(items)
      ensures Enumerates(txs, items)
    {
      txs := [];
      var todo := items;
      while todo != map[]
        invariant todo.Keys <= items.Keys && forall n :: n in todo ==> todo[n] == items[n]
        invariant Enumerates(txs, Minus(items, todo))
        decreases |todo|
      {
        var nonce :| nonce in todo;
        EnumerateOneMore(txs, items, todo, nonce);
        txs := txs + [items[nonce]];
        todo := todo - {nonce};
      }
      assert Minus(items, map[]) == items;
    }

    /** Add: refused if a transaction of that nonce is good enough already. */
    method Add(tx: Tx, priceBump: nat) returns (inserted: bool, replaced: Option<Tx>)
      requires Valid()
      modifies this
      ensures Valid()
      ensures inserted == Replaces(old(items), tx, priceBump)
      ensures items == if inserted then old(items)[tx.nonce := tx] else old(items)
      ensures replaced == if inserted && tx.nonce in old(items) then Some(old(items)[tx.nonce]) else None
    {
      replaced := None;
      if tx.nonce in items {
        var held := items[tx.nonce];
        var threshold := held.price * (100 + priceBump) / 100;
        if held.price >= tx.price || threshold > tx.price {
          return false, None;
        }
        replaced := Some(held);
      }
      Put(tx);
      if costcap < tx.cost {
        costcap := tx.cost;
      }
      if gascap < tx.gas {
        gascap := tx.gas;
      }
      inserted := true;
    }

    /** Filter: remove what cannot be paid and, in a strict list, everything above
        it. The cached caps allow an early return that loses nothing. */
    method Filter(costLimit: nat, gasLimit: nat) returns (removed: seq<Tx>, invalids: seq<Tx>)
      requires Valid()
      modifies this
      ensures Valid()
      ensures items == KeepPayable(old(items), strict, costLimit, gasLimit)
      ensures Enumerates(removed, Unpayable(old(items), costLimit, gasLimit))
      ensures Enumerates(invalids, Minus(Minus(old(items), items), Unpayable(old(items), costLimit, gasLimit)))
    {
      removed, invalids := [], [];
      if costcap <= costLimit && gascap <= gasLimit {
        AllPayable(items, strict, costcap, gascap, costLimit, gasLimit);
        return;
      }
      removed := DropUnpayable(costLimit, gasLimit);
      ghost var payable := items;
      if strict && |removed| > 0 {
        var lowest := LowestNonce(removed);
        invalids := FilterBy((tx: Tx) => tx.nonce > lowest);
        StrictFilter(old(items), removed, lowest, payable, items, costLimit, gasLimit);
      } else {
        LooseFilter(old(items), removed, strict, payable, costLimit, gasLimit);
      }
    }

    /** Lower the caps to the limits and remove what exceeds them. */
    method DropUnpayable(costLimit: nat, gasLimit: nat) returns (removed: seq<Tx>)
      requires Valid()
      modifies this
      ensures Valid()
      ensures items == KeepPayable(old(items), false, costLimit, gasLimit)
      ensures Enumerates(removed, Unpayable(old(items), costLimit, gasLimit))
    {
      removed := FilterBy((tx: Tx) => !Payable(tx, costLimit, gasLimit));
      costcap, gascap := costLimit, gasLimit;
      assert Minus(old(items), items) == Unpayable(old(items), costLimit, gasLimit);
    }

    static method LowestNonce(txs: seq<Tx>) returns (lowest: Uint64)
      requires txs != []
      ensures (exists i :: 0 <= i < |txs| && txs[i].nonce == lowest) && forall i :: 0 <= i < |txs| ==> lowest <= txs[i].nonce
    {
      lowest := MAX_UINT64;
      for i := 0 to |txs|
        invariant forall j :: 0 <= j < i ==> lowest <= txs[j].nonce
        invariant lowest == MAX_UINT64 || exists j :: 0 <= j < i && txs[j].nonce == lowest
      {
        if lowest > txs[i].nonce {
          lowest := txs[i].nonce;
        }
      }
      assert lowest <= txs[0].nonce;
    }

    /** Remove: a strict list also gives up everything above the removed nonce. */
    method Remove(tx: Tx) returns (found: bool, invalids: seq<Tx>)
      requires Valid()
      modifies this`items, this`index, this`cache
      ensures Valid()
      ensures found == (tx.nonce in old(items))
      ensures items == WithoutNonce(old(items), strict, tx.nonce)
      ensures Enumerates(invalids, Minus(old(items), items) - {tx.nonce})
    {
      invalids := [];
      found := RemoveNonce(tx.nonce);
      if found && strict {
        invalids := FilterBy((t: Tx) => t.nonce > tx.nonce);
      }
      RemoveSpec(old(items), items, strict, tx.nonce, old(items) - {tx.nonce});
    }

    /** Cap: drop the highest nonces until `threshold` are left. */
    method Cap(threshold: nat) returns (drops: seq<Tx>)
      requires Valid()
      modifies this`items, this`index, this`cache
      ensures Valid()
      ensures items == Lowest(old(items), threshold)
      ensures Enumerates(drops, Minus(old(items), items))
    {
      hide *;
      Unfold();
      drops := [];
      if |items| <= threshold {
        AllLowest(items, threshold);
        return;
      }
      var sorted := Sort(NonceKey, index);
      SortedIndex(sorted, index, items);
      drops := DropTail(sorted, threshold);
      var newCache := None;
      if cache.Some? {
        CapCache(cache.value, old(items), sorted[threshold], drops);
        newCache := Some(cache.value[..|cache.value| - |drops|]);
      }
      index := Init(NonceKey, sorted[..threshold]);
      cache := newCache;
      CapGood(old(items), sorted, threshold, index, cache, costcap, gascap);
      Fold();
    }

    /** Cap's loop, from the highest nonce downwards. */
    method DropTail(sorted: seq<nat>, threshold: nat) returns (drops: seq<Tx>)
      requires Keyed(items) && Ranks(sorted, items) && |sorted| == |items| && threshold < |sorted|
      modifies this`items
      ensures items == Front(old(items), sorted[threshold])
      ensures Enumerates(drops, Minus(old(items), items))
    {
      drops := [];
      ghost var m := items;
      var size := |items|;
      assert items == Front(m, Bound(sorted, size));
      while size > threshold
        invariant threshold <= size <= |sorted| && items == Front(m, Bound(sorted, size))
        invariant Enumerates(drops, Minus(m, items))
      {
        var nonce := sorted[size - 1];
        FrontLess(m, sorted, size);
        EnumerateOneMore(drops, m, items, nonce);
        drops := drops + [items[nonce]];
        items := items - {nonce};
        size := size - 1;
      }
    }
  }

  // ----- facts for Cap: the sorted index ranks the nonces -----

  ghost predicate Ranks(sorted: seq<nat>, m: TxMap) {
    && (forall i, j :: 0 <= i < j < |sorted| ==> sorted[i] < sorted[j])
    && (forall i :: 0 <= i < |sorted| ==> sorted[i] in m)
    && (forall n :: n in m ==> n in sorted)
  }

  lemma SortedIndex(sorted: seq<nat>, index: seq<nat>, m: TxMap)
    requires Indexed(index, m) && IsSorted(NonceKey, sorted) && multiset(sorted) == multiset(index)
    ensures Ranks(sorted, m) && |sorted| == |m|
  {
    assert |multiset(sorted)| == |multiset(m.Keys)|;
    forall i | 0 <= i < |sorted| ensures sorted[i] in m { assert sorted[i] in multiset(sorted); }
    forall n | n in m ensures n in sorted { assert n in multiset(sorted); }
    forall i, j | 0 <= i < j < |sorted| ensures sorted[i] < sorted[j] {
      assert KeyLe(NonceKey(sorted[i]), NonceKey(sorted[j]));
      if sorted[i] == sorted[j] {
        TwiceIn(sorted, i, j);
        assert false;
      }
    }
  }

  lemma TwiceIn(s: seq<nat>, i: nat, j: nat)
    requires i < j < |s| && s[i] == s[j]
    ensures multiset(s)[s[i]] >= 2
  {
    assert s == s[..j] + [s[j]] + s[j + 1..];
    assert s[i] in s[..j];
  }

  /** A nonce above the `k` lowest ones and not above the next. */
  function Bound(sorted: seq<nat>, k: nat): nat
    requires k <= |sorted|
  {
    if k < |sorted| then sorted[k] else MAX_UINT64 + 1
  }

  lemma FrontLess(m: TxMap, sorted: seq<nat>, k: nat)
    requires Keyed(m) && Ranks(sorted, m) && 0 < k <= |sorted|
    ensures sorted[k - 1] in Front(m, Bound(sorted, k))
    ensures Front(m, Bound(sorted, k)) - {sorted[k - 1]} == Front(m, Bound(sorted, k - 1))
  {
    forall n | n in m ensures n < Bound(sorted, k) && n != sorted[k - 1] <==> n < sorted[k - 1] {
      assert m[n].nonce == n;
      var i :| 0 <= i < |sorted| && sorted[i] == n;
    }
  }

  /** The nonces below a ranked one are those ranked before it. */
  lemma {:induction false} RankIsCount(m: TxMap, sorted: seq<nat>, i: nat)
    requires Ranks(sorted, m) && i < |sorted|
    ensures |Below(m, sorted[i])| == i
  {
    if i == 0 {
      assert Below(m, sorted[0]) == {};
    } else {
      RankIsCount(m, sorted, i - 1);
      assert Below(m, sorted[i]) == Below(m, sorted[i - 1]) + {sorted[i - 1]};
    }
  }

  lemma LowestIsFront(m: TxMap, sorted: seq<nat>, k: nat)
    requires Ranks(sorted, m) && k < |sorted|
    ensures Lowest(m, k) == Front(m, sorted[k])
  {
    forall n | n in m ensures |Below(m, n)| < k <==> n < sorted[k] {
      var i :| 0 <= i < |sorted| && sorted[i] == n;
      RankIsCount(m, sorted, i);
    }
  }

  lemma FrontIndex(m: TxMap, sorted: seq<nat>, k: nat)
    requires Ranks(sorted, m) && k < |sorted|
    ensures multiset(sorted[..k]) == multiset(Front(m, sorted[k]).Keys)
  {
    var t, keys := sorted[..k], Front(m, sorted[k]).Keys;
    forall n ensures multiset(t)[n] == multiset(keys)[n] {
      if n in keys {
        var i :| 0 <= i < |sorted| && sorted[i] == n;
        assert t[i] == n;
      }
      if n in t { OnceIn(t, n); }
    }
  }

  lemma {:induction false} OnceIn(s: seq<nat>, n: nat)
    requires forall i, j :: 0 <= i < j < |s| ==> s[i] < s[j]
    requires n in s
    ensures multiset(s)[n] == 1
  {
    var k := |s| - 1;
    assert s == s[..k] + [s[k]];
    if n == s[k] {
      assert n !in s[..k];
    } else {
      OnceIn(s[..k], n);
    }
  }

  lemma CapGood(m: TxMap, sorted: seq<nat>, k: nat, index: seq<nat>, cache: Option<seq<Tx>>, costcap: nat, gascap: nat)
    requires Keyed(m) && Ranks(sorted, m) && k < |sorted|
    requires Capped(m, costcap, gascap)
    requires IsHeap(NonceKey, index) && multiset(index) == multiset(sorted[..k])
    requires cache.Some? ==> Lists(cache.value, Front(m, sorted[k]))
    ensures Front(m, sorted[k]) == Lowest(m, k) && Good(Front(m, sorted[k]), index, cache, costcap, gascap)
  {
    LowestIsFront(m, sorted, k);
    FrontIndex(m, sorted, k);
  }

  lemma NextMissing(index: seq<nat>, m: TxMap, next: nat)
    requires Indexed(index, DropBelow(m, next)) && (index == [] || index[0] != next)
    ensures next !in m
  {
    if next in m {
      IndexMembers(index, DropBelow(m, next), next);
      IndexLowest(index, DropBelow(m, next));
    }
  }

  lemma NothingReady(index: seq<nat>, m: TxMap, start: nat)
    requires Indexed(index, m) && (index == [] || index[0] > start)
    ensures Run(m, start) == map[] && AfterRun(m, start) == m && Lists([], Run(m, start))
  {
    LowestReached(index, m, start + 1);
  }

  /** If the nonces from the lowest one up to `next` are all there and `next` is not,
      the run is what lies below `next`. */
  lemma RunIsFront(m: TxMap, low: nat, next: nat, start: nat)
    requires low in m && low <= start && (forall n :: n in m ==> low <= n)
    requires low < next && next !in m && forall n :: low <= n < next ==> n in m
    ensures Run(m, start) == Front(m, next) && AfterRun(m, start) == DropBelow(m, next)
  {
    forall n | n in m ensures InRun(m, start, n) <==> n < next {
      if n > next { assert low <= next < n; }
    }
  }

  function TxNonceKey(tx: Tx): Key { (tx.nonce, 0) }

  lemma SortedLists(sorted: seq<Tx>, txs: seq<Tx>, m: TxMap)
    requires Keyed(m) && Enumerates(txs, m) && IsSorted(TxNonceKey, sorted) && multiset(sorted) == multiset(txs)
    ensures Lists(sorted, m)
  {
    forall i | 0 <= i < |sorted| ensures sorted[i].nonce in m && m[sorted[i].nonce] == sorted[i] {
      assert sorted[i] in multiset(txs);
    }
    forall n | n in m ensures m[n] in sorted { assert m[n] in multiset(sorted); }
    forall i, j | 0 <= i < j < |sorted| ensures sorted[i].nonce < sorted[j].nonce {
      assert KeyLe(TxNonceKey(sorted[i]), TxNonceKey(sorted[j]));
      if sorted[i].nonce == sorted[j].nonce {
        TxTwiceIn(sorted, i, j);
        TxOnceIn(txs, sorted[i]);
        assert false;
      }
    }
  }

  lemma TxTwiceIn(s: seq<Tx>, i: nat, j: nat)
    requires i < j < |s| && s[i] == s[j]
    ensures multiset(s)[s[i]] >= 2
  {
    assert s == s[..j] + [s[j]] + s[j + 1..];
    assert s[i] in s[..j];
  }

  lemma {:induction false} TxOnceIn(s: seq<Tx>, tx: Tx)
    requires forall i, j :: 0 <= i < j < |s| ==> s[i] != s[j]
    ensures multiset(s)[tx] <= 1
  {
    if s != [] {
      var k := |s| - 1;
      assert s == s[..k] + [s[k]];
      TxOnceIn(s[..k], tx);
      if tx == s[k] { assert tx !in s[..k]; }
    }
  }

  /** The caps bound every member, so limits above the caps filter nothing. */
  lemma AllPayable(m: TxMap, strict: bool, costcap: nat, gascap: nat, costLimit: nat, gasLimit: nat)
    requires Capped(m, costcap, gascap)
    requires costcap <= costLimit && gascap <= gasLimit
    ensures KeepPayable(m, strict, costLimit, gasLimit) == m && Unpayable(m, costLimit, gasLimit) == map[]
  {
  }

  lemma StrictFilter(m: TxMap, removed: seq<Tx>, lowest: nat, payable: TxMap, kept: TxMap, costLimit: nat, gasLimit: nat)
    requires Keyed(m) && Enumerates(removed, Unpayable(m, costLimit, gasLimit))
    requires payable == KeepPayable(m, false, costLimit, gasLimit)
    requires exists i :: 0 <= i < |removed| && removed[i].nonce == lowest
    requires forall i :: 0 <= i < |removed| ==> lowest <= removed[i].nonce
    requires kept == map n | n in payable && !(payable[n].nonce > lowest) :: payable[n]
    ensures kept == KeepPayable(m, true, costLimit, gasLimit)
    ensures Minus(payable, kept) == Minus(Minus(m, kept), Unpayable(m, costLimit, gasLimit))
  {
    var u := Unpayable(m, costLimit, gasLimit);
    assert lowest in u;
    forall n | n in u ensures lowest <= n { assert u[n] in removed; }
    forall n | n in payable ensures n <= lowest <==> n in KeepPayable(m, true, costLimit, gasLimit) {
      if n <= lowest {
        forall k | k in m && k < n ensures Payable(m[k], costLimit, gasLimit) { assert k !in u; }
      }
    }
  }

  lemma LooseFilter(m: TxMap, removed: seq<Tx>, strict: bool, kept: TxMap, costLimit: nat, gasLimit: nat)
    requires Enumerates(removed, Unpayable(m, costLimit, gasLimit)) && (strict ==> removed == [])
    requires kept == KeepPayable(m, false, costLimit, gasLimit)
    ensures kept == KeepPayable(m, strict, costLimit, gasLimit)
    ensures Minus(Minus(m, kept), Unpayable(m, costLimit, gasLimit)) == map[]
  {
    if strict {
      assert Unpayable(m, costLimit, gasLimit) == map[];
      assert forall n :: n in m ==> n !in Unpayable(m, costLimit, gasLimit);
    }
  }

  lemma RemoveSpec(m: TxMap, kept: TxMap, strict: bool, nonce: nat, without: TxMap)
    requires Keyed(m) && without == m - {nonce}
    requires kept == if nonce in m && strict then (map n | n in without && !(without[n].nonce > nonce) :: without[n]) else without
    ensures kept == WithoutNonce(m, strict, nonce)
    ensures Minus(m, kept) - {nonce} == Minus(without, kept)
  {
  }

  lemma AllLowest(m: TxMap, k: nat)
    requires |m| <= k
    ensures Lowest(m, k) == m && Enumerates([], Minus(m, m))
  {
    forall n | n in m ensures |Below(m, n)| < k {
      var rest := m.Keys - {n};
      assert rest == Below(m, n) + (rest - Below(m, n));
    }
  }

  lemma CapCache(s: seq<Tx>, m: TxMap, t: nat, drops: seq<Tx>)
    requires Lists(s, m) && Keyed(m) && Enumerates(drops, Minus(m, Front(m, t)))
    ensures |drops| <= |s| && Lists(s[..|s| - |drops|], Front(m, t))
  {
    assert Minus(m, Front(m, t)) == DropBelow(m, t);
    var k := |Front(m, t)|;
    ListsSplit(s, m, k, t);
    EnumeratesLength(drops, DropBelow(m, t));
    ListsLength(s[k..], DropBelow(m, t));
  }

  lemma EnumerateOneMore(removed: seq<Tx>, m: TxMap, items: TxMap, nonce: nat)
    requires Keyed(m) && Enumerates(removed, Minus(m, items)) && nonce in items && nonce in m && items[nonce] == m[nonce]
    ensures Enumerates(removed + [m[nonce]], Minus(m, items - {nonce}))
  {
    var s, r := removed + [m[nonce]], Minus(m, items - {nonce});
    forall n | n in r ensures r[n] in s {
      if n == nonce { assert s[|s| - 1] == m[n]; } else { assert n in Minus(m, items); }
    }
  }

  lemma NothingRemoved(m: TxMap, items: TxMap)
    requires Enumerates([], Minus(m, items)) && items.Keys <= m.Keys && forall n :: n in items ==> items[n] == m[n]
    ensures items == m
  {
    assert Minus(m, items) == map[];
    assert forall n :: n in m && n !in items ==> n in Minus(m, items);
  }

  lemma ForwardGood(m: TxMap, t: nat, index: seq<nat>, cache: Option<seq<Tx>>, costcap: nat, gascap: nat)
    requires Keyed(m) && Indexed(index, DropBelow(m, t))
    requires Capped(m, costcap, gascap)
    requires cache.Some? ==> Lists(cache.value, DropBelow(m, t))
    ensures Good(DropBelow(m, t), index, cache, costcap, gascap)
  {
  }

  lemma NothingBelow(m: TxMap, t: nat)
    requires forall n :: n in m ==> t <= n
    ensures DropBelow(m, t) == m && Front(m, t) == map[] && Lists([], Front(m, t))
  {
  }

  lemma NoneBetween(m: TxMap, t: nat, threshold: nat)
    requires t <= threshold && forall n :: n in DropBelow(m, t) ==> n >= threshold
    ensures DropBelow(m, t) == DropBelow(m, threshold) && Front(m, t) == Front(m, threshold)
  {
    forall n | n in m && n >= t ensures n >= threshold { assert n in DropBelow(m, t); }
  }

  lemma ForwardStep(m: TxMap, t: nat, tx: Tx, removed: seq<Tx>)
    requires Keyed(m) && Lists(removed, Front(m, t))
    requires tx.nonce in DropBelow(m, t) && DropBelow(m, t)[tx.nonce] == tx
    requires forall n :: n in DropBelow(m, t) ==> tx.nonce <= n
    ensures tx.nonce in m && m[tx.nonce] == tx
    ensures DropBelow(m, t) - {tx.nonce} == DropBelow(m, tx.nonce + 1)
    ensures Lists(removed + [tx], Front(m, tx.nonce + 1))
  {
    var low := Front(m, tx.nonce + 1);
    var s := removed + [tx];
    assert forall n :: n in m && t <= n <= tx.nonce ==> n == tx.nonce by {
      forall n | n in m && t <= n <= tx.nonce ensures n == tx.nonce { assert n in DropBelow(m, t); }
    }
    forall n | n in low ensures low[n] in s {
      if n == tx.nonce { assert s[|s| - 1] == tx; } else { assert n in Front(m, t); assert low[n] in removed; }
    }
  }
}
