/** The part of core/blockchain.go that chooses the canonical chain: fork choice when a
    block is written, and the reorganisation of number index and transaction lookup.
 */
module BlockChain {
  import opened Wrappers
  import opened HeaderChain
  import opened Reorg

  /** types.TxDifference: the transactions of `a` that are not in `b`, in order. */
  method TxDifference(a: seq<TxHash>, b: seq<TxHash>) returns (keep: seq<TxHash>)
    ensures forall t :: t in keep <==> t in a && t !in b
    ensures keep == Without(a, b)
  {
    var remove: set<TxHash> := {};
    for i := 0 to |b|
      invariant forall t :: t in remove <==> t in b[..i]
    {
      remove := remove + {b[i]};
    }
    assert b[..|b|] == b;
    keep := [];
    for i := 0 to |a|
      invariant keep == Without(a[..i], b)
    {
      assert a[..i + 1][..i] == a[..i];
      if a[i] !in remove { keep := keep + [a[i]]; }
    }
    assert a[..|a|] == a;
    WithoutHas(a, b);
  }

  function Without(a: seq<TxHash>, b: seq<TxHash>): seq<TxHash> {
    if a == [] then []
    else Without(a[..|a| - 1], b) + if a[|a| - 1] in b then [] else [a[|a| - 1]]
  }

  lemma {:induction false} WithoutHas(a: seq<TxHash>, b: seq<TxHash>)
    ensures forall t :: t in Without(a, b) <==> t in a && t !in b
  {
    if a != [] {
      WithoutHas(a[..|a| - 1], b);
      assert a == a[..|a| - 1] + [a[|a| - 1]];
    }
  }

  /** A list has the transactions of the given blocks. */
  ghost predicate Gathers(txs: seq<TxHash>, chain: seq<Header>) {
    forall t :: t in txs <==> InBlocks(chain, t)
  }

  lemma GathersMore(txs: seq<TxHash>, chain: seq<Header>, b: Header)
    requires Gathers(txs, chain)
    ensures Gathers(txs + b.txs, chain + [b])
  {
    var more := chain + [b];
    forall t ensures t in txs + b.txs <==> InBlocks(more, t) {
      if InBlocks(chain, t) {
        var m :| 0 <= m < |chain| && t in chain[m].txs;
        assert t in more[m].txs;
      }
      if t in b.txs { assert t in more[|chain|].txs; }
    }
  }

  lemma GathersFront(txs: seq<TxHash>, chain: seq<Header>, b: Header)
    requires Gathers(txs, chain)
    ensures Gathers(txs + b.txs, [b] + chain)
  {
    var more := [b] + chain;
    forall t ensures t in txs + b.txs <==> InBlocks(more, t) {
      if InBlocks(chain, t) {
        var m :| 0 <= m < |chain| && t in chain[m].txs;
        assert t in more[m + 1].txs;
      }
      if t in b.txs { assert t in more[0].txs; }
    }
  }

  /** No transaction twice on the path of a block. */
  ghost predicate OnceOn(hs: Headers, genesis: Header, x: Header) {
    forall c: Index :: Spine(hs, c, genesis, x) ==> Once(hs, c, x.number)
  }

  ghost predicate Keyed(hs: Headers) {
    forall h :: h in hs ==> hs[h].hash == h
  }

  /** The store with a block that may not be in it yet. */
  function Plus(hs: Headers, x: Header): Headers { hs[x.hash := x] }

  ghost predicate Fits(hs: Headers, x: Header) {
    Keyed(hs) && (x.hash in hs ==> hs[x.hash] == x)
  }

  lemma SpinePlus(hs: Headers, canon: Index, genesis: Header, head: Header, x: Header)
    requires Spine(hs, canon, genesis, head) && Fits(hs, x)
    ensures Spine(Plus(hs, x), canon, genesis, head)
  {
    LinkedStill(hs, canon, head.number, Plus(hs, x));
  }

  lemma ExactPlus(hs: Headers, canon: Index, genesis: Header, head: Header, lookup: Lookup, x: Header)
    requires Spine(hs, canon, genesis, head) && Exact(hs, canon, head.number, lookup) && Fits(hs, x)
    ensures Exact(Plus(hs, x), canon, head.number, lookup)
  {
    forall i: nat, j: nat, t ensures Occurs(Plus(hs, x), canon, head.number, i, j, t) <==> Occurs(hs, canon, head.number, i, j, t) {
      if i <= head.number { assert LinkAt(hs, canon, i); }
    }
    forall t | t in lookup ensures Found(Plus(hs, x), canon, head.number, t) {
      var i: nat, j: nat :| Occurs(hs, canon, head.number, i, j, t);
      assert Occurs(Plus(hs, x), canon, head.number, i, j, t);
    }
  }

  /** Total difficulties are kept for exactly the blocks seen, as sums along their parents. */
  ghost predicate Summed(seen: Headers, td: map<Hash, nat>, genesis: Header) {
    && Keyed(seen) && genesis.number == 0 && genesis.hash in seen && seen[genesis.hash] == genesis
    && (forall h :: h in seen <==> h in td)
    && forall h :: h in seen && seen[h] != genesis ==> seen[h].parent in td && td[h] == seen[h].difficulty + td[seen[h].parent]
  }

  /** The blocks stored are among those seen, and none is heavier than the head. */
  ghost predicate Leads(hs: Headers, seen: Headers, td: map<Hash, nat>, head: Header) {
    head.hash in td && forall h :: h in hs ==> h in seen && seen[h] == hs[h] && h in td && td[h] <= td[head.hash]
  }

  /** A block whose hash and number agree with what was seen. */
  ghost predicate Agrees(seen: Headers, x: Header) {
    Fits(seen, x) && (x.parent in seen ==> seen[x.parent].number + 1 == x.number)
  }

  lemma AgreesMeans(hs: Headers, seen: Headers, td: map<Hash, nat>, head: Header, x: Header)
    requires Keyed(hs) && Leads(hs, seen, td, head) && Agrees(seen, x)
    ensures Fits(hs, x) && (x.parent in hs ==> hs[x.parent].number + 1 == x.number)
  {
  }

  /** One more block seen leaves the totals of the others alone. */
  lemma SummedMore(seen: Headers, td: map<Hash, nat>, genesis: Header, x: Header, td': map<Hash, nat>)
    requires Summed(seen, td, genesis) && Agrees(seen, x) && x.parent in td && td' == td[x.hash := x.difficulty + td[x.parent]]
    ensures Summed(Plus(seen, x), td', genesis) && forall h :: h in td ==> td'[h] == td[h]
  {
    assert x != genesis;
  }

  lemma LeadsStill(hs: Headers, seen: Headers, td: map<Hash, nat>, head: Header, x: Header, td': map<Hash, nat>)
    requires Leads(hs, seen, td, head) && Fits(seen, x) && (forall h :: h in td ==> h in td' && td'[h] == td[h])
    ensures Leads(hs, Plus(seen, x), td', head)
  {
  }

  lemma LeadsMore(hs: Headers, seen: Headers, td: map<Hash, nat>, head: Header, x: Header, head': Header)
    requires Leads(hs, seen, td, head) && x.hash in seen && seen[x.hash] == x && x.hash in td && (head' == head || head' == x)
    requires head'.hash in td && td[x.hash] <= td[head'.hash] && td[head.hash] <= td[head'.hash]
    ensures Leads(Plus(hs, x), seen, td, head')
  {
  }

  class Chain {
    const genesis: Header
    var headers: Headers      // blocks in the database
    var td: map<Hash, nat>
    var canon: Index
    var lookup: Lookup
    var head: Header          // current block
    ghost var seen: Headers   // history: the blocks whose total difficulty was written

    ghost predicate Valid()
      reads this
    {
      && Keyed(headers) && Spine(headers, canon, genesis, head) && Exact(headers, canon, head.number, lookup)
      && Summed(seen, td, genesis) && Leads(headers, seen, td, head)
    }

    constructor (g: Header)
      requires g.number == 0 && g.txs == []
      ensures Valid() && genesis == g && head == g
    {
      genesis, headers, td, canon, lookup, head := g, map[g.hash := g], map[g.hash := g.difficulty], map[0 := g.hash], map[], g;
      seen := map[g.hash := g];
      new;
      assert LinkAt(headers, canon, 0);
    }

    /** GetBlock reads by hash and number. */
    function GetBlock(hash: Hash, number: int): Option<Header>
      reads this
    {
      if hash in headers && headers[hash].number == number then Some(headers[hash]) else None
    }

    lemma Parent(x: Header, cur: Header)
      requires Fits(headers, x) && cur.number <= x.number
      ensures GetBlock(cur.parent, cur.number - 1) == if ParentStored(Plus(headers, x), cur) then Some(Plus(headers, x)[cur.parent]) else None
    {
    }

    lemma OldParent(x: Header, chain: seq<Header>, cur: Header)
      requires Fits(headers, x) && Spine(headers, canon, genesis, head) && Down(Plus(headers, x), chain, head, cur)
      ensures cur.number == 0 ==> cur == genesis && GetBlock(cur.parent, cur.number - 1) == None
      ensures cur.number > 0 ==> ParentStored(Plus(headers, x), cur) && GetBlock(cur.parent, cur.number - 1) == Some(Plus(headers, x)[cur.parent])
    {
      SpinePlus(headers, canon, genesis, head, x);
      DownIsSpine(Plus(headers, x), canon, genesis, head, chain, cur, |chain|);
      assert LinkAt(headers, canon, cur.number);
      if cur.number > 0 { assert LinkAt(headers, canon, cur.number - 1); }
    }

    /** reorg, the old chain being the higher: it is walked down to the new block's
        number. */
    method ReduceOld(x: Header) returns (oldB: Header, oldChain: seq<Header>, deletedTxs: seq<TxHash>)
      requires Fits(headers, x) && Spine(headers, canon, genesis, head) && head.number > x.number
      ensures Down(Plus(headers, x), oldChain, head, oldB) && oldB.number == x.number && Gathers(deletedTxs, oldChain)
    {
      oldB, oldChain, deletedTxs := head, [], [];
      ghost var full := Plus(headers, x);
      SpinePlus(headers, canon, genesis, head, x);
      while oldB.number != x.number
        invariant Down(full, oldChain, head, oldB) && oldB.number >= x.number && Gathers(deletedTxs, oldChain)
        decreases oldB.number
      {
        OldParent(x, oldChain, oldB);
        DownMore(full, oldChain, head, oldB);
        GathersMore(deletedTxs, oldChain, oldB);
        oldChain := oldChain + [oldB];
        deletedTxs := deletedTxs + oldB.txs;
        oldB := GetBlock(oldB.parent, oldB.number - 1).value;
      }
    }

    /** reorg, the new chain being the higher: walked down likewise, unless it breaks. */
    method ReduceNew(x: Header) returns (newB: Option<Header>, newChain: seq<Header>)
      requires Fits(headers, x) && Spine(headers, canon, genesis, head) && head.number <= x.number
      ensures newB.None? ==> !Rooted(Plus(headers, x), genesis, x)
      ensures newB.Some? ==> Down(Plus(headers, x), newChain, x, newB.value) && newB.value.number == head.number
      ensures newB.Some? ==> (Rooted(Plus(headers, x), genesis, x) <==> Rooted(Plus(headers, x), genesis, newB.value))
    {
      newB, newChain := Some(x), [];
      ghost var full := Plus(headers, x);
      while newB.Some? && newB.value.number != head.number
        invariant newB.None? ==> !Rooted(full, genesis, x)
        invariant newB.Some? ==> Down(full, newChain, x, newB.value) && newB.value.number >= head.number
        invariant newB.Some? ==> (Rooted(full, genesis, x) <==> Rooted(full, genesis, newB.value))
        decreases if newB.Some? then newB.value.number + 1 else 0
      {
        Parent(x, newB.value);
        RootedStep(full, genesis, newB.value);
        if ParentStored(full, newB.value) { DownMore(full, newChain, x, newB.value); }
        newChain := newChain + [newB.value];
        newB := GetBlock(newB.value.parent, newB.value.number - 1);
      }
    }
  
    /** reorg's common loop: both cursors go down until they meet. They fail to exactly
        if the new chain does not come from genesis. */
    method Meet(x: Header, oldB: Header, oldChain: seq<Header>, deletedTxs: seq<TxHash>, newB: Header, newChain: seq<Header>)
      returns (common: Option<Header>, oldChain': seq<Header>, newChain': seq<Header>, deletedTxs': seq<TxHash>)
      requires Fits(headers, x) && Spine(headers, canon, genesis, head) && oldB.number == newB.number
      requires Down(Plus(headers, x), oldChain, head, oldB) && Down(Plus(headers, x), newChain, x, newB) && Gathers(deletedTxs, oldChain)
      requires Rooted(Plus(headers, x), genesis, x) <==> Rooted(Plus(headers, x), genesis, newB)
      ensures common.Some? <==> Rooted(Plus(headers, x), genesis, x)
      ensures common.Some? ==> Down(Plus(headers, x), oldChain', head, common.value) && Down(Plus(headers, x), newChain', x, common.value)
      ensures common.Some? ==> Gathers(deletedTxs', oldChain')
    {
      hide *;
      SpineMeans(headers, canon, genesis, head);
      var o, n := oldB, newB;
      oldChain', newChain', deletedTxs' := oldChain, newChain, deletedTxs;
      ghost var full := Plus(headers, x);
      while o.hash != n.hash
        invariant o.number == n.number && Gathers(deletedTxs', oldChain')
        invariant Down(full, oldChain', head, o) && Down(full, newChain', x, n)
        invariant Rooted(full, genesis, x) <==> Rooted(full, genesis, n)
        decreases n.number
      {
        OldParent(x, oldChain', o);
        DownMeans(full, newChain', x, n);
        Parent(x, n);
        GathersMore(deletedTxs', oldChain', o);
        var o', n' := GetBlock(o.parent, o.number - 1), GetBlock(n.parent, n.number - 1);
        if o'.None? {
          AtTheBottom(full, genesis, n);
          return None, oldChain', newChain', deletedTxs';
        }
        RootedStep(full, genesis, n);
        if n'.None? {
          return None, oldChain', newChain', deletedTxs';
        }
        KeyedParent(headers, x, o);
        KeyedParent(headers, x, n);
        DownMore(full, oldChain', head, o);
        DownMore(full, newChain', x, n);
        oldChain', newChain', deletedTxs' := oldChain' + [o], newChain' + [n], deletedTxs' + o.txs;
        o, n := o'.value, n'.value;
      }
      Together(full, oldChain', head, o, newChain', x, n);
      common := Some(o);
      OnSpine(x, oldChain', o);
    }

    /** insert: the block is canonical at its number, and the current block. */
    method Insert(b: Header)
      modifies this`canon, this`head
      ensures canon == old(canon)[b.number := b.hash] && head == b
    {
      canon := canon[b.number := b.hash];
      head := b;
    }

    method WriteTxLookupEntries(b: Header)
      modifies this`lookup
      ensures lookup == Recorded(old(lookup), b, |b.txs|)
    {
      for i := 0 to |b.txs|
        invariant lookup == Recorded(old(lookup), b, i)
      {
        lookup := lookup[b.txs[i] := Entry(b.hash, b.number, i)];
      }
    }

    method DeleteTxLookupEntries(txs: seq<TxHash>)
      modifies this`lookup
      ensures lookup == old(lookup) - (set t | t in txs)
    {
      for i := 0 to |txs|
        invariant lookup == old(lookup) - (set t | t in txs[..i])
      {
        lookup := lookup - {txs[i]};
        ghost var more := txs[..i + 1];
        assert (set t | t in more) == (set t | t in txs[..i]) + {txs[i]};
      }
      assert txs[..|txs|] == txs;
    }

    /** The new blocks become canonical, lowest first, and their transactions findable. */
    method Adopt(newChain: seq<Header>) returns (addedTxs: seq<TxHash>)
      modifies this`canon, this`lookup, this`head
      ensures canon == Placed(old(canon), newChain) && lookup == Entered(old(lookup), newChain)
      ensures head == if newChain == [] then old(head) else newChain[0]
      ensures Gathers(addedTxs, newChain)
    {
      addedTxs := [];
      var i := |newChain|;
      assert newChain[i..] == [];
      while i > 0
        invariant 0 <= i <= |newChain| && Gathers(addedTxs, newChain[i..])
        invariant canon == Placed(old(canon), newChain[i..]) && lookup == Entered(old(lookup), newChain[i..])
        invariant head == if i == |newChain| then old(head) else newChain[i]
      {
        i := i - 1;
        var b := newChain[i];
        assert newChain[i..][1..] == newChain[i + 1..];
        assert newChain[i..] == [b] + newChain[i + 1..];
        Insert(b);
        WriteTxLookupEntries(b);
        GathersFront(addedTxs, newChain[i + 1..], b);
        addedTxs := addedTxs + b.txs;
      }
      assert newChain[0..] == newChain;
    }

    /** reorg from the current block to `x`, which need not be stored yet. It succeeds
        exactly if the parent path of `x` reaches genesis, and changes nothing if it
        fails. Then the index up to `x` is the path of `x` and the lookup has exactly its
        transactions; entries above `x` stay as they were. */
    method Reorganise(x: Header) returns (ok: bool)
      requires Valid() && Fits(headers, x) && OnceOn(Plus(headers, x), genesis, x)
      modifies this`canon, this`lookup, this`head
      ensures ok <==> Rooted(Plus(headers, x), genesis, x)
      ensures !ok ==> unchanged(this)
      ensures ok ==> Spine(Plus(headers, x), canon, genesis, x) && Exact(Plus(headers, x), canon, x.number, lookup)
      ensures ok ==> forall n: nat :: n > x.number ==> (n in canon <==> n in old(canon)) && (n in canon ==> canon[n] == old(canon)[n])
    {
      hide *;
      Unfold();
      ghost var full := Plus(headers, x);
      GathersNone();
      DownNone(headers, canon, genesis, head, x);
      var oldB, oldChain, deletedTxs := head, [], [];
      var newB, newChain := Some(x), [];
      if head.number > x.number {
        oldB, oldChain, deletedTxs := ReduceOld(x);
      } else {
        newB, newChain := ReduceNew(x);
      }
      if newB.None? { return false; }
      var common;
      common, oldChain, newChain, deletedTxs := Meet(x, oldB, oldChain, deletedTxs, newB.value, newChain);
      if common.None? { return false; }
      OnSpine(x, oldChain, common.value);
      SpinePlus(headers, canon, genesis, head, x);
      ExactPlus(headers, canon, genesis, head, lookup, x);
      SpineMeans(full, canon, genesis, head);
      SpineAfter(full, canon, genesis, newChain, x, common.value);
      HasOnce(full, genesis, x, Placed(canon, newChain));
      PartsIs(full, canon, genesis, head, x, common.value, oldChain, newChain);
      AboveKept(full, canon, newChain, x, common.value);
      var addedTxs := Adopt(newChain);
      var diff := TxDifference(deletedTxs, addedTxs);
      DroppedIs(oldChain, newChain, deletedTxs, addedTxs, diff);
      DeleteTxLookupEntries(diff);
      ExactAfter(full, old(canon), genesis, old(head), x, common.value, oldChain, newChain, old(lookup), set t | t in diff);
      ok := true;
    }

    /** The fork-choice part of WriteBlockWithState. Whatever it decides, index and
        lookup stay exactly those of the current block, and no stored block is heavier
        than it: a heavier one takes over, a lighter one does not, and of two as heavy the
        lower one is head, or the coin decides. */
    method WriteBlock(x: Header, coin: bool) returns (status: Status)
      requires Valid() && Agrees(seen, x) && OnceOn(Plus(headers, x), genesis, x)
      modifies this
      ensures Valid() && seen == if x.parent in old(td) then Plus(old(seen), x) else old(seen)
      ensures status == NonStat <==> x.parent !in old(td) || Refused(old(headers), old(td), genesis, old(head), x, coin)
      ensures status == NonStat ==> unchanged(`headers) && unchanged(`canon) && unchanged(`lookup) && unchanged(`head)
      ensures status != NonStat ==> headers == Plus(old(headers), x)
      ensures status == CanonStat ==> head == x
      ensures status == SideStat ==> unchanged(`canon) && unchanged(`lookup) && unchanged(`head)
      ensures status != NonStat ==> (status == CanonStat <==> Wins(old(td), old(head), x, coin))
      ensures td == if x.parent !in old(td) then old(td) else old(td)[x.hash := x.difficulty + old(td)[x.parent]]
      ensures head.hash in td && old(head.hash in td) && td[head.hash] >= old(td[head.hash])
      ensures status == SideStat ==> td[x.hash] <= td[head.hash] && (td[x.hash] == td[head.hash] ==> x.number >= head.number)
      ensures status == CanonStat ==> td[x.hash] == old(td[head.hash]) ==> x.number <= old(head.number)
      ensures status != NonStat && td[x.hash] == old(td[head.hash]) && x.number == old(head.number) ==> (status == CanonStat <==> coin)
    {
      hide *;
      Unfold();
      SpineMeans(headers, canon, genesis, head);
      StoredIs(headers, head);
      RefusedMeans(headers, td, genesis, head, x, coin);
      AgreesMeans(headers, seen, td, head, x);
      LeadsMeans(headers, seen, td, head);
      if x.parent !in td { return NonStat; }
      WinsMeans(td, head, x, coin);
      var localTd, externTd := td[head.hash], x.difficulty + td[x.parent];
      PrefersMeans(externTd, localTd, x, head, coin);
      SummedMore(seen, td, genesis, x, td[x.hash := externTd]);
      LeadsStill(headers, seen, td, head, x, td[x.hash := externTd]) by { AgreesFits(seen, x); }
      SeenNow(seen, x);
      td, seen := td[x.hash := externTd], Plus(seen, x);
      Fold();
      if Prefers(externTd, localTd, x, head, coin) {
        LeadsMore(headers, seen, td, head, x, x);
        if x.parent != head.hash {
          var ok := Reorganise(x);
          if !ok {
            Fold();
            return NonStat;
          }
          Settled(Plus(headers, x), canon, genesis, x, lookup);
        } else {
          Extends(headers, canon, genesis, head, lookup, x);
        }
        WriteTxLookupEntries(x);
        KeyedPlus(headers, x);
        headers := Plus(headers, x);
        Insert(x);
        Fold();
        status := CanonStat;
      } else {
        LeadsMore(headers, seen, td, head, x, head);
        SpinePlus(headers, canon, genesis, head, x);
        ExactPlus(headers, canon, genesis, head, lookup, x);
        KeyedPlus(headers, x);
        headers := Plus(headers, x);
        Fold();
        status := SideStat;
      }
    }

    lemma Fold()
      requires Keyed(headers) && Spine(headers, canon, genesis, head) && Exact(headers, canon, head.number, lookup)
      requires Summed(seen, td, genesis) && Leads(headers, seen, td, head)
      ensures Valid()
    {
    }

    lemma Unfold()
      requires Valid()
      ensures Keyed(headers) && Spine(headers, canon, genesis, head) && Exact(headers, canon, head.number, lookup)
      ensures Summed(seen, td, genesis) && Leads(headers, seen, td, head)
    {
    }

    lemma OnSpine(x: Header, chain: seq<Header>, cur: Header)
      requires Fits(headers, x) && Spine(headers, canon, genesis, head) && Down(Plus(headers, x), chain, head, cur)
      ensures Rooted(Plus(headers, x), genesis, cur) && Linked(Plus(headers, x), canon, cur.number)
      ensures cur.number in canon && canon[cur.number] == cur.hash
    {
      SpinePlus(headers, canon, genesis, head, x);
      DownIsSpine(Plus(headers, x), canon, genesis, head, chain, cur, |chain|);
      SpineRooted(Plus(headers, x), canon, genesis, head, cur.number);
    }
  }

  /** Fork choice: the heavier chain; on a tie the lower block, and on equal numbers the
      coin. */
  predicate Prefers(externTd: nat, localTd: nat, x: Header, head: Header, coin: bool) {
    externTd > localTd || (externTd == localTd && (x.number < head.number || (x.number == head.number && coin)))
  }

  lemma PrefersMeans(externTd: nat, localTd: nat, x: Header, head: Header, coin: bool)
    ensures externTd > localTd ==> Prefers(externTd, localTd, x, head, coin)
    ensures externTd < localTd ==> !Prefers(externTd, localTd, x, head, coin)
    ensures externTd == localTd && x.number < head.number ==> Prefers(externTd, localTd, x, head, coin)
    ensures externTd == localTd && x.number > head.number ==> !Prefers(externTd, localTd, x, head, coin)
    ensures externTd == localTd && x.number == head.number ==> Prefers(externTd, localTd, x, head, coin) == coin
  {
  }

  lemma LeadsMeans(hs: Headers, seen: Headers, td: map<Hash, nat>, head: Header)
    requires Leads(hs, seen, td, head)
    ensures head.hash in td && forall h :: h in hs ==> h in td
  {
  }

  lemma AgreesFits(seen: Headers, x: Header)
    requires Agrees(seen, x)
    ensures Fits(seen, x)
  {
  }

  lemma SeenNow(seen: Headers, x: Header)
    ensures x.hash in Plus(seen, x) && Plus(seen, x)[x.hash] == x
  {
  }

  /** Whether a block with a known parent takes over from the head. */
  predicate Wins(td: map<Hash, nat>, head: Header, x: Header, coin: bool) {
    x.parent in td && head.hash in td && Prefers(x.difficulty + td[x.parent], td[head.hash], x, head, coin)
  }

  /** A winning block is refused if it would need a reorganisation but does not come
      from genesis. */
  ghost predicate Refused(hs: Headers, td: map<Hash, nat>, genesis: Header, head: Header, x: Header, coin: bool) {
    Wins(td, head, x, coin) && x.parent != head.hash && !Rooted(Plus(hs, x), genesis, x)
  }

  lemma WinsMeans(td: map<Hash, nat>, head: Header, x: Header, coin: bool)
    requires x.parent in td && head.hash in td
    ensures Wins(td, head, x, coin) <==> Prefers(x.difficulty + td[x.parent], td[head.hash], x, head, coin)
  {
  }

  lemma RefusedMeans(hs: Headers, td: map<Hash, nat>, genesis: Header, head: Header, x: Header, coin: bool)
    ensures Refused(hs, td, genesis, head, x, coin) <==> Wins(td, head, x, coin) && x.parent != head.hash && !Rooted(Plus(hs, x), genesis, x)
  {
  }

  lemma StoredIs(hs: Headers, b: Header)
    requires Stored(hs, b)
    ensures b.hash in hs && hs[b.hash] == b
  {
  }

  /** On a chain already indexed, entering the head once more changes nothing. */
  lemma Settled(hs: Headers, canon: Index, genesis: Header, x: Header, lookup: Lookup)
    requires Spine(hs, canon, genesis, x) && Exact(hs, canon, x.number, lookup)
    ensures Recorded(lookup, x, |x.txs|) == lookup && canon[x.number := x.hash] == canon
  {
    SettledUpTo(hs, canon, genesis, x, lookup, |x.txs|);
  }

  lemma {:induction false} SettledUpTo(hs: Headers, canon: Index, genesis: Header, x: Header, lookup: Lookup, k: nat)
    requires Spine(hs, canon, genesis, x) && Exact(hs, canon, x.number, lookup) && k <= |x.txs|
    ensures Recorded(lookup, x, k) == lookup
  {
    if k > 0 {
      SettledUpTo(hs, canon, genesis, x, lookup, k - 1);
      assert Occurs(hs, canon, x.number, x.number, k - 1, x.txs[k - 1]);
    }
  }

  /** A block on top of the head. */
  lemma Extends(hs: Headers, canon: Index, genesis: Header, head: Header, lookup: Lookup, x: Header)
    requires Spine(hs, canon, genesis, head) && Exact(hs, canon, head.number, lookup) && Fits(hs, x) && OnceOn(Plus(hs, x), genesis, x)
    requires x.parent == head.hash && x.number == head.number + 1
    ensures Spine(Plus(hs, x), canon[x.number := x.hash], genesis, x)
    ensures Exact(Plus(hs, x), canon[x.number := x.hash], x.number, Recorded(lookup, x, |x.txs|))
  {
    hide *;
    var full := Plus(hs, x);
    SpinePlus(hs, canon, genesis, head, x);
    ExactPlus(hs, canon, genesis, head, lookup, x);
    SpineMeans(full, canon, genesis, head);
    DownNone(hs, canon, genesis, head, x);
    DownFirst(full, x, head);
    PlacedOne(canon, lookup, x);
    LinkedUpTo(full, canon, genesis, head);
    SpineAfter(full, canon, genesis, [x], x, head);
    HasOnce(full, genesis, x, Placed(canon, [x]));
    PartsIs(full, canon, genesis, head, x, head, [], [x]);
    DroppedNone(x);
    ExactAfter(full, canon, genesis, head, x, head, [], [x], lookup, {});
    assert Entered(lookup, [x]) - {} == Entered(lookup, [x]);
  }

  lemma DownFirst(hs: Headers, x: Header, head: Header)
    requires Down(hs, [], x, x) && Stored(hs, head) && x.parent == head.hash && x.number == head.number + 1
    ensures Down(hs, [x], x, head)
  {
    assert DownAt(hs, [x], x, head, 0);
  }

  lemma PlacedOne(canon: Index, lookup: Lookup, x: Header)
    ensures Placed(canon, [x]) == canon[x.number := x.hash] && Entered(lookup, [x]) == Recorded(lookup, x, |x.txs|)
  {
    assert [x][1..] == [];
  }

  lemma LinkedUpTo(hs: Headers, canon: Index, genesis: Header, head: Header)
    requires Spine(hs, canon, genesis, head)
    ensures Linked(hs, canon, head.number)
  {
  }

  lemma DroppedNone(x: Header)
    ensures Dropped([], [x], {})
  {
  }

  lemma KeyedPlus(hs: Headers, x: Header)
    requires Keyed(hs)
    ensures Keyed(Plus(hs, x))
  {
  }

  lemma GathersNone()
    ensures Gathers([], [])
  {
  }

  lemma DownNone(hs: Headers, canon: Index, genesis: Header, head: Header, x: Header)
    requires Spine(hs, canon, genesis, head) && Fits(hs, x)
    ensures Down(Plus(hs, x), [], head, head) && Down(Plus(hs, x), [], x, x)
  {
  }

  lemma HasOnce(hs: Headers, genesis: Header, x: Header, c: Index)
    requires OnceOn(hs, genesis, x) && Spine(hs, c, genesis, x)
    ensures Once(hs, c, x.number)
  {
  }

  lemma PartsIs(hs: Headers, canon: Index, genesis: Header, head: Header, x: Header, cur: Header, oldChain: seq<Header>, newChain: seq<Header>)
    requires Spine(hs, canon, genesis, head) && Down(hs, oldChain, head, cur) && Down(hs, newChain, x, cur)
    requires Once(hs, Placed(canon, newChain), x.number)
    ensures Parts(hs, canon, genesis, head, x, cur, oldChain, newChain)
  {
  }

  lemma AboveKept(hs: Headers, canon: Index, chain: seq<Header>, x: Header, cur: Header)
    requires Down(hs, chain, x, cur)
    ensures var c := Placed(canon, chain); forall n: nat :: n > x.number ==> (n in c <==> n in canon) && (n in c ==> c[n] == canon[n])
  {
    DownNumbers(hs, chain, x, cur);
    forall n: nat | n > x.number ensures n in Placed(canon, chain) <==> n in canon { PlacedAt(canon, chain, x.number, n); }
    forall n: nat | n > x.number && n in canon ensures Placed(canon, chain)[n] == canon[n] { PlacedAt(canon, chain, x.number, n); }
  }

  lemma DroppedIs(oldChain: seq<Header>, newChain: seq<Header>, deletedTxs: seq<TxHash>, addedTxs: seq<TxHash>, diff: seq<TxHash>)
    requires Gathers(deletedTxs, oldChain) && Gathers(addedTxs, newChain)
    requires forall t :: t in diff <==> t in deletedTxs && t !in addedTxs
    ensures Dropped(oldChain, newChain, set t | t in diff)
  {
  }

  lemma AtTheBottom(hs: Headers, genesis: Header, n: Header)
    requires n.number == 0 && n.hash != genesis.hash
    ensures !Rooted(hs, genesis, n)
  {
  }

  lemma SpineMeans(hs: Headers, canon: Index, genesis: Header, head: Header)
    requires Spine(hs, canon, genesis, head)
    ensures genesis.number == 0 && Stored(hs, genesis) && Stored(hs, head) && 0 in canon && canon[0] == genesis.hash
    ensures head.number in canon && canon[head.number] == head.hash
  {
  }

  lemma DownMeans(hs: Headers, chain: seq<Header>, x: Header, cur: Header)
    requires Down(hs, chain, x, cur)
    ensures cur.number <= x.number && cur.hash in hs && hs[cur.hash] == cur
  {
  }

  lemma KeyedParent(hs: Headers, x: Header, cur: Header)
    requires Fits(hs, x) && ParentStored(Plus(hs, x), cur)
    ensures Stored(Plus(hs, x), Plus(hs, x)[cur.parent]) && Plus(hs, x)[cur.parent].hash == cur.parent
    ensures Plus(hs, x)[cur.parent].number + 1 == cur.number
  {
  }

  lemma Together(hs: Headers, a: seq<Header>, x: Header, m: Header, b: seq<Header>, y: Header, n: Header)
    requires Down(hs, a, x, m) && Down(hs, b, y, n) && m.hash == n.hash
    ensures m == n
  {
  }
}
