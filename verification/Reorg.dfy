/** What a chain reorganisation does to the canonical number index and the transaction
    lookup, as values.
 */
module Reorg {
  import opened HeaderChain

  datatype Entry = Entry(block: Hash, number: nat, index: nat)
  type Index = map<nat, Hash>
  type Lookup = map<TxHash, Entry>

  // ----- the canonical chain of a head -----

  ghost predicate Stored(hs: Headers, b: Header) {
    b.hash in hs && hs[b.hash] == b
  }

  /** Up to the head's number the index is the head's parent path from genesis. What it
      holds above is left open. */
  ghost predicate Spine(hs: Headers, canon: Index, genesis: Header, head: Header) {
    && Stored(hs, head) && Stored(hs, genesis) && genesis.number == 0
    && Linked(hs, canon, head.number) && 0 in canon && canon[0] == genesis.hash
    && head.number in canon && canon[head.number] == head.hash
  }

  lemma {:induction false} SpineRooted(hs: Headers, canon: Index, genesis: Header, head: Header, i: nat)
    requires Spine(hs, canon, genesis, head) && i <= head.number
    ensures i in canon && canon[i] in hs && Rooted(hs, genesis, hs[canon[i]])
  {
    assert LinkAt(hs, canon, i);
    if i > 0 {
      SpineRooted(hs, canon, genesis, head, i - 1);
      assert LinkAt(hs, canon, i - 1);
    }
  }

  /** The index is determined by the head: there is one parent path. */
  lemma {:induction false} SpineUnique(hs: Headers, a: Index, b: Index, genesis: Header, head: Header, i: nat)
    requires Spine(hs, a, genesis, head) && Spine(hs, b, genesis, head) && i <= head.number
    ensures i in a && i in b && a[i] == b[i]
    decreases head.number - i
  {
    assert LinkAt(hs, a, i) && LinkAt(hs, b, i);
    if i < head.number {
      SpineUnique(hs, a, b, genesis, head, i + 1);
      assert LinkAt(hs, a, i + 1) && LinkAt(hs, b, i + 1);
    }
  }

  // ----- walking down -----

  /** Blocks from `x` down along parent links, the last one's parent being `cur`. */
  ghost predicate Down(hs: Headers, chain: seq<Header>, x: Header, cur: Header) {
    && |chain| + cur.number == x.number && Stored(hs, cur)
    && (forall i :: 0 <= i < |chain| ==> DownAt(hs, chain, x, cur, i))
    && (if |chain| > 0 then chain[0] else cur) == x
  }

  ghost predicate DownAt(hs: Headers, chain: seq<Header>, x: Header, cur: Header, i: nat)
    requires i < |chain|
  {
    && Stored(hs, chain[i]) && chain[i].number == x.number - i
    && chain[i].parent == if i + 1 < |chain| then chain[i + 1].hash else cur.hash
  }

  lemma DownMore(hs: Headers, chain: seq<Header>, x: Header, cur: Header)
    requires Down(hs, chain, x, cur) && ParentStored(hs, cur) && Stored(hs, hs[cur.parent]) && hs[cur.parent].hash == cur.parent
    ensures Down(hs, chain + [cur], x, hs[cur.parent])
  {
    var more, next := chain + [cur], hs[cur.parent];
    forall i | 0 <= i < |more| ensures DownAt(hs, more, x, next, i) {
      if i < |chain| { assert DownAt(hs, chain, x, cur, i); }
    }
  }

  lemma DownNumbers(hs: Headers, chain: seq<Header>, x: Header, cur: Header)
    requires Down(hs, chain, x, cur)
    ensures forall i :: 0 <= i < |chain| ==> chain[i].number == x.number - i
  {
    forall i | 0 <= i < |chain| ensures chain[i].number == x.number - i { assert DownAt(hs, chain, x, cur, i); }
  }

  // ----- the index rewritten -----

  /** Blocks written to the index, the last one first. */
  function Placed(canon: Index, chain: seq<Header>): Index {
    if chain == [] then canon else Placed(canon, chain[1..])[chain[0].number := chain[0].hash]
  }

  lemma {:induction false} PlacedAt(canon: Index, chain: seq<Header>, top: nat, n: nat)
    requires |chain| <= top + 1 && forall i :: 0 <= i < |chain| ==> chain[i].number == top - i
    ensures top - |chain| < n <= top ==> n in Placed(canon, chain) && Placed(canon, chain)[n] == chain[top - n].hash
    ensures !(top - |chain| < n <= top) ==> (n in Placed(canon, chain) <==> n in canon)
    ensures !(top - |chain| < n <= top) && n in canon ==> Placed(canon, chain)[n] == canon[n]
  {
    if chain != [] {
      if top > 0 {
        PlacedAt(canon, chain[1..], top - 1, n);
      } else {
        assert chain[1..] == [];
      }
    }
  }

  /** Writing the blocks down to a block of the old path makes the index the new path. */
  lemma SpineAfter(hs: Headers, canon: Index, genesis: Header, chain: seq<Header>, x: Header, cur: Header)
    requires Down(hs, chain, x, cur) && Linked(hs, canon, cur.number) && 0 in canon && canon[0] == genesis.hash
    requires cur.number in canon && canon[cur.number] == cur.hash && Stored(hs, genesis) && genesis.number == 0
    ensures Spine(hs, Placed(canon, chain), genesis, x)
  {
    var canon' := Placed(canon, chain);
    DownNumbers(hs, chain, x, cur);
    forall i | 0 <= i <= x.number ensures LinkAt(hs, canon', i) {
      PlacedAt(canon, chain, x.number, i);
      if i > 0 { PlacedAt(canon, chain, x.number, i - 1); }
      if i <= cur.number {
        assert LinkAt(hs, canon, i);
      } else {
        assert DownAt(hs, chain, x, cur, x.number - i);
      }
    }
    PlacedAt(canon, chain, x.number, 0);
    PlacedAt(canon, chain, x.number, x.number);
    assert |chain| > 0 ==> DownAt(hs, chain, x, cur, 0);
  }

  // ----- the lookup rewritten -----

  /** Transaction `t` is number `j` of the canonical block `i`. */
  ghost predicate Occurs(hs: Headers, canon: Index, n: nat, i: nat, j: nat, t: TxHash) {
    i <= n && i in canon && canon[i] in hs && j < |hs[canon[i]].txs| && hs[canon[i]].txs[j] == t
  }

  ghost predicate Found(hs: Headers, canon: Index, n: nat, t: TxHash) {
    exists i: nat, j: nat :: Occurs(hs, canon, n, i, j, t)
  }

  /** The lookup holds exactly the transactions up to block `n`, each with its place. */
  ghost predicate Exact(hs: Headers, canon: Index, n: nat, lookup: Lookup) {
    && (forall t :: t in lookup ==> Found(hs, canon, n, t))
    && (forall i: nat, j: nat, t :: Occurs(hs, canon, n, i, j, t) ==> t in lookup && lookup[t] == Entry(canon[i], i, j))
  }

  /** Each transaction at most once on the chain. */
  ghost predicate Once(hs: Headers, canon: Index, n: nat) {
    forall i: nat, j: nat, i': nat, j': nat, t ::
      Occurs(hs, canon, n, i, j, t) && Occurs(hs, canon, n, i', j', t) ==> i == i' && j == j'
  }

  /** WriteTxLookupEntries, for the first `k` transactions. */
  function Recorded(lookup: Lookup, b: Header, k: nat): Lookup
    requires k <= |b.txs|
  {
    if k == 0 then lookup else Recorded(lookup, b, k - 1)[b.txs[k - 1] := Entry(b.hash, b.number, k - 1)]
  }

  lemma {:induction false} RecordedAt(lookup: Lookup, b: Header, k: nat, t: TxHash)
    requires k <= |b.txs| && forall j, j' :: 0 <= j < j' < |b.txs| ==> b.txs[j] != b.txs[j']
    ensures t !in b.txs[..k] ==> (t in Recorded(lookup, b, k) <==> t in lookup)
    ensures t !in b.txs[..k] && t in lookup ==> Recorded(lookup, b, k)[t] == lookup[t]
    ensures forall j :: 0 <= j < k && b.txs[j] == t ==> t in Recorded(lookup, b, k) && Recorded(lookup, b, k)[t] == Entry(b.hash, b.number, j)
  {
    if k > 0 {
      RecordedAt(lookup, b, k - 1, t);
      assert b.txs[..k] == b.txs[..k - 1] + [b.txs[k - 1]];
    }
  }

  /** Blocks entered in the lookup, the last one first. */
  function Entered(lookup: Lookup, chain: seq<Header>): Lookup {
    if chain == [] then lookup else Recorded(Entered(lookup, chain[1..]), chain[0], |chain[0].txs|)
  }

  ghost predicate InBlocks(chain: seq<Header>, t: TxHash) {
    exists m :: 0 <= m < |chain| && t in chain[m].txs
  }

  ghost predicate OnceIn(chain: seq<Header>) {
    forall m, j, m', j' ::
      0 <= m < |chain| && 0 <= m' < |chain| && 0 <= j < |chain[m].txs| && 0 <= j' < |chain[m'].txs| && chain[m].txs[j] == chain[m'].txs[j']
      ==> m == m' && j == j'
  }

  lemma {:induction false} EnteredOther(lookup: Lookup, chain: seq<Header>, t: TxHash)
    requires OnceIn(chain) && !InBlocks(chain, t)
    ensures t in Entered(lookup, chain) <==> t in lookup
    ensures t in lookup ==> Entered(lookup, chain)[t] == lookup[t]
  {
    if chain != [] {
      OnceTail(chain);
      assert forall m :: 0 <= m < |chain| - 1 ==> chain[1..][m] == chain[m + 1];
      EnteredOther(lookup, chain[1..], t);
      assert t !in chain[0].txs;
      assert chain[0].txs[..|chain[0].txs|] == chain[0].txs;
      RecordedAt(Entered(lookup, chain[1..]), chain[0], |chain[0].txs|, t);
    }
  }

  lemma OnceTail(chain: seq<Header>)
    requires OnceIn(chain) && chain != []
    ensures OnceIn(chain[1..]) && forall j, j' :: 0 <= j < j' < |chain[0].txs| ==> chain[0].txs[j] != chain[0].txs[j']
  {
    var rest := chain[1..];
    forall m, j, m', j' | 0 <= m < |rest| && 0 <= m' < |rest| && 0 <= j < |rest[m].txs| && 0 <= j' < |rest[m'].txs|
      && rest[m].txs[j] == rest[m'].txs[j'] ensures m == m' && j == j'
    {
      assert chain[m + 1].txs[j] == chain[m' + 1].txs[j'];
    }
    forall j, j' | 0 <= j < j' < |chain[0].txs| ensures chain[0].txs[j] != chain[0].txs[j'] { }
  }

  lemma {:induction false} EnteredAt(lookup: Lookup, chain: seq<Header>, m: nat, j: nat)
    requires OnceIn(chain) && m < |chain| && j < |chain[m].txs|
    ensures var t := chain[m].txs[j]; t in Entered(lookup, chain) && Entered(lookup, chain)[t] == Entry(chain[m].hash, chain[m].number, j)
  {
    OnceTail(chain);
    var b, t := chain[0], chain[m].txs[j];
    RecordedAt(Entered(lookup, chain[1..]), b, |b.txs|, t);
    if m > 0 {
      EnteredAt(lookup, chain[1..], m - 1, j);
      assert t !in b.txs;
      assert b.txs[..|b.txs|] == b.txs;
    }
  }

  // ----- a reorganisation -----

  /** The blocks walked down from the old head are those of the index. */
  lemma {:induction false} DownIsSpine(hs: Headers, canon: Index, genesis: Header, head: Header, chain: seq<Header>, cur: Header, i: nat)
    requires Spine(hs, canon, genesis, head) && Down(hs, chain, head, cur) && i <= |chain|
    ensures head.number - i in canon && canon[head.number - i] == (if i < |chain| then chain[i] else cur).hash
  {
    if i > 0 {
      DownIsSpine(hs, canon, genesis, head, chain, cur, i - 1);
      assert DownAt(hs, chain, head, cur, i - 1);
      assert LinkAt(hs, canon, head.number - (i - 1));
    }
  }

  /** Above the branching point, occurring on a chain is occurring in the blocks walked. */
  lemma BlocksOf(hs: Headers, canon: Index, chain: seq<Header>, x: Header, cur: Header, i: nat, j: nat, t: TxHash)
    requires Down(hs, chain, x, cur) && cur.number < i <= x.number
    requires i in canon && canon[i] == chain[x.number - i].hash
    ensures Occurs(hs, canon, x.number, i, j, t) <==> j < |chain[x.number - i].txs| && chain[x.number - i].txs[j] == t
    ensures chain[x.number - i].number == i
  {
    assert DownAt(hs, chain, x, cur, x.number - i);
  }

  /** The places of the blocks of a chain in an index. */
  ghost predicate Holds(canon: Index, chain: seq<Header>, x: Header) {
    |chain| <= x.number + 1 && forall m :: 0 <= m < |chain| ==> HoldsAt(canon, chain, x, m)
  }

  ghost predicate HoldsAt(canon: Index, chain: seq<Header>, x: Header, m: nat)
    requires m < |chain| <= x.number + 1
  {
    x.number - m in canon && canon[x.number - m] == chain[m].hash
  }

  lemma NewHolds(hs: Headers, canon: Index, chain: seq<Header>, x: Header, cur: Header)
    requires Down(hs, chain, x, cur)
    ensures Holds(Placed(canon, chain), chain, x)
    ensures forall i: nat :: i <= cur.number ==> (i in Placed(canon, chain) <==> i in canon) && (i in canon ==> Placed(canon, chain)[i] == canon[i])
  {
    DownNumbers(hs, chain, x, cur);
    forall m | 0 <= m < |chain| ensures HoldsAt(Placed(canon, chain), chain, x, m) { PlacedAt(canon, chain, x.number, x.number - m); }
    forall i: nat | i <= cur.number
      ensures (i in Placed(canon, chain) <==> i in canon) && (i in canon ==> Placed(canon, chain)[i] == canon[i])
    {
      PlacedAt(canon, chain, x.number, i);
    }
  }

  lemma OldHolds(hs: Headers, canon: Index, genesis: Header, head: Header, chain: seq<Header>, cur: Header)
    requires Spine(hs, canon, genesis, head) && Down(hs, chain, head, cur)
    ensures Holds(canon, chain, head)
  {
    forall m | 0 <= m < |chain| ensures HoldsAt(canon, chain, head, m) { DownIsSpine(hs, canon, genesis, head, chain, cur, m); }
  }

  /** A transaction of the blocks walked occurs above the branching point, and back. */
  lemma InBlocksOccurs(hs: Headers, canon: Index, chain: seq<Header>, x: Header, cur: Header, m: nat, j: nat)
    requires Down(hs, chain, x, cur) && Holds(canon, chain, x) && m < |chain| && j < |chain[m].txs|
    ensures cur.number < x.number - m && Occurs(hs, canon, x.number, x.number - m, j, chain[m].txs[j])
  {
    assert HoldsAt(canon, chain, x, m);
    BlocksOf(hs, canon, chain, x, cur, x.number - m, j, chain[m].txs[j]);
  }

  lemma OccursInBlocks(hs: Headers, canon: Index, chain: seq<Header>, x: Header, cur: Header, i: nat, j: nat, t: TxHash)
    requires Down(hs, chain, x, cur) && Holds(canon, chain, x) && cur.number < i && Occurs(hs, canon, x.number, i, j, t)
    ensures i <= x.number && x.number - i < |chain| && j < |chain[x.number - i].txs| && chain[x.number - i].txs[j] == t
    ensures chain[x.number - i].number == i && canon[i] == chain[x.number - i].hash && InBlocks(chain, t)
  {
    assert HoldsAt(canon, chain, x, x.number - i);
    BlocksOf(hs, canon, chain, x, cur, i, j, t);
  }

  lemma BlocksOnce(hs: Headers, canon: Index, chain: seq<Header>, x: Header, cur: Header)
    requires Down(hs, chain, x, cur) && Holds(canon, chain, x) && Once(hs, canon, x.number)
    ensures OnceIn(chain)
  {
    forall m, j, m', j' | 0 <= m < |chain| && 0 <= m' < |chain| && 0 <= j < |chain[m].txs| && 0 <= j' < |chain[m'].txs|
      && chain[m].txs[j] == chain[m'].txs[j'] ensures m == m' && j == j'
    {
      InBlocksOccurs(hs, canon, chain, x, cur, m, j);
      InBlocksOccurs(hs, canon, chain, x, cur, m', j');
    }
  }

  /** Two chains that part at `cur`: the old one is the index, the new one is written. */
  ghost predicate Parts(hs: Headers, canon: Index, genesis: Header, head: Header, x: Header, cur: Header,
                        oldChain: seq<Header>, newChain: seq<Header>) {
    && Spine(hs, canon, genesis, head) && Down(hs, oldChain, head, cur) && Down(hs, newChain, x, cur)
    && Once(hs, Placed(canon, newChain), x.number)
  }

  /** What is dropped: the transactions of the old blocks that the new ones lack. */
  ghost predicate Dropped(oldChain: seq<Header>, newChain: seq<Header>, gone: set<TxHash>) {
    forall t :: t in gone <==> InBlocks(oldChain, t) && !InBlocks(newChain, t)
  }

  lemma KeptIsFound(hs: Headers, canon: Index, genesis: Header, head: Header, x: Header, cur: Header, oldChain: seq<Header>,
                    newChain: seq<Header>, lookup: Lookup, gone: set<TxHash>, t: TxHash)
    requires Parts(hs, canon, genesis, head, x, cur, oldChain, newChain) && Exact(hs, canon, head.number, lookup)
    requires Dropped(oldChain, newChain, gone) && t in Entered(lookup, newChain) && t !in gone
    ensures Found(hs, Placed(canon, newChain), x.number, t)
  {
    NewHolds(hs, canon, newChain, x, cur);
    var canon' := Placed(canon, newChain);
    BlocksOnce(hs, canon', newChain, x, cur);
    if InBlocks(newChain, t) {
      var m :| 0 <= m < |newChain| && t in newChain[m].txs;
      var j :| 0 <= j < |newChain[m].txs| && newChain[m].txs[j] == t;
      InBlocksOccurs(hs, canon', newChain, x, cur, m, j);
    } else {
      EnteredOther(lookup, newChain, t);
      var i: nat, j: nat :| Occurs(hs, canon, head.number, i, j, t);
      if i > cur.number {
        OldHolds(hs, canon, genesis, head, oldChain, cur);
        OccursInBlocks(hs, canon, oldChain, head, cur, i, j, t);
      }
      assert Occurs(hs, canon', x.number, i, j, t);
    }
  }

  lemma OccursIsKept(hs: Headers, canon: Index, genesis: Header, head: Header, x: Header, cur: Header, oldChain: seq<Header>,
                     newChain: seq<Header>, lookup: Lookup, gone: set<TxHash>, i: nat, j: nat, t: TxHash)
    requires Parts(hs, canon, genesis, head, x, cur, oldChain, newChain) && Exact(hs, canon, head.number, lookup)
    requires Dropped(oldChain, newChain, gone) && Occurs(hs, Placed(canon, newChain), x.number, i, j, t)
    ensures t in Entered(lookup, newChain) && t !in gone && Entered(lookup, newChain)[t] == Entry(Placed(canon, newChain)[i], i, j)
  {
    NewHolds(hs, canon, newChain, x, cur);
    var canon' := Placed(canon, newChain);
    BlocksOnce(hs, canon', newChain, x, cur);
    if i > cur.number {
      OccursInBlocks(hs, canon', newChain, x, cur, i, j, t);
      EnteredAt(lookup, newChain, x.number - i, j);
    } else {
      assert Occurs(hs, canon, head.number, i, j, t);
      OnlyBelow(hs, canon', newChain, x, cur, i, j, t);
      EnteredOther(lookup, newChain, t);
      OldHolds(hs, canon, genesis, head, oldChain, cur);
      ExactOnce(hs, canon, head.number, lookup);
      OnlyBelow(hs, canon, oldChain, head, cur, i, j, t);
    }
  }

  lemma ExactOnce(hs: Headers, canon: Index, n: nat, lookup: Lookup)
    requires Exact(hs, canon, n, lookup)
    ensures Once(hs, canon, n)
  {
  }

  /** What occurs at or below the branching point is in none of the blocks above it. */
  lemma OnlyBelow(hs: Headers, canon: Index, chain: seq<Header>, x: Header, cur: Header, i: nat, j: nat, t: TxHash)
    requires Down(hs, chain, x, cur) && Holds(canon, chain, x) && Once(hs, canon, x.number)
    requires i <= cur.number && Occurs(hs, canon, x.number, i, j, t)
    ensures !InBlocks(chain, t)
  {
    forall m, j' | 0 <= m < |chain| && 0 <= j' < |chain[m].txs| ensures chain[m].txs[j'] != t {
      InBlocksOccurs(hs, canon, chain, x, cur, m, j');
    }
  }

  /** Reorganising: the lookup of the old chain becomes that of the new one. */
  lemma ExactAfter(hs: Headers, canon: Index, genesis: Header, head: Header, x: Header, cur: Header, oldChain: seq<Header>,
                   newChain: seq<Header>, lookup: Lookup, gone: set<TxHash>)
    requires Parts(hs, canon, genesis, head, x, cur, oldChain, newChain) && Exact(hs, canon, head.number, lookup)
    requires Dropped(oldChain, newChain, gone)
    ensures Exact(hs, Placed(canon, newChain), x.number, Entered(lookup, newChain) - gone)
  {
    var canon', lookup' := Placed(canon, newChain), Entered(lookup, newChain) - gone;
    forall t | t in lookup' ensures Found(hs, canon', x.number, t) {
      KeptIsFound(hs, canon, genesis, head, x, cur, oldChain, newChain, lookup, gone, t);
    }
    forall i: nat, j: nat, t | Occurs(hs, canon', x.number, i, j, t) ensures t in lookup' && lookup'[t] == Entry(canon'[i], i, j) {
      OccursIsKept(hs, canon, genesis, head, x, cur, oldChain, newChain, lookup, gone, i, j, t);
    }
  }
}
