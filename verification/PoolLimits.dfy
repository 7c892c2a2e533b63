/** Counting transactions across accounts, for the pool's global limits. */
module PoolLimits {
  import Counting
  import opened Heap
  import opened TxList
  import opened PoolState

  function Len(ls: Lists, a: Address): nat { |At(ls, a)| }

  function Sizes(ls: Lists): map<nat, nat> { map a | a in ls :: |ls[a]| }

  ghost function Total(ls: Lists): nat { Counting.Total(Sizes(ls)) }

  lemma TotalWithout(ls: Lists, a: Address)
    requires a in ls
    ensures Total(ls) == |ls[a]| + Total(ls - {a})
  {
    Counting.TotalWithout(Sizes(ls), a);
    assert Sizes(ls - {a}) == Sizes(ls) - {a};
  }

  lemma TotalSet(ls: Lists, a: Address, m: TxMap)
    ensures Total(Set(ls, a, m)) + Len(ls, a) == Total(ls) + |m|
  {
    SetThenRemove(ls, a, m);
    if a in ls { TotalWithout(ls, a); } else { NoRemove(ls, a); }
    if m != map[] { TotalWithout(Set(ls, a, m), a); }
  }

  lemma NoRemove(ls: Lists, a: Address)
    requires a !in ls
    ensures ls - {a} == ls
  {
  }

  lemma SetThenRemove(ls: Lists, a: Address, m: TxMap)
    ensures Set(ls, a, m) - {a} == ls - {a}
    ensures m != map[] ==> a in Set(ls, a, m) && Set(ls, a, m)[a] == m
    ensures m == map[] ==> Set(ls, a, m) == ls - {a}
  {
  }

  /** The loop that adds up list lengths. */
  method Count(ls: Lists) returns (n: nat)
    ensures n == Total(ls)
  {
    n := 0;
    var todo := ls;
    while todo != map[]
      invariant n + Total(todo) == Total(ls)
      decreases |todo|
    {
      var a :| a in todo;
      TotalWithout(todo, a);
      Counting.Shrinks(todo, a);
      n := n + |todo[a]|;
      todo := todo - {a};
    }
  }

  // ----- a spanning list loses its top -----

  lemma SpanSize(m: TxMap, lo: nat, hi: nat)
    requires Spans(m, lo, hi)
    ensures |m| == hi - lo
  {
    Counting.IntervalSize(m.Keys, lo, hi);
    assert |m.Keys| == |m|;
  }

  lemma SpanRank(m: TxMap, lo: nat, hi: nat, n: nat)
    requires Spans(m, lo, hi) && n in m
    ensures |Below(m, n)| == n - lo
  {
    Counting.IntervalSize(Below(m, n), lo, n);
  }

  lemma SpanTop(m: TxMap, lo: nat, hi: nat)
    requires Spans(m, lo, hi) && m != map[]
    ensures |m| == hi - lo > 0 && hi - 1 in m
    ensures Lowest(m, |m| - 1) == Front(m, hi - 1) && |Front(m, hi - 1)| == |m| - 1
    ensures Spans(Front(m, hi - 1), lo, hi - 1)
  {
    SpanSize(m, lo, hi);
    SpanSize(Front(m, hi - 1), lo, hi - 1);
    forall n | n in m ensures |Below(m, n)| < |m| - 1 <==> n < hi - 1 { SpanRank(m, lo, hi, n); }
  }

  lemma SpanDrop(m: TxMap, lo: nat, hi: nat)
    requires Spans(m, lo, hi) && lo < hi
    ensures PartOf(Front(m, hi - 1), m) && hi - 1 in Minus(m, Front(m, hi - 1))
  {
  }

  lemma OnlyTop(m: TxMap, lo: nat, hi: nat, n: nat)
    requires Spans(m, lo, hi) && lo < hi && n in Minus(m, Front(m, hi - 1))
    ensures n == hi - 1
  {
  }

  /** Dropping pending transactions from list and lookup alike. */
  lemma AccountDropPending(p: TxMap, q: TxMap, all: set<Tx>, a: Address, p': TxMap)
    requires AccountOk(p, q, all, a) && PartOf(p', p)
    ensures Values(Minus(p, p')) <= all
    ensures AccountOk(p', q, all - Values(Minus(p, p')), a)
    ensures SameElsewhere(all, all - Values(Minus(p, p')), a)
  {
    AccountFlip(p, q, all, a);
    AccountDrop(q, p, all, a, p');
    AccountFlip(q, p', all - Values(Minus(p, p')), a);
  }

  lemma AccountFlip(p: TxMap, q: TxMap, all: set<Tx>, a: Address)
    requires AccountOk(p, q, all, a)
    ensures AccountOk(q, p, all, a)
  {
  }

  // ----- groups of accounts at one level -----

  ghost predicate Level(ls: Lists, group: seq<Address>, k: nat) {
    forall i :: 0 <= i < |group| ==> Len(ls, group[i]) == k
  }

  ghost predicate Distinct(group: seq<Address>) {
    forall i, j :: 0 <= i < j < |group| ==> group[i] != group[j]
  }

  /** Only accounts of the group changed. */
  ghost predicate OnlyGroup(ls: Lists, ls': Lists, group: seq<Address>) {
    forall a :: a !in group ==> At(ls', a) == At(ls, a)
  }

  /** Members up to `i` are one below the level, the others still at it. */
  ghost predicate HalfLowered(ls: Lists, group: seq<Address>, i: nat, k: nat) {
    forall j :: 0 <= j < |group| ==> Len(ls, group[j]) == if j < i then k - 1 else k
  }

  lemma LowerOne(ls: Lists, ls': Lists, group: seq<Address>, i: nat, k: nat, m: TxMap)
    requires Distinct(group) && i < |group| && k > 0 && HalfLowered(ls, group, i, k)
    requires ls' == Set(ls, group[i], m) && |m| == k - 1
    ensures HalfLowered(ls', group, i + 1, k)
    ensures Total(ls') == Total(ls) - 1
    ensures forall base :: OnlyGroup(base, ls, group) ==> OnlyGroup(base, ls', group)
  {
    forall j | 0 <= j < |group| ensures Len(ls', group[j]) == if j < i + 1 then k - 1 else k {
      SetAt(ls, group[i], m, group[j]);
    }
    TotalSet(ls, group[i], m);
    forall a ensures At(ls', a) == if a == group[i] then m else At(ls, a) { SetAt(ls, group[i], m, a); }
  }

  lemma HalfEnds(ls: Lists, group: seq<Address>, k: nat)
    ensures HalfLowered(ls, group, 0, k) <==> Level(ls, group, k)
    ensures k > 0 && HalfLowered(ls, group, |group|, k) ==> Level(ls, group, k - 1)
  {
  }

  /** What a round of lowering keeps: the group is level, nobody else moved. */
  ghost predicate Lowered(base: Lists, ls: Lists, group: seq<Address>, k: nat, floor: nat) {
    Level(ls, group, k) && OnlyGroup(base, ls, group) && k >= floor
  }

  lemma LevelAt(ls: Lists, group: seq<Address>, k: nat, i: nat)
    requires Level(ls, group, k) && i < |group|
    ensures Len(ls, group[i]) == k
  {
  }

  lemma SameGroup(ls: Lists, group: seq<Address>)
    ensures OnlyGroup(ls, ls, group)
  {
  }

  lemma OnlyGroupTrans(a: Lists, b: Lists, c: Lists, group: seq<Address>)
    requires OnlyGroup(a, b, group) && OnlyGroup(b, c, group)
    ensures OnlyGroup(a, c, group)
  {
  }

  // ----- spammers and offenders -----

  /** The priority queue of heavy senders, as a map from sender to list length. */
  ghost predicate Heavy(ls: Lists, spammers: map<Address, nat>, locals: set<Address>, slots: nat) {
    forall a :: a in spammers ==> a !in locals && spammers[a] == Len(ls, a) > slots
  }

  /** Every heavy non-local sender is queued as a spammer or already an offender. */
  ghost predicate Covered(ls: Lists, spammers: map<Address, nat>, offenders: seq<Address>, locals: set<Address>, slots: nat) {
    forall a :: a !in locals && Len(ls, a) > slots ==> a in spammers || a in offenders
  }

  ghost predicate Offending(ls: Lists, base: Lists, spammers: map<Address, nat>, offenders: seq<Address>,
                            locals: set<Address>, slots: nat) {
    && Distinct(offenders)
    && (forall i :: 0 <= i < |offenders| ==>
          offenders[i] !in spammers && offenders[i] !in locals && slots <= Len(ls, offenders[i]) <= Len(base, offenders[i]))
    && OnlyGroup(base, ls, offenders)
  }

  /** While the limit is exceeded, the offenders are level, above everyone still queued. */
  ghost predicate LevelAbove(ls: Lists, spammers: map<Address, nat>, offenders: seq<Address>, k: nat, slots: nat) {
    Level(ls, offenders, k) && k > slots && forall a :: a in spammers ==> spammers[a] <= k
  }

  /** heap.Pop of the priority queue: a heaviest sender. */
  method PopHeaviest(spammers: map<Address, nat>) returns (a: Address)
    requires spammers != map[]
    ensures a in spammers && forall b :: b in spammers ==> spammers[b] <= spammers[a]
  {
    a :| a in spammers;
    var todo := spammers.Keys - {a};
    while todo != {}
      invariant todo <= spammers.Keys && a in spammers
      invariant forall b :: b in spammers && b !in todo ==> spammers[b] <= spammers[a]
      decreases todo
    {
      var b :| b in todo;
      todo := todo - {b};
      if spammers[b] > spammers[a] {
        a := b;
      }
    }
  }

  /** Collect the non-local accounts above their allowance. */
  method Spammers(pending: Lists, locals: set<Address>, slots: nat) returns (spammers: map<Address, nat>)
    ensures Heavy(pending, spammers, locals, slots) && Covered(pending, spammers, [], locals, slots)
  {
    spammers := map a | a in pending && a !in locals && |pending[a]| > slots :: |pending[a]|;
  }

  lemma NewOffender(ls: Lists, base: Lists, spammers: map<Address, nat>, offenders: seq<Address>, a: Address,
                    locals: set<Address>, slots: nat)
    requires Heavy(ls, spammers, locals, slots) && Covered(ls, spammers, offenders, locals, slots)
    requires Offending(ls, base, spammers, offenders, locals, slots) && a in spammers
    ensures Heavy(ls, spammers - {a}, locals, slots) && Covered(ls, spammers - {a}, offenders + [a], locals, slots)
    ensures Offending(ls, base, spammers - {a}, offenders + [a], locals, slots)
    ensures a !in offenders && Len(ls, a) == spammers[a] > slots
  {
    assert a !in offenders;
    assert At(base, a) == At(ls, a);
  }

  /** Lowering the earlier offenders to the newcomer's level. */
  lemma AfterLowering(ls: Lists, ls': Lists, base: Lists, spammers: map<Address, nat>, group: seq<Address>, a: Address,
                      k: nat, k': nat, locals: set<Address>, slots: nat)
    requires Heavy(ls, spammers, locals, slots) && Covered(ls, spammers, group + [a], locals, slots)
    requires Offending(ls, base, spammers, group + [a], locals, slots) && a !in group
    requires Level(ls, group, k) && Lowered(ls, ls', group, k', Len(ls, a)) && k' <= k && Len(ls, a) > slots
    ensures Heavy(ls', spammers, locals, slots) && Covered(ls', spammers, group + [a], locals, slots)
    ensures Offending(ls', base, spammers, group + [a], locals, slots)
    ensures k' == Len(ls, a) ==> Level(ls', group + [a], k')
  {
    var all := group + [a];
    assert At(ls', a) == At(ls, a);
    forall i | 0 <= i < |all| ensures slots <= Len(ls', all[i]) <= Len(base, all[i]) {
      if i < |group| { assert all[i] == group[i]; }
    }
    forall b | b !in all ensures At(ls', b) == At(base, b) { assert b !in group; }
    forall b | b in spammers ensures At(ls', b) == At(ls, b) { NotInGroup(spammers, group, a, b, ls, base, locals, slots); }
    forall b | b !in locals && Len(ls', b) > slots ensures b in spammers || b in all {
      if b !in all { assert b !in group; assert At(ls', b) == At(ls, b); }
    }
  }

  lemma NotInGroup(spammers: map<Address, nat>, group: seq<Address>, a: Address, b: Address, ls: Lists, base: Lists,
                   locals: set<Address>, slots: nat)
    requires Offending(ls, base, spammers, group + [a], locals, slots) && b in spammers
    ensures b !in group
  {
    assert forall i :: 0 <= i < |group| ==> group[i] == (group + [a])[i];
  }

  /** Whoever lost something has as many left as any non-local account. */
  ghost predicate Fairest(base: Lists, ls: Lists, locals: set<Address>) {
    forall a, b :: At(ls, a) != At(base, a) && b !in locals ==> Len(ls, b) <= Len(ls, a)
  }

  lemma FairestSelf(base: Lists, locals: set<Address>)
    ensures Fairest(base, base, locals) && CutFrom(base, base) == {}
  {
  }

  /** The accounts that lost something. */
  ghost function CutFrom(base: Lists, ls: Lists): set<Address> { set a | a in base && At(ls, a) != At(base, a) }

  /** Lowered to a newcomer's level or until the limit was met, the earlier offenders are
      level and nobody is above them. */
  lemma FairestAfter(ls: Lists, ls': Lists, base: Lists, heavy: map<Address, nat>, group: seq<Address>, a: Address, k': nat,
                     locals: set<Address>, slots: nat)
    requires Heavy(ls, heavy, locals, slots) && Covered(ls, heavy, group, locals, slots) && Offending(ls, base, heavy, group, locals, slots)
    requires a in heavy && (forall b :: b in heavy ==> heavy[b] <= heavy[a]) && Lowered(ls, ls', group, k', Len(ls, a))
    ensures Fairest(base, ls', locals)
  {
    forall b | b !in locals ensures Len(ls', b) <= k' {
      if b !in group { assert At(ls', b) == At(ls, b); }
    }
    forall b | b !in group ensures At(ls', b) == At(base, b) { assert At(ls', b) == At(ls, b); }
  }

  /** The last round started above the limit, and took one from each of the group. */
  lemma CutAfter(ls: Lists, ls': Lists, base: Lists, heavy: map<Address, nat>, group: seq<Address>, k: nat, k': nat, left: nat,
                 floor: nat, limit: nat, locals: set<Address>, slots: nat)
    requires Offending(ls, base, heavy, group, locals, slots) && Level(ls, group, k) && Lowered(ls, ls', group, k', floor) && k' <= k
    requires if k' < k then left + |group| > limit else left > limit
    ensures left + |CutFrom(base, ls')| > limit
  {
    if k' < k {
      var cut := CutFrom(base, ls');
      forall i | 0 <= i < |group| ensures group[i] in cut { assert Len(ls', group[i]) < Len(base, group[i]); }
      DistinctFits(group, cut);
    }
  }

  lemma {:induction false} DistinctFits(group: seq<Address>, s: set<Address>)
    requires Distinct(group) && forall i :: 0 <= i < |group| ==> group[i] in s
    ensures |group| <= |s|
  {
    if group != [] {
      var n := |group| - 1;
      DistinctFits(group[..n], s - {group[n]});
    }
  }

  // ----- the queue limit -----

  method HighestNonce(m: TxMap) returns (n: nat)
    requires m != map[]
    ensures n in m && forall k :: k in m ==> k <= n
  {
    n :| n in m;
    var todo := m.Keys - {n};
    while todo != {}
      invariant todo <= m.Keys && n in m && forall k :: k in m && k !in todo ==> k <= n
      decreases todo
    {
      var k :| k in todo;
      todo := todo - {k};
      if k > n {
        n := k;
      }
    }
  }

  function Beat(beats: map<Address, nat>, a: Address): Key { (if a in beats then beats[a] else 0, 0) }

  /** The non-local accounts with queued transactions. */
  ghost predicate Evictable(queue: Lists, addresses: seq<Address>, locals: set<Address>) {
    && Distinct(addresses)
    && (forall i :: 0 <= i < |addresses| ==> addresses[i] in queue)
    && (forall a :: a in queue && a !in locals ==> a in addresses)
  }

  /** Earlier heartbeats first. */
  ghost predicate Heartbeats(beats: map<Address, nat>, order: seq<Address>) {
    forall i, j :: 0 <= i < j < |order| ==> Beat(beats, order[i]).0 <= Beat(beats, order[j]).0
  }

  /** Collect them and sort by heartbeat. */
  method ByHeartbeat(queue: Lists, beats: map<Address, nat>, locals: set<Address>) returns (addresses: seq<Address>)
    ensures Evictable(queue, addresses, locals) && Heartbeats(beats, addresses) && forall a :: a in addresses ==> a !in locals
  {
    var whole := set a | a in queue && a !in locals;
    var listed := Listing(whole);
    var key := (a: Address) => Beat(beats, a);
    addresses := Sort(key, listed);
    OnceEach(addresses, whole);
    forall i, j | 0 <= i < j < |addresses| ensures Beat(beats, addresses[i]).0 <= Beat(beats, addresses[j]).0 {
      assert KeyLe(key(addresses[i]), key(addresses[j]));
    }
  }

  lemma OnceEach(s: seq<Address>, whole: set<Address>)
    requires multiset(s) == multiset(whole)
    ensures Distinct(s) && (forall i :: 0 <= i < |s| ==> s[i] in whole) && forall a :: a in whole ==> a in s
  {
    forall i | 0 <= i < |s| ensures s[i] in whole { assert s[i] in multiset(s); }
    forall a | a in whole ensures a in s { assert a in multiset(s); }
    forall i, j | 0 <= i < j < |s| ensures s[i] != s[j] {
      if s[i] == s[j] {
        TwiceIn(s, i, j);
        assert false;
      }
    }
  }

  /** The last account leaves the list once its queue is gone. */
  lemma EvictedLast(queue: Lists, addresses: seq<Address>, locals: set<Address>)
    requires Evictable(queue, addresses, locals) && addresses != []
    ensures var k := |addresses| - 1;
      addresses[k] in queue && Evictable(queue - {addresses[k]}, addresses[..k], locals)
  {
    var k := |addresses| - 1;
    forall a | a in queue - {addresses[k]} && a !in locals ensures a in addresses[..k] {
      var i :| 0 <= i < |addresses| && addresses[i] == a;
      assert addresses[..k][i] == a;
    }
  }

  /** Down to index `k` the accounts in `order` have been seen: the ones above it have
      nothing queued any more, nor has that at `k` unless it was to be the last, and
      nobody else lost anything. */
  ghost predicate Walked(order: seq<Address>, k: nat, base: Lists, queue: Lists, last: bool) {
    && k <= |order|
    && (forall b :: b !in order ==> At(queue, b) == At(base, b))
    && (forall j :: 0 <= j < k ==> At(queue, order[j]) == At(base, order[j]))
    && (forall j :: k < j < |order| ==> order[j] !in queue)
    && (!last && k < |order| ==> order[k] !in queue)
  }

  lemma WalkedNone(order: seq<Address>, base: Lists)
    ensures Walked(order, |order|, base, base, false)
  {
  }

  lemma WalkedOne(order: seq<Address>, k: nat, base: Lists, queue: Lists, m: TxMap, queue': Lists, last: bool)
    requires Walked(order, k, base, queue, false) && k > 0 && Distinct(order) && queue' == Set(queue, order[k - 1], m)
    requires !last ==> order[k - 1] !in queue'
    ensures Walked(order, k - 1, base, queue', last)
  {
    forall b ensures b != order[k - 1] ==> At(queue', b) == At(queue, b) && (b in queue' <==> b in queue) {
      SetAt(queue, order[k - 1], m, b);
    }
  }

  /** Whoever lost something was heard from no earlier than every account that kept
      something; locals lose nothing. */
  ghost predicate LatestFirst(base: Lists, queue: Lists, beats: map<Address, nat>, locals: set<Address>) {
    && (forall a :: a in locals ==> At(queue, a) == At(base, a))
    && forall a, b :: At(queue, a) != At(base, a) && b in queue && b !in locals ==>
         (if b in beats then beats[b] else 0) <= if a in beats then beats[a] else 0
  }

  lemma LatestFirstSelf(base: Lists, beats: map<Address, nat>, locals: set<Address>)
    ensures LatestFirst(base, base, beats, locals)
  {
  }

  lemma WalkedLatestFirst(order: seq<Address>, k: nat, base: Lists, queue: Lists, last: bool, beats: map<Address, nat>, locals: set<Address>)
    requires Walked(order, k, base, queue, last) && Heartbeats(beats, order) && Evictable(base, order, locals)
    requires (forall a :: a in order ==> a !in locals) && NoEmptyList(queue)
    ensures LatestFirst(base, queue, beats, locals)
  {
    forall a, b | At(queue, a) != At(base, a) && b in queue && b !in locals ensures Beat(beats, b).0 <= Beat(beats, a).0 {
      var i :| 0 <= i < |order| && order[i] == a;
      assert b in order by { assert b !in order ==> At(queue, b) == At(base, b); }
      var j :| 0 <= j < |order| && order[j] == b;
    }
  }

  lemma EvictableMeans(queue: Lists, addresses: seq<Address>, locals: set<Address>)
    requires Evictable(queue, addresses, locals)
    ensures Distinct(addresses)
  {
  }

  /** Queues only lost transactions. */
  ghost predicate Shrunk(queue: Lists, queue': Lists) { forall a :: PartOf(At(queue', a), At(queue, a)) }

  lemma ShrunkSelf(queue: Lists)
    ensures Shrunk(queue, queue)
  {
  }

  lemma ShrunkOne(base: Lists, queue: Lists, a: Address, m: TxMap)
    requires Shrunk(base, queue) && PartOf(m, At(queue, a))
    ensures Shrunk(base, Set(queue, a, m))
  {
    forall b ensures PartOf(At(Set(queue, a, m), b), At(base, b)) {
      SetAt(queue, a, m, b);
      if a == b { PartOfTrans(m, At(queue, a), At(base, a)); }
    }
  }

  lemma PartSize(part: TxMap, m: TxMap)
    requires PartOf(part, m)
    ensures |part| <= |m|
  {
    SubsetSize(part.Keys, m.Keys);
    assert |part.Keys| == |part| && |m.Keys| == |m|;
  }

  // ----- limits leave nothing executable queued -----

  /** A pending list that lost its top: the next nonce was pending, so it is not queued. */
  lemma DrainedCapped(queue0: Lists, nonces0: Nonces, queue: Lists, all: set<Tx>, pending: Lists, nonces: Nonces, pending': Lists,
                      nonces': Nonces, chain: Nonces, done: seq<Address>)
    requires DrainedMore(queue0, nonces0, queue, nonces, chain, done) && Partition(pending, queue, all)
    requires Executable(pending, nonces, chain) && Executable(pending', nonces', chain)
    requires forall a :: At(pending', a) != At(pending, a) ==> Len(pending', a) <= Len(pending, a)
    ensures DrainedMore(queue0, nonces0, queue, nonces', chain, done)
  {
    forall a | DrainedAt(queue, nonces, chain, a) ensures DrainedAt(queue, nonces', chain, a) {
      ExecutableOf(pending, nonces, chain, a);
      ExecutableOf(pending', nonces', chain, a);
      SpanSize(At(pending, a), ChainNonce(chain, a), PendingNonce(nonces, chain, a));
      SpanSize(At(pending', a), ChainNonce(chain, a), PendingNonce(nonces', chain, a));
      PartitionAt(pending, queue, all, a);
    }
  }

  lemma DrainedShrunk(queue0: Lists, nonces0: Nonces, queue: Lists, queue': Lists, nonces: Nonces, chain: Nonces, done: seq<Address>)
    requires DrainedMore(queue0, nonces0, queue, nonces, chain, done) && Shrunk(queue, queue')
    ensures DrainedMore(queue0, nonces0, queue', nonces, chain, done)
  {
    forall a | DrainedAt(queue, nonces, chain, a) ensures DrainedAt(queue', nonces, chain, a) {
      assert PartOf(At(queue', a), At(queue, a));
    }
  }
}
