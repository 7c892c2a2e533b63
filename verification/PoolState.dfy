/** What must agree inside the transaction pool of core/tx_pool.go, as predicates
    over the pool's lists, lookup and nonces, and the account-by-account lemmas that
    carry them through an operation.
 */
module PoolState {
  import opened TxList

  type Lists = map<Address, TxMap>
  type Nonces = map<Address, nat>

  /** An account without a list has an empty one. */
  function At(ls: Lists, a: Address): TxMap { if a in ls then ls[a] else map[] }

  /** Emptied lists are deleted from the pool. */
  function Set(ls: Lists, a: Address, m: TxMap): Lists { if m == map[] then ls - {a} else ls[a := m] }

  lemma SetAt(ls: Lists, a: Address, m: TxMap, b: Address)
    ensures At(Set(ls, a, m), b) == if a == b then m else At(ls, b)
  {
  }

  function With(m: TxMap, tx: Tx): TxMap { m[tx.nonce as nat := tx] }

  function Values(m: TxMap): set<Tx> { set n | n in m :: m[n] }

  predicate Holds(m: TxMap, tx: Tx) { tx.nonce in m && m[tx.nonce] == tx }

  ghost predicate Owned(m: TxMap, a: Address) { forall n :: n in m ==> m[n].from == a && m[n].nonce == n }

  // ----- the partition -----

  /** One account: pending and queued nonces are disjoint, and the lookup knows
      exactly the transactions in the two lists. */
  ghost predicate AccountOk(p: TxMap, q: TxMap, all: set<Tx>, a: Address) {
    && Owned(p, a) && Owned(q, a)
    && p.Keys !! q.Keys
    && (forall tx :: tx in all && tx.from == a ==> Holds(p, tx) || Holds(q, tx))
    && Values(p) <= all && Values(q) <= all
  }

  ghost predicate NoEmptyList(ls: Lists) { forall a :: a in ls ==> ls[a] != map[] }

  ghost predicate Partition(pending: Lists, queue: Lists, all: set<Tx>) {
    && NoEmptyList(pending) && NoEmptyList(queue)
    && (forall a :: AccountOk(At(pending, a), At(queue, a), all, a))
  }

  lemma PartitionAt(pending: Lists, queue: Lists, all: set<Tx>, a: Address)
    requires Partition(pending, queue, all)
    ensures AccountOk(At(pending, a), At(queue, a), all, a)
  {
  }

  /** The lookup changed for account `a` only. */
  ghost predicate SameElsewhere(all: set<Tx>, all': set<Tx>, a: Address) {
    forall tx: Tx :: tx.from != a ==> (tx in all <==> tx in all')
  }

  /** Replacing one account's lists by lists that are right for the new lookup. */
  lemma PartitionSet(pending: Lists, queue: Lists, all: set<Tx>, a: Address, p: TxMap, q: TxMap, all': set<Tx>)
    requires Partition(pending, queue, all) && AccountOk(p, q, all', a) && SameElsewhere(all, all', a)
    ensures Partition(Set(pending, a, p), Set(queue, a, q), all')
  {
    forall b ensures AccountOk(At(Set(pending, a, p), b), At(Set(queue, a, q), b), all', b) {
      SetAt(pending, a, p, b);
      SetAt(queue, a, q, b);
      if a != b { AccountElsewhere(At(pending, b), At(queue, b), all, all', a, b); }
    }
  }

  lemma AccountElsewhere(p: TxMap, q: TxMap, all: set<Tx>, all': set<Tx>, a: Address, b: Address)
    requires AccountOk(p, q, all, b) && SameElsewhere(all, all', a) && a != b
    ensures AccountOk(p, q, all', b)
  {
  }

  /** A transaction the lookup knows is pending or queued, never both. */
  lemma WhereIs(p: TxMap, q: TxMap, all: set<Tx>, tx: Tx)
    requires AccountOk(p, q, all, tx.from) && tx in all
    ensures tx.nonce in p ==> p[tx.nonce] == tx && tx.nonce !in q
    ensures tx.nonce !in p ==> tx.nonce in q && q[tx.nonce] == tx
  {
  }

  predicate SameSlot(t: Tx, tx: Tx) { t.from == tx.from && t.nonce == tx.nonce }

  /** The lookup knows one transaction at most for a sender and nonce. */
  lemma OnlyInSlot(p: TxMap, q: TxMap, all: set<Tx>, tx: Tx)
    requires AccountOk(p, q, all, tx.from)
    ensures forall t :: t in all && SameSlot(t, tx) ==>
      if tx.nonce in p then t == p[tx.nonce] else tx.nonce in q && t == q[tx.nonce]
    ensures tx.nonce in p ==> SameSlot(p[tx.nonce], tx)
    ensures tx.nonce in q ==> SameSlot(q[tx.nonce], tx)
    ensures SameSlot(tx, tx)
  {
  }

  // ----- the executable prefix -----

  function ChainNonce(chain: Nonces, a: Address): nat { if a in chain then chain[a] else 0 }

  /** ManagedState.GetNonce */
  function PendingNonce(nonces: Nonces, chain: Nonces, a: Address): nat {
    if a in nonces then nonces[a] else ChainNonce(chain, a)
  }

  /** Exactly the nonces from `lo` up to, not including, `hi`. */
  ghost predicate Spans(m: TxMap, lo: nat, hi: nat) {
    lo <= hi && forall n :: n in m <==> lo <= n < hi
  }

  ghost predicate ExecutableAt(pending: Lists, nonces: Nonces, chain: Nonces, a: Address) {
    Spans(At(pending, a), ChainNonce(chain, a), PendingNonce(nonces, chain, a))
  }

  ghost predicate Executable(pending: Lists, nonces: Nonces, chain: Nonces) {
    forall a :: ExecutableAt(pending, nonces, chain, a)
  }

  lemma ExecutableOf(pending: Lists, nonces: Nonces, chain: Nonces, a: Address)
    requires Executable(pending, nonces, chain)
    ensures Spans(At(pending, a), ChainNonce(chain, a), PendingNonce(nonces, chain, a))
  {
    assert ExecutableAt(pending, nonces, chain, a);
  }

  /** Virtual nonces here have no bound, the code's have 64 bits: the two agree exactly
      while no pending nonce is the last there is. With that one pending the code's
      virtual nonce is zero. */
  lemma NonceWraps(pending: Lists, nonces: Nonces, chain: Nonces, a: Address)
    requires Executable(pending, nonces, chain) && Owned(At(pending, a), a) && ChainNonce(chain, a) <= MAX_UINT64
    ensures var next := PendingNonce(nonces, chain, a);
      && (next % (MAX_UINT64 + 1) == next <==> MAX_UINT64 !in At(pending, a))
      && (MAX_UINT64 in At(pending, a) ==> next % (MAX_UINT64 + 1) == 0)
  {
    ExecutableOf(pending, nonces, chain, a);
    var lo, next, m := ChainNonce(chain, a), PendingNonce(nonces, chain, a), At(pending, a);
    assert next > MAX_UINT64 + 1 ==> MAX_UINT64 + 1 in m;
    assert forall n :: n in m ==> m[n].nonce <= MAX_UINT64;
  }

  lemma ExecutableSet(pending: Lists, nonces: Nonces, chain: Nonces, a: Address, p: TxMap, hi: nat, nonces': Nonces)
    requires Executable(pending, nonces, chain) && Spans(p, ChainNonce(chain, a), hi)
    requires PendingNonce(nonces', chain, a) == hi
    requires forall b :: b != a ==> PendingNonce(nonces', chain, b) == PendingNonce(nonces, chain, b)
    ensures Executable(Set(pending, a, p), nonces', chain)
  {
    forall b ensures ExecutableAt(Set(pending, a, p), nonces', chain, b) {
      SetAt(pending, a, p, b);
      if b != a { assert ExecutableAt(pending, nonces, chain, b); }
    }
  }

  // ----- nothing executable waits -----

  /** The next nonce of the account is not sitting in its queue. */
  predicate DrainedAt(queue: Lists, nonces: Nonces, chain: Nonces, a: Address) {
    PendingNonce(nonces, chain, a) !in At(queue, a)
  }

  ghost predicate Drained(queue: Lists, nonces: Nonces, chain: Nonces) {
    forall a :: DrainedAt(queue, nonces, chain, a)
  }

  /** Accounts that were drained still are, and so are those dealt with. */
  ghost predicate DrainedMore(queue: Lists, nonces: Nonces, queue': Lists, nonces': Nonces, chain: Nonces, done: seq<Address>) {
    forall a :: a in done || DrainedAt(queue, nonces, chain, a) ==> DrainedAt(queue', nonces', chain, a)
  }

  lemma DrainedSame(queue: Lists, nonces: Nonces, chain: Nonces)
    ensures DrainedMore(queue, nonces, queue, nonces, chain, [])
  {
  }

  lemma DrainedNext(queue: Lists, nonces: Nonces, queue1: Lists, nonces1: Nonces, queue2: Lists, nonces2: Nonces, chain: Nonces,
                    done: seq<Address>, a: Address)
    requires DrainedMore(queue, nonces, queue1, nonces1, chain, done)
    requires forall b :: b != a ==> At(queue2, b) == At(queue1, b) && PendingNonce(nonces2, chain, b) == PendingNonce(nonces1, chain, b)
    requires PendingNonce(nonces2, chain, a) !in At(queue2, a)
    ensures DrainedMore(queue, nonces, queue2, nonces2, chain, done + [a])
  {
    forall b | b in done + [a] || DrainedAt(queue, nonces, chain, b) ensures DrainedAt(queue2, nonces2, chain, b) {
      if b != a { assert DrainedAt(queue1, nonces1, chain, b); }
    }
  }

  /** All queued accounts dealt with, nothing executable is left. */
  lemma DrainedAll(queue: Lists, nonces: Nonces, queue': Lists, nonces': Nonces, chain: Nonces, done: seq<Address>)
    requires DrainedMore(queue, nonces, queue', nonces', chain, done) && multiset(done) == multiset(queue.Keys)
    ensures Drained(queue', nonces', chain)
  {
    forall a ensures DrainedAt(queue', nonces', chain, a) {
      if a in queue {
        assert a in multiset(queue.Keys);
        assert a in done;
      } else {
        assert DrainedAt(queue, nonces, chain, a);
      }
    }
  }

  /** Drained but for one account. */
  ghost predicate DrainedBut(queue: Lists, nonces: Nonces, chain: Nonces, a: Address) {
    forall b :: b != a ==> DrainedAt(queue, nonces, chain, b)
  }

  lemma DrainedWith(queue: Lists, nonces: Nonces, chain: Nonces, tx: Tx)
    requires Drained(queue, nonces, chain)
    ensures DrainedBut(Set(queue, tx.from, With(At(queue, tx.from), tx)), nonces, chain, tx.from)
    ensures tx.nonce in At(queue, tx.from) ==> Drained(Set(queue, tx.from, With(At(queue, tx.from), tx)), nonces, chain)
  {
    var queue' := Set(queue, tx.from, With(At(queue, tx.from), tx));
    forall b | b != tx.from || tx.nonce in At(queue, tx.from) ensures DrainedAt(queue', nonces, chain, b) {
      assert DrainedAt(queue, nonces, chain, b);
      SetAt(queue, tx.from, With(At(queue, tx.from), tx), b);
    }
  }

  lemma DrainedAgain(queue: Lists, nonces: Nonces, queue': Lists, nonces': Nonces, chain: Nonces, a: Address)
    requires DrainedBut(queue, nonces, chain, a) && DrainedMore(queue, nonces, queue', nonces', chain, [a])
    ensures Drained(queue', nonces', chain)
  {
    forall b ensures DrainedAt(queue', nonces', chain, b) {
      if b == a { assert b in [a]; } else { assert DrainedAt(queue, nonces, chain, b); }
    }
  }

  lemma DrainedLess(queue: Lists, nonces: Nonces, chain: Nonces, a: Address, n: nat)
    requires Drained(queue, nonces, chain)
    ensures Drained(Set(queue, a, At(queue, a) - {n}), nonces, chain)
  {
    forall b ensures DrainedAt(Set(queue, a, At(queue, a) - {n}), nonces, chain, b) {
      assert DrainedAt(queue, nonces, chain, b);
      SetAt(queue, a, At(queue, a) - {n}, b);
    }
  }

  /** Removing a pending transaction: its nonce is the next one, and is not queued. */
  lemma DrainedRemove(queue: Lists, nonces: Nonces, nonces': Nonces, chain: Nonces, p: TxMap, q: TxMap, all: set<Tx>, tx: Tx)
    requires Drained(queue, nonces, chain) && AccountOk(p, q, all, tx.from) && q == At(queue, tx.from) && tx.nonce in p
    requires PendingNonce(nonces', chain, tx.from) == tx.nonce
    requires forall b :: b != tx.from ==> PendingNonce(nonces', chain, b) == PendingNonce(nonces, chain, b)
    ensures Drained(Set(queue, tx.from, q + Above(p, tx.nonce)), nonces', chain)
  {
    forall b ensures DrainedAt(Set(queue, tx.from, q + Above(p, tx.nonce)), nonces', chain, b) {
      assert DrainedAt(queue, nonces, chain, b);
      SetAt(queue, tx.from, q + Above(p, tx.nonce), b);
    }
  }

  // ----- removing one transaction -----

  /** Removing a pending transaction moves everything above it to the queue; the
      queue cannot refuse, because its nonces are disjoint from the pending ones. */
  lemma RemovePending(p: TxMap, q: TxMap, all: set<Tx>, tx: Tx)
    requires AccountOk(p, q, all, tx.from) && Holds(p, tx)
    ensures q.Keys !! Above(p, tx.nonce).Keys
    ensures AccountOk(Front(p, tx.nonce), q + Above(p, tx.nonce), all - {tx}, tx.from)
  {
    var p', q' := Front(p, tx.nonce), q + Above(p, tx.nonce);
    assert Values(p') <= all - {tx} && Values(q') <= all - {tx} by {
      forall n | n in p' ensures p'[n] in all - {tx} { assert p[n] in Values(p); }
      forall n | n in q' ensures q'[n] in all - {tx} {
        if n in q { assert q[n] in Values(q); } else { assert p[n] in Values(p); }
      }
    }
    forall t | t in all - {tx} && t.from == tx.from ensures Holds(p', t) || Holds(q', t) {
      assert Holds(p, t) || Holds(q, t);
    }
  }

  /** The strict list's Remove gives up exactly that part. */
  lemma StrictRemove(p: TxMap, nonce: nat)
    requires nonce in p
    ensures WithoutNonce(p, true, nonce) == Front(p, nonce)
    ensures Minus(p, Front(p, nonce)) - {nonce} == Above(p, nonce)
  {
  }

  function Above(m: TxMap, nonce: nat): TxMap { map n | n in m && n > nonce :: m[n] }

  lemma RemoveQueued(p: TxMap, q: TxMap, all: set<Tx>, tx: Tx)
    requires AccountOk(p, q, all, tx.from) && Holds(q, tx)
    ensures AccountOk(p, q - {tx.nonce}, all - {tx}, tx.from)
    ensures WithoutNonce(q, false, tx.nonce) == q - {tx.nonce}
  {
  }

  lemma SpansFront(m: TxMap, lo: nat, hi: nat, n: nat)
    requires Spans(m, lo, hi) && lo <= n <= hi
    ensures Spans(Front(m, n), lo, n)
  {
  }

  // ----- moving several transactions to the queue -----

  /** A nonce the queue does not hold is never refused. */
  lemma QueueTakes(q: TxMap, moved: TxMap, todo: TxMap, n: nat, a: Address, priceBump: nat)
    requires Owned(moved, a) && q.Keys !! moved.Keys && todo.Keys <= moved.Keys && n in todo
    ensures n in moved && moved[n].from == a && moved[n].nonce == n
    ensures moved[n].nonce !in q + Minus(moved, todo)
    ensures Replaces(q + Minus(moved, todo), moved[n], priceBump)
    ensures With(q + Minus(moved, todo), moved[n]) == q + Minus(moved, todo - {n})
  {
  }

  lemma MovedAll(q: TxMap, moved: TxMap)
    ensures q + Minus(moved, moved) == q && q + Minus(moved, map[]) == q + moved
  {
    assert Minus(moved, moved) == map[];
    assert Minus(moved, map[]) == moved;
  }

  lemma SetSame(ls: Lists, a: Address)
    requires NoEmptyList(ls)
    ensures Set(ls, a, At(ls, a)) == ls
  {
  }

  lemma SetTwice(ls: Lists, a: Address, m: TxMap, m': TxMap)
    ensures Set(Set(ls, a, m), a, m') == Set(ls, a, m')
  {
  }

  lemma SameButOne(all: set<Tx>, tx: Tx)
    ensures SameElsewhere(all, all - {tx}, tx.from)
  {
  }

  lemma VirtualNonce(nonces: Nonces, chain: Nonces, a: Address, n: nat)
    ensures PendingNonce(nonces[a := n], chain, a) == n
    ensures forall b :: b != a ==> PendingNonce(nonces[a := n], chain, b) == PendingNonce(nonces, chain, b)
  {
  }

  lemma InSpan(m: TxMap, lo: nat, hi: nat, n: nat)
    requires Spans(m, lo, hi) && n in m
    ensures lo <= n < hi
  {
  }

  lemma AccountParts(p: TxMap, q: TxMap, all: set<Tx>, a: Address)
    requires AccountOk(p, q, all, a)
    ensures Owned(p, a) && Owned(q, a) && p.Keys !! q.Keys && Values(p) <= all && Values(q) <= all
  {
  }

  lemma OwnedPart(m: TxMap, part: TxMap, a: Address)
    requires Owned(m, a) && part.Keys <= m.Keys && forall n :: n in part ==> part[n] == m[n]
    ensures Owned(part, a) && Values(part) <= Values(m)
  {
    forall tx | tx in Values(part) ensures tx in Values(m) {
      var n :| n in part && part[n] == tx;
      assert m[n] in Values(m);
    }
  }

  lemma AboveIsPart(m: TxMap, nonce: nat)
    ensures Above(m, nonce).Keys <= m.Keys && forall n :: n in Above(m, nonce) ==> Above(m, nonce)[n] == m[n]
    ensures nonce !in Above(m, nonce)
  {
  }

  // ----- one account through promotion -----

  ghost predicate PartOf(part: TxMap, m: TxMap) {
    part.Keys <= m.Keys && forall n :: n in part ==> part[n] == m[n]
  }

  /** Dropping queued transactions from list and lookup alike. */
  lemma AccountDrop(p: TxMap, q: TxMap, all: set<Tx>, a: Address, q': TxMap)
    requires AccountOk(p, q, all, a) && PartOf(q', q)
    ensures Values(Minus(q, q')) <= all
    ensures AccountOk(p, q', all - Values(Minus(q, q')), a)
    ensures SameElsewhere(all, all - Values(Minus(q, q')), a)
  {
    var gone := Values(Minus(q, q'));
    forall tx | tx in gone ensures tx in all && tx.from == a && tx.nonce in q && tx.nonce !in q' && q[tx.nonce] == tx {
      var n :| n in Minus(q, q') && Minus(q, q')[n] == tx;
      assert q[n] in Values(q);
    }
    forall n | n in p ensures p[n] in all - gone { assert p[n] in Values(p); }
    forall n | n in q' ensures q'[n] in all - gone { assert q[n] in Values(q); }
    forall tx | tx in all - gone && tx.from == a ensures Holds(p, tx) || Holds(q', tx) {
      assert Holds(p, tx) || Holds(q, tx);
      if Holds(q, tx) { KeptOrGone(q, q', tx); }
    }
  }

  lemma KeptOrGone(q: TxMap, q': TxMap, tx: Tx)
    requires Holds(q, tx) && PartOf(q', q)
    ensures Holds(q', tx) || tx in Values(Minus(q, q'))
  {
    if tx.nonce !in q' { assert Minus(q, q')[tx.nonce] == tx; }
  }

  /** Moving queued transactions over to pending. */
  lemma AccountMove(p: TxMap, q: TxMap, all: set<Tx>, a: Address, run: TxMap, rest: TxMap)
    requires AccountOk(p, q, all, a) && PartOf(run, q) && rest == Minus(q, run)
    ensures AccountOk(p + run, rest, all, a)
    ensures Owned(run, a) && Values(run) <= all && p.Keys !! run.Keys
  {
    OwnedPart(q, run, a);
    forall n | n in p + run ensures (p + run)[n] in all {
      if n in run { assert q[n] in Values(q); } else { assert p[n] in Values(p); }
    }
    forall n | n in rest ensures rest[n] in all { assert q[n] in Values(q); }
    forall tx | tx in all && tx.from == a ensures Holds(p + run, tx) || Holds(rest, tx) {
      assert Holds(p, tx) || Holds(q, tx);
    }
  }

  lemma SameElsewhereTrans(a: set<Tx>, b: set<Tx>, c: set<Tx>, addr: Address)
    requires SameElsewhere(a, b, addr) && SameElsewhere(b, c, addr)
    ensures SameElsewhere(a, c, addr)
  {
  }

  /** The queue operations of promotion only ever take things out. */
  lemma QueueParts(q: TxMap, n: nat, costLimit: nat, gasLimit: nat, k: nat)
    ensures PartOf(DropBelow(q, n), q) && Minus(q, DropBelow(q, n)) == Front(q, n)
    ensures PartOf(KeepPayable(q, false, costLimit, gasLimit), q)
    ensures Minus(q, KeepPayable(q, false, costLimit, gasLimit)) == Unpayable(q, costLimit, gasLimit)
    ensures PartOf(Run(q, n), q) && AfterRun(q, n) == Minus(q, Run(q, n))
    ensures PartOf(Lowest(q, k), q)
  {
  }

  /** The first nonce from `n` on that `m` lacks. */
  ghost function FirstGap(m: TxMap, n: nat): (g: nat)
    ensures g >= n && g !in m && forall k :: n <= k < g ==> k in m
    decreases |DropBelow(m, n)|
  {
    if n !in m then n
    else
      assert DropBelow(m, n + 1).Keys == DropBelow(m, n).Keys - {n};
      assert |DropBelow(m, n).Keys| == |DropBelow(m, n)| && |DropBelow(m, n + 1).Keys| == |DropBelow(m, n + 1)|;
      FirstGap(m, n + 1)
  }

  /** With nothing below the virtual nonce, what is ready continues it without a gap. */
  lemma ReadySpans(m: TxMap, n: nat)
    requires forall k :: k in m ==> k >= n
    ensures Spans(Run(m, n), n, FirstGap(m, n))
  {
    var g := FirstGap(m, n);
    forall k ensures k in Run(m, n) <==> n <= k < g { }
  }

  /** Queued nonces of an account are not below its virtual nonce, once the old ones
      are gone: the pending list spans everything in between. */
  lemma QueueBeyond(p: TxMap, q: TxMap, lo: nat, hi: nat)
    requires Spans(p, lo, hi) && p.Keys !! q.Keys
    ensures forall k :: k in DropBelow(q, lo) ==> k >= hi
  {
  }

  lemma SpansJoin(p: TxMap, run: TxMap, lo: nat, mid: nat, hi: nat)
    requires Spans(p, lo, mid) && Spans(run, mid, hi)
    ensures Spans(p + run, lo, hi)
  {
  }

  lemma {:induction false} LowestSize(m: TxMap, low: TxMap, k: nat)
    requires low == Lowest(m, k)
    ensures |low| <= k
  {
    if low != map[] {
      var top := Highest(low);
      var rest := low.Keys - {top};
      forall n | n in rest ensures n in Below(m, top) { }
      assert rest <= Below(m, top);
      SubsetSize(rest, Below(m, top));
    }
  }

  lemma SubsetSize(a: set<nat>, b: set<nat>)
    requires a <= b
    ensures |a| <= |b|
  {
    assert b == a + (b - a);
  }

  ghost function Highest(m: TxMap): (n: nat)
    requires m != map[]
    ensures n in m && forall k :: k in m ==> k <= n
    decreases |m|
  {
    var x :| x in m;
    var m' := m - {x};
    assert m.Keys == m'.Keys + {x};
    if m' == map[] then
      assert forall k :: k in m ==> k in m.Keys;
      x
    else
      var y := Highest(m');
      if x > y then x else y
  }

  /** Promoting the next nonce of a run. */
  lemma RunStep(p: TxMap, run: TxMap, lo: nat, next: nat, hi: nat, a: Address, priceBump: nat)
    requires Spans(run, lo, hi) && lo <= next < hi && Owned(run, a) && p.Keys !! run.Keys
    ensures next in run && run[next].from == a && run[next].nonce == next && run[next] in Values(run)
    ensures next !in p + Front(run, next) && Replaces(p + Front(run, next), run[next], priceBump)
    ensures With(p + Front(run, next), run[next]) == p + Front(run, next + 1)
  {
  }

  lemma RunEnds(p: TxMap, run: TxMap, lo: nat, hi: nat)
    requires Spans(run, lo, hi)
    ensures p + Front(run, lo) == p && p + Front(run, hi) == p + run
  {
    assert Front(run, lo) == map[] && Front(run, hi) == run;
  }

  lemma PartOfTrans(a: TxMap, b: TxMap, c: TxMap)
    requires PartOf(a, b) && PartOf(b, c)
    ensures PartOf(a, c)
  {
  }

  /** After promotion the virtual nonce itself is not queued. */
  lemma GapNotQueued(list: TxMap, n: nat, list': TxMap)
    requires PartOf(list', AfterRun(list, n))
    ensures FirstGap(list, n) !in list'
  {
  }

  lemma ElsewhereSame(ls: Lists, a: Address, m: TxMap)
    ensures forall b :: b != a ==> At(Set(ls, a, m), b) == At(ls, b)
  {
  }

  // ----- demotion -----

  /** Pending transactions going back to the queue. */
  lemma AccountDemote(p: TxMap, q: TxMap, all: set<Tx>, a: Address, moved: TxMap)
    requires AccountOk(p, q, all, a) && PartOf(moved, p)
    ensures AccountOk(Minus(p, moved), q + moved, all, a)
    ensures Owned(moved, a) && q.Keys !! moved.Keys && Values(moved) <= all
  {
    OwnedPart(p, moved, a);
    forall n | n in q + moved ensures (q + moved)[n] in all {
      if n in moved { assert p[n] in Values(p); } else { assert q[n] in Values(q); }
    }
    forall n | n in Minus(p, moved) ensures p[n] in all { assert p[n] in Values(p); }
    forall tx | tx in all && tx.from == a ensures Holds(Minus(p, moved), tx) || Holds(q + moved, tx) {
      assert Holds(p, tx) || Holds(q, tx);
    }
  }

  /** What the strict filter keeps, removes and invalidates. */
  function Invalidated(m: TxMap, costLimit: nat, gasLimit: nat): TxMap {
    Minus(Minus(m, KeepPayable(m, true, costLimit, gasLimit)), Unpayable(m, costLimit, gasLimit))
  }

  lemma StrictParts(m: TxMap, costLimit: nat, gasLimit: nat)
    ensures PartOf(Minus(m, Unpayable(m, costLimit, gasLimit)), m)
    ensures Minus(m, Minus(m, Unpayable(m, costLimit, gasLimit))) == Unpayable(m, costLimit, gasLimit)
    ensures PartOf(Invalidated(m, costLimit, gasLimit), Minus(m, Unpayable(m, costLimit, gasLimit)))
    ensures Minus(Minus(m, Unpayable(m, costLimit, gasLimit)), Invalidated(m, costLimit, gasLimit)) ==
            KeepPayable(m, true, costLimit, gasLimit)
  {
  }

  /** What demotion makes of an account's lists: the payable beginning stays pending if
      it starts at the chain nonce `c`; what was invalidated returns to the queue. */
  predicate Demoted(p: TxMap, q: TxMap, c: nat, costLimit: nat, gasLimit: nat, p': TxMap, q': TxMap) {
    var list := DropBelow(p, c);
    var left, back := KeepPayable(list, true, costLimit, gasLimit), q + Invalidated(list, costLimit, gasLimit);
    if left == map[] || c in left then p' == left && q' == back else p' == map[] && q' == back + left
  }

  lemma DemotedIs(p: TxMap, q: TxMap, c: nat, costLimit: nat, gasLimit: nat, p': TxMap, q': TxMap)
    requires var list := DropBelow(p, c);
      var left, back := KeepPayable(list, true, costLimit, gasLimit), q + Invalidated(list, costLimit, gasLimit);
      if left == map[] || c in left then p' == left && q' == back else p' == map[] && q' == back + left
    ensures Demoted(p, q, c, costLimit, gasLimit, p', q')
  {
  }

  lemma FrontParts(m: TxMap, n: nat)
    ensures PartOf(DropBelow(m, n), m) && Minus(m, DropBelow(m, n)) == Front(m, n)
  {
  }

  /** A list spans some nonces, wherever it starts. */
  ghost predicate Block(m: TxMap) { exists lo: nat, hi: nat :: Spans(m, lo, hi) }

  lemma BlockOf(m: TxMap, lo: nat, hi: nat)
    requires Spans(m, lo, hi)
    ensures Block(m)
  {
  }

  /** Dropping a block's front and keeping its payable beginning leaves a block that
      starts at the chain nonce, or does not contain it. */
  lemma DemotedBlock(m: TxMap, c: nat, costLimit: nat, gasLimit: nat)
    requires Block(m)
    ensures var left := KeepPayable(DropBelow(m, c), true, costLimit, gasLimit);
      left == map[] || c !in left || exists hi: nat :: Spans(left, c, hi)
  {
    var lo: nat, hi: nat :| Spans(m, lo, hi);
    var m1 := DropBelow(m, c);
    var left := KeepPayable(m1, true, costLimit, gasLimit);
    if c in left {
      assert lo <= c < hi;
      var g := FirstGap(KeepPayable(m1, false, costLimit, gasLimit), c);
      PayablePrefix(m1, c, hi, g, costLimit, gasLimit);
    }
  }

  lemma PayablePrefix(m: TxMap, lo: nat, hi: nat, g: nat, costLimit: nat, gasLimit: nat)
    requires Spans(m, lo, hi) && lo <= g && g !in KeepPayable(m, false, costLimit, gasLimit)
    requires forall k :: lo <= k < g ==> k in KeepPayable(m, false, costLimit, gasLimit)
    ensures Spans(KeepPayable(m, true, costLimit, gasLimit), lo, g)
  {
    var kept, payable := KeepPayable(m, true, costLimit, gasLimit), KeepPayable(m, false, costLimit, gasLimit);
    forall n | lo <= n < g ensures n in kept {
      assert n in payable;
      forall k | k in m && k < n ensures Payable(m[k], costLimit, gasLimit) { assert k in payable; }
    }
    assert g in m ==> !Payable(m[g], costLimit, gasLimit);
    forall n | n in kept ensures lo <= n < g { }
  }

  ghost predicate FromChain(pending: Lists, chain: Nonces, a: Address) {
    exists hi: nat :: Spans(At(pending, a), ChainNonce(chain, a), hi)
  }

  lemma NothingFromChain(pending: Lists, chain: Nonces, a: Address)
    requires At(pending, a) == map[]
    ensures FromChain(pending, chain, a)
  {
    assert Spans(At(pending, a), ChainNonce(chain, a), ChainNonce(chain, a));
  }

  // ----- adding one transaction -----

  /** Replacing a pending transaction of the same nonce. */
  lemma AccountReplace(p: TxMap, q: TxMap, all: set<Tx>, tx: Tx)
    requires AccountOk(p, q, all, tx.from) && tx !in all && tx.nonce in p
    ensures p[tx.nonce] in all
    ensures AccountOk(With(p, tx), q, all - {p[tx.nonce]} + {tx}, tx.from)
    ensures SameElsewhere(all, all - {p[tx.nonce]} + {tx}, tx.from)
  {
    var was := p[tx.nonce];
    var all' := all - {was} + {tx};
    assert was in Values(p);
    forall n | n in With(p, tx) ensures With(p, tx)[n] in all' { if n != tx.nonce { assert p[n] in Values(p); } }
    forall n | n in q ensures q[n] in all' { assert q[n] in Values(q); }
  }

  /** A new transaction whose nonce is not pending, into the queue. */
  lemma AccountEnqueue(p: TxMap, q: TxMap, all: set<Tx>, tx: Tx)
    requires AccountOk(p, q, all, tx.from) && tx !in all && tx.nonce !in p
    ensures tx.nonce in q ==> q[tx.nonce] in all
    ensures var all' := (if tx.nonce in q then all - {q[tx.nonce]} else all) + {tx};
      AccountOk(p, With(q, tx), all', tx.from) && SameElsewhere(all, all', tx.from)
  {
    assert tx.nonce in q ==> q[tx.nonce] in Values(q);
    var all' := (if tx.nonce in q then all - {q[tx.nonce]} else all) + {tx};
    forall n | n in With(q, tx) ensures With(q, tx)[n] in all' { if n != tx.nonce { assert q[n] in Values(q); } }
    forall n | n in p ensures p[n] in all' { assert p[n] in Values(p); }
  }
}
