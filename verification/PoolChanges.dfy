/** What promotion, demotion and the limits make of the pool's lists, account by account
    and for all accounts together, and which transactions they lose.
 */
module PoolChanges {
  import opened TxList
  import opened PoolState
  import opened PoolLimits

  function Funds(balances: map<Address, nat>, a: Address): nat { if a in balances then balances[a] else 0 }

  /** What decides about a transaction besides the lists. */
  datatype Terms = Terms(chain: Nonces, balances: map<Address, nat>, maxGas: nat, locals: set<Address>, accountQueue: nat)

  // ----- pending transactions can be paid -----

  ghost predicate Affordable(pending: Lists, balances: map<Address, nat>, maxGas: nat) {
    forall a, n :: n in At(pending, a) ==> At(pending, a)[n].cost <= Funds(balances, a) && At(pending, a)[n].gas <= maxGas
  }

  lemma AffordableLess(pending: Lists, pending': Lists, balances: map<Address, nat>, maxGas: nat)
    requires Affordable(pending, balances, maxGas) && Shrunk(pending, pending')
    ensures Affordable(pending', balances, maxGas)
  {
    forall a, n | n in At(pending', a)
      ensures At(pending', a)[n].cost <= Funds(balances, a) && At(pending', a)[n].gas <= maxGas
    {
      assert PartOf(At(pending', a), At(pending, a));
    }
  }

  lemma AffordableMeans(pending: Lists, balances: map<Address, nat>, maxGas: nat)
    requires Affordable(pending, balances, maxGas)
    ensures forall a, n :: n in At(pending, a) ==> At(pending, a)[n].cost <= Funds(balances, a) && At(pending, a)[n].gas <= maxGas
  {
  }

  lemma AffordableWith(pending: Lists, tx: Tx, balances: map<Address, nat>, maxGas: nat)
    requires Affordable(pending, balances, maxGas) && tx.cost <= Funds(balances, tx.from) && tx.gas <= maxGas
    ensures Affordable(Set(pending, tx.from, With(At(pending, tx.from), tx)), balances, maxGas)
  {
    var pending' := Set(pending, tx.from, With(At(pending, tx.from), tx));
    forall a, n | n in At(pending', a)
      ensures At(pending', a)[n].cost <= Funds(balances, a) && At(pending', a)[n].gas <= maxGas
    {
      SetAt(pending, tx.from, With(At(pending, tx.from), tx), a);
    }
  }

  // ----- lists that lose their highest nonces -----

  /** What is left lies below what is gone. */
  ghost predicate LowerPart(m: TxMap, whole: TxMap) {
    PartOf(m, whole) && forall k, n :: k in m && n in whole && n !in m ==> k < n
  }

  /** Of every list the lowest nonces stay. */
  ghost predicate LowestStay(base: Lists, ls: Lists) { forall a :: LowerPart(At(ls, a), At(base, a)) }

  lemma LowestStaySelf(base: Lists)
    ensures LowestStay(base, base)
  {
  }

  lemma LowestStaySet(base: Lists, ls: Lists, a: Address, m: TxMap)
    requires LowestStay(base, ls) && LowerPart(m, At(ls, a))
    ensures LowestStay(base, Set(ls, a, m))
  {
    forall b ensures LowerPart(At(Set(ls, a, m), b), At(base, b)) {
      SetAt(ls, a, m, b);
      if a == b { LowerPartTrans(m, At(ls, a), At(base, a)); } else { assert LowerPart(At(ls, b), At(base, b)); }
    }
  }

  lemma LowerPartTrans(a: TxMap, b: TxMap, c: TxMap)
    requires LowerPart(a, b) && LowerPart(b, c)
    ensures LowerPart(a, c)
  {
  }

  lemma LowestStayTrans(a: Lists, b: Lists, c: Lists)
    requires LowestStay(a, b) && LowestStay(b, c)
    ensures LowestStay(a, c)
  {
    hide LowerPart;
    forall x ensures LowerPart(At(c, x), At(a, x)) {
      assert LowerPart(At(b, x), At(a, x)) && LowerPart(At(c, x), At(b, x));
      LowerPartTrans(At(c, x), At(b, x), At(a, x));
    }
  }

  lemma LowestStayShrinks(base: Lists, ls: Lists)
    requires LowestStay(base, ls)
    ensures Shrunk(base, ls)
  {
    forall a ensures PartOf(At(ls, a), At(base, a)) { assert LowerPart(At(ls, a), At(base, a)); }
  }

  lemma FrontIsLower(m: TxMap, n: nat)
    ensures LowerPart(Front(m, n), m)
  {
  }

  // ----- lists that lose given transactions -----

  ghost predicate Sent(txs: set<Tx>, a: Address) { exists t :: t in txs && t.from == a }

  /** Accounts that lose no transaction keep their lists. */
  ghost predicate Untouched(p: Lists, q: Lists, p': Lists, q': Lists, gone: set<Tx>) {
    forall a :: !Sent(gone, a) ==> At(p', a) == At(p, a) && At(q', a) == At(q, a)
  }

  lemma NothingTouched(p: Lists, q: Lists, gone: set<Tx>)
    ensures Untouched(p, q, p, q, gone)
  {
  }

  /** Removing a transaction, with those above it going back to the queue. */
  lemma DropOne(p: Lists, q: Lists, all: set<Tx>, p1: Lists, q1: Lists, all1: set<Tx>, tx: Tx, p2: Lists, q2: Lists)
    requires LowestStay(p, p1) && Untouched(p, q, p1, q1, all - all1) && all1 <= all
    requires tx !in all1 ==> p2 == p1 && q2 == q1
    requires tx in all1 && tx.nonce !in At(p1, tx.from) ==>
      p2 == p1 && q2 == Set(q1, tx.from, At(q1, tx.from) - {tx.nonce})
    requires tx in all1 && tx.nonce in At(p1, tx.from) ==>
      && p2 == Set(p1, tx.from, Front(At(p1, tx.from), tx.nonce))
      && q2 == Set(q1, tx.from, At(q1, tx.from) + Above(At(p1, tx.from), tx.nonce))
    ensures LowestStay(p, p2) && Untouched(p, q, p2, q2, all - (all1 - {tx}))
  {
    hide LowestStay, LowerPart, Front, Above;
    if tx in all1 && tx.nonce in At(p1, tx.from) {
      FrontIsLower(At(p1, tx.from), tx.nonce);
      LowestStaySet(p, p1, tx.from, Front(At(p1, tx.from), tx.nonce));
    }
    forall a | !Sent(all - (all1 - {tx}), a) ensures At(p2, a) == At(p, a) && At(q2, a) == At(q, a) {
      assert !Sent(all - all1, a);
      assert tx in all1 ==> a != tx.from;
    }
  }

  /** The lists as they were up to what is gone, with one transaction more in the queue. */
  ghost predicate Waits(p: Lists, q: Lists, tx: Tx, gone: set<Tx>, p': Lists, q': Lists) {
    && Holds(At(q', tx.from), tx)
    && LowestStay(p, p')
    && forall a :: !Sent(gone, a) ==> At(p', a) == At(p, a) && At(q', a) == if a == tx.from then With(At(q, a), tx) else At(q, a)
  }

  lemma WaitsMeans(p: Lists, q: Lists, tx: Tx, gone: set<Tx>, p': Lists, q': Lists)
    requires Waits(p, q, tx, gone, p', q')
    ensures Holds(At(q', tx.from), tx) && tx.nonce in At(q', tx.from)
    ensures (forall t :: t in gone ==> t.from != tx.from) ==> At(p', tx.from) == At(p, tx.from)
  {
    assert (forall t :: t in gone ==> t.from != tx.from) ==> !Sent(gone, tx.from);
  }

  lemma StillWaits(p: Lists, q: Lists, tx: Tx, gone: set<Tx>, p1: Lists, q1: Lists, p2: Lists, q2: Lists)
    requires LowestStay(p, p1) && Untouched(p, q, p1, q1, gone)
    requires p2 == p1 && q2 == Set(q1, tx.from, With(At(q1, tx.from), tx))
    ensures Waits(p, q, tx, gone, p2, q2)
  {
    SetAt(q1, tx.from, With(At(q1, tx.from), tx), tx.from);
  }

  // ----- promotion -----

  /** The queued transactions that are not too old and can be paid for. */
  function Eligible(t: Terms, q: TxMap, a: Address): TxMap {
    KeepPayable(DropBelow(q, ChainNonce(t.chain, a)), false, Funds(t.balances, a), t.maxGas)
  }

  /** One account, its virtual nonce being `n`: the run from there on becomes pending, of
      the rest a non-local account keeps the lowest nonces up to its allowance. */
  ghost predicate Promoted(t: Terms, a: Address, p: TxMap, q: TxMap, n: nat, p': TxMap, q': TxMap) {
    var list := Eligible(t, q, a);
    && p' == p + Run(list, n)
    && q' == if a in t.locals then AfterRun(list, n) else Lowest(AfterRun(list, n), t.accountQueue)
  }

  ghost predicate PromotedAt(t: Terms, p: Lists, q: Lists, nonces: Nonces, done: seq<Address>, p': Lists, q': Lists, a: Address) {
    if a in done then Promoted(t, a, At(p, a), At(q, a), PendingNonce(nonces, t.chain, a), At(p', a), At(q', a))
    else At(p', a) == At(p, a) && At(q', a) == At(q, a)
  }

  /** The accounts in `done` are promoted, the others are as they were. */
  ghost predicate PromotedAll(t: Terms, p: Lists, q: Lists, nonces: Nonces, done: seq<Address>, p': Lists, q': Lists) {
    forall a :: PromotedAt(t, p, q, nonces, done, p', q', a)
  }

  lemma PromotedNone(t: Terms, p: Lists, q: Lists, nonces: Nonces)
    ensures PromotedAll(t, p, q, nonces, [], p, q)
  {
  }

  lemma PromotedEmpty(t: Terms, a: Address, p: TxMap, n: nat)
    ensures Promoted(t, a, p, map[], n, p, map[])
  {
  }

  /** The virtual nonce follows from the pending list. */
  lemma NonceByList(p: Lists, nonces: Nonces, p': Lists, nonces': Nonces, chain: Nonces, a: Address)
    requires Executable(p, nonces, chain) && Executable(p', nonces', chain) && At(p', a) == At(p, a)
    ensures PendingNonce(nonces', chain, a) == PendingNonce(nonces, chain, a)
  {
    ExecutableOf(p, nonces, chain, a);
    ExecutableOf(p', nonces', chain, a);
    SameEnd(At(p, a), ChainNonce(chain, a), PendingNonce(nonces, chain, a), PendingNonce(nonces', chain, a));
  }

  lemma SameEnd(m: TxMap, lo: nat, hi: nat, hi': nat)
    requires Spans(m, lo, hi) && Spans(m, lo, hi')
    ensures hi == hi'
  {
    assert (hi < hi' ==> hi in m) && (hi' < hi ==> hi' in m);
  }

  /** Promoting an account once more changes nothing. */
  lemma PromotedTwice(t: Terms, a: Address, p: TxMap, q: TxMap, n: nat, p1: TxMap, q1: TxMap, n1: nat, p2: TxMap, q2: TxMap)
    requires Promoted(t, a, p, q, n, p1, q1) && Promoted(t, a, p1, q1, n1, p2, q2)
    requires Spans(p, ChainNonce(t.chain, a), n) && p.Keys !! q.Keys && Spans(p1, ChainNonce(t.chain, a), n1)
    ensures p2 == p1 && q2 == q1
  {
    hide Eligible, Run, AfterRun, Lowest, Spans, PartOf, Below;
    var c, list := ChainNonce(t.chain, a), Eligible(t, q, a);
    EligibleBeyond(t, a, p, q, n);
    ReadySpans(list, n);
    SpansJoin(p, Run(list, n), c, n, FirstGap(list, n));
    SameEnd(p1, c, n1, FirstGap(list, n));
    RestParts(list, n, t.accountQueue);
    LeftOver(list, n, q1);
    EligibleAgain(t, q, a, q1);
    NoRun(q1, n1);
    LowestTwice(AfterRun(list, n), t.accountQueue);
    assert p1 + map[] == p1;
  }

  lemma EligibleBeyond(t: Terms, a: Address, p: TxMap, q: TxMap, n: nat)
    requires Spans(p, ChainNonce(t.chain, a), n) && p.Keys !! q.Keys
    ensures forall k :: k in Eligible(t, q, a) ==> k >= n
  {
    QueueBeyond(p, q, ChainNonce(t.chain, a), n);
  }

  lemma RestParts(list: TxMap, n: nat, k: nat)
    ensures var rest := AfterRun(list, n); PartOf(rest, rest) && PartOf(Lowest(rest, k), rest) && PartOf(rest, list) && PartOf(Lowest(rest, k), list)
  {
  }

  lemma LeftOver(list: TxMap, n: nat, rest: TxMap)
    requires (forall k :: k in list ==> k >= n) && PartOf(rest, AfterRun(list, n))
    ensures forall k :: k in rest ==> k > FirstGap(list, n)
  {
    var g := FirstGap(list, n);
    ReadySpans(list, n);
    forall k | k in rest ensures k > g { assert k in list && k !in Run(list, n); }
  }

  lemma EligibleAgain(t: Terms, q: TxMap, a: Address, rest: TxMap)
    requires PartOf(rest, Eligible(t, q, a))
    ensures Eligible(t, rest, a) == rest
  {
  }

  lemma NoRun(m: TxMap, n: nat)
    requires forall k :: k in m ==> k > n
    ensures Run(m, n) == map[] && AfterRun(m, n) == m
  {
  }

  lemma LowestTwice(m: TxMap, k: nat)
    ensures Lowest(Lowest(m, k), k) == Lowest(m, k)
  {
    var low := Lowest(m, k);
    forall n | n in low ensures |Below(low, n)| < k { SubsetSize(Below(low, n), Below(m, n)); }
  }

  lemma PromotedNext(t: Terms, p: Lists, q: Lists, all: set<Tx>, nonces: Nonces, done: seq<Address>, p1: Lists, q1: Lists, nonces1: Nonces,
                     a: Address, p2: Lists, q2: Lists)
    requires PromotedAll(t, p, q, nonces, done, p1, q1) && Partition(p, q, all)
    requires Executable(p, nonces, t.chain) && Executable(p1, nonces1, t.chain)
    requires Promoted(t, a, At(p1, a), At(q1, a), PendingNonce(nonces1, t.chain, a), At(p2, a), At(q2, a))
    requires forall b :: b != a ==> At(p2, b) == At(p1, b) && At(q2, b) == At(q1, b)
    ensures PromotedAll(t, p, q, nonces, done + [a], p2, q2)
  {
    hide *;
    forall b ensures PromotedAt(t, p, q, nonces, done + [a], p2, q2, b) {
      PromotedHere(t, p, q, nonces, done, p1, q1, b);
      PromotedIs(t, p, q, nonces, done + [a], p2, q2, b);
      if b == a {
        if a in done {
          PartitionAt(p, q, all, a);
          Disjoint(At(p, a), At(q, a), all, a);
          ExecutableOf(p, nonces, t.chain, a);
          ExecutableOf(p1, nonces1, t.chain, a);
          PromotedTwice(t, a, At(p, a), At(q, a), PendingNonce(nonces, t.chain, a), At(p1, a), At(q1, a),
                        PendingNonce(nonces1, t.chain, a), At(p2, a), At(q2, a));
        } else {
          NonceByList(p, nonces, p1, nonces1, t.chain, a);
        }
      }
    }
    PromotedIsAll(t, p, q, nonces, done + [a], p2, q2);
  }

  lemma Disjoint(p: TxMap, q: TxMap, all: set<Tx>, a: Address)
    requires AccountOk(p, q, all, a)
    ensures p.Keys !! q.Keys
  {
  }

  lemma PromotedHere(t: Terms, p: Lists, q: Lists, nonces: Nonces, done: seq<Address>, p': Lists, q': Lists, a: Address)
    requires PromotedAll(t, p, q, nonces, done, p', q')
    ensures a in done ==> Promoted(t, a, At(p, a), At(q, a), PendingNonce(nonces, t.chain, a), At(p', a), At(q', a))
    ensures a !in done ==> At(p', a) == At(p, a) && At(q', a) == At(q, a)
  {
    assert PromotedAt(t, p, q, nonces, done, p', q', a);
  }

  lemma PromotedIs(t: Terms, p: Lists, q: Lists, nonces: Nonces, done: seq<Address>, p': Lists, q': Lists, a: Address)
    ensures PromotedAt(t, p, q, nonces, done, p', q', a) <==>
      if a in done then Promoted(t, a, At(p, a), At(q, a), PendingNonce(nonces, t.chain, a), At(p', a), At(q', a))
      else At(p', a) == At(p, a) && At(q', a) == At(q, a)
  {
  }

  lemma PromotedIsAll(t: Terms, p: Lists, q: Lists, nonces: Nonces, done: seq<Address>, p': Lists, q': Lists)
    requires forall a :: PromotedAt(t, p, q, nonces, done, p', q', a)
    ensures PromotedAll(t, p, q, nonces, done, p', q')
  {
  }

  lemma PromotedAffordable(t: Terms, p: Lists, q: Lists, nonces: Nonces, done: seq<Address>, p': Lists, q': Lists)
    requires PromotedAll(t, p, q, nonces, done, p', q') && Affordable(p, t.balances, t.maxGas)
    ensures Affordable(p', t.balances, t.maxGas)
  {
    forall a, n | n in At(p', a)
      ensures At(p', a)[n].cost <= Funds(t.balances, a) && At(p', a)[n].gas <= t.maxGas
    {
      assert PromotedAt(t, p, q, nonces, done, p', q', a);
      if a in done {
        var run := Run(Eligible(t, At(q, a), a), PendingNonce(nonces, t.chain, a));
        if n in run { assert At(p', a)[n] == run[n]; } else { assert n in At(p, a); }
      }
    }
  }

  /** A transaction of the next nonce that can be paid for becomes pending. */
  lemma NextIsPromoted(t: Terms, p: TxMap, q: TxMap, tx: Tx, p': TxMap, q': TxMap)
    requires Promoted(t, tx.from, p, q, tx.nonce, p', q') && Spans(p, ChainNonce(t.chain, tx.from), tx.nonce) && p.Keys !! q.Keys
    requires Holds(q, tx) && tx.cost <= Funds(t.balances, tx.from) && tx.gas <= t.maxGas
    ensures Holds(p', tx)
  {
    var list := Eligible(t, q, tx.from);
    QueueBeyond(p, q, ChainNonce(t.chain, tx.from), tx.nonce);
    assert tx.nonce in list && InRun(list, tx.nonce, tx.nonce);
  }

  /** One account is promoted, behind its pending list. */
  lemma PromotedOne(t: Terms, p: Lists, q: Lists, nonces: Nonces, a: Address, p': Lists, q': Lists)
    requires PromotedAll(t, p, q, nonces, [a], p', q') && Executable(p, nonces, t.chain)
    ensures Promoted(t, a, At(p, a), At(q, a), ChainNonce(t.chain, a) + |At(p, a)|, At(p', a), At(q', a))
    ensures forall b :: b != a ==> At(p', b) == At(p, b) && At(q', b) == At(q, b)
  {
    hide Promoted, Executable, PromotedAll;
    assert a in [a];
    PromotedHere(t, p, q, nonces, [a], p', q', a);
    ExecutableOf(p, nonces, t.chain, a);
    SpanSize(At(p, a), ChainNonce(t.chain, a), PendingNonce(nonces, t.chain, a));
    forall b | b != a ensures At(p', b) == At(p, b) && At(q', b) == At(q, b) {
      PromotedHere(t, p, q, nonces, [a], p', q', b);
    }
  }

  lemma PromotedEverywhere(t: Terms, p: Lists, q: Lists, nonces: Nonces, done: seq<Address>, p': Lists, q': Lists)
    requires PromotedAll(t, p, q, nonces, done, p', q') && Executable(p, nonces, t.chain) && multiset(done) == multiset(q.Keys)
    ensures forall a :: Promoted(t, a, At(p, a), At(q, a), ChainNonce(t.chain, a) + |At(p, a)|, At(p', a), At(q', a))
  {
    hide Promoted, Executable, PromotedAll;
    forall a ensures Promoted(t, a, At(p, a), At(q, a), ChainNonce(t.chain, a) + |At(p, a)|, At(p', a), At(q', a)) {
      PromotedHere(t, p, q, nonces, done, p', q', a);
      ExecutableOf(p, nonces, t.chain, a);
      SpanSize(At(p, a), ChainNonce(t.chain, a), PendingNonce(nonces, t.chain, a));
      if a !in done {
        assert a !in multiset(done);
        PromotedEmpty(t, a, At(p, a), ChainNonce(t.chain, a) + |At(p, a)|);
      }
    }
  }

  // ----- what is lost -----

  /** Why a transaction left: too old, not payable, beyond the allowance of its account, or
      cut by a limit that was exceeded after promotion, from `p'` or `q'`. */
  ghost predicate Lost(t: Terms, q: Lists, p': Lists, q': Lists, slots: nat, queueLimit: nat, tx: Tx) {
    || tx.nonce < ChainNonce(t.chain, tx.from)
    || tx.cost > Funds(t.balances, tx.from) || tx.gas > t.maxGas
    || (tx.from !in t.locals && Holds(At(q, tx.from), tx) && |Below(At(q, tx.from), tx.nonce)| >= t.accountQueue)
    || (tx.from !in t.locals && Holds(At(p', tx.from), tx) && Total(p') > slots)
    || (tx.from !in t.locals && Holds(At(q', tx.from), tx) && Total(q') > queueLimit)
  }

  lemma LostEarly(t: Terms, q: Lists, p': Lists, q': Lists, slots: nat, queueLimit: nat, tx: Tx)
    requires tx.nonce < ChainNonce(t.chain, tx.from) || tx.cost > Funds(t.balances, tx.from) || tx.gas > t.maxGas
    ensures Lost(t, q, p', q', slots, queueLimit, tx)
  {
  }

  /** The lists once the limits are enforced. */
  ghost predicate Limited(p: Lists, q: Lists, p': Lists, q': Lists, locals: set<Address>, slots: nat, queueLimit: nat) {
    && LowestStay(p, p') && LowestStay(q, q') && (forall a :: a in locals ==> At(p', a) == At(p, a) && At(q', a) == At(q, a))
    && (Total(p) <= slots ==> p' == p) && (Total(q) <= queueLimit ==> q' == q)
    && Fairest(p, p', locals) && (Total(p) > slots ==> Total(p') + |CutFrom(p, p')| > slots)
    && (Total(q) > queueLimit ==> Total(q') >= queueLimit)
  }

  lemma LostInPromotion(t: Terms, p: Lists, q: Lists, all: set<Tx>, nonces: Nonces, done: seq<Address>, p1: Lists, q1: Lists,
                        p2: Lists, q2: Lists, all2: set<Tx>, slots: nat, queueLimit: nat, tx: Tx)
    requires PromotedAll(t, p, q, nonces, done, p1, q1) && Partition(p, q, all) && Executable(p, nonces, t.chain)
    requires Limited(p1, q1, p2, q2, t.locals, slots, queueLimit) && Partition(p2, q2, all2) && tx in all && tx !in all2
    ensures Lost(t, q, p1, q1, slots, queueLimit, tx)
  {
    hide Promoted, Executable, Partition, LowestStay, Fairest, CutFrom;
    var a := tx.from;
    PartitionAt(p, q, all, a);
    PartitionAt(p2, q2, all2, a);
    ExecutableOf(p, nonces, t.chain, a);
    assert PromotedAt(t, p, q, nonces, done, p1, q1, a);
    NotHeld(At(p2, a), At(q2, a), all2, tx);
    if a in done {
      WhereTo(t, At(p, a), At(q, a), PendingNonce(nonces, t.chain, a), At(p1, a), At(q1, a), tx);
    }
  }

  /** One account is promoted behind its pending list, to `p1` and `q1`, then the limits
      are enforced; what is lost is lost for a reason. */
  ghost predicate Settles(t: Terms, a: Address, p: Lists, q: Lists, all: set<Tx>, p1: Lists, q1: Lists, p': Lists, q': Lists,
                          all': set<Tx>, slots: nat, queueLimit: nat)
  {
    && Promoted(t, a, At(p, a), At(q, a), ChainNonce(t.chain, a) + |At(p, a)|, At(p1, a), At(q1, a))
    && (forall b :: b != a ==> At(p1, b) == At(p, b) && At(q1, b) == At(q, b))
    && Limited(p1, q1, p', q', t.locals, slots, queueLimit)
    && all' <= all && forall x :: x in all - all' ==> Lost(t, q, p1, q1, slots, queueLimit, x)
  }

  lemma SettlesIs(t: Terms, a: Address, p: Lists, q: Lists, all: set<Tx>, p1: Lists, q1: Lists, p': Lists, q': Lists,
                  all': set<Tx>, slots: nat, queueLimit: nat)
    requires Promoted(t, a, At(p, a), At(q, a), ChainNonce(t.chain, a) + |At(p, a)|, At(p1, a), At(q1, a))
    requires forall b :: b != a ==> At(p1, b) == At(p, b) && At(q1, b) == At(q, b)
    requires Limited(p1, q1, p', q', t.locals, slots, queueLimit)
    requires all' <= all && forall x :: x in all - all' ==> Lost(t, q, p1, q1, slots, queueLimit, x)
    ensures Settles(t, a, p, q, all, p1, q1, p', q', all', slots, queueLimit)
  {
  }

  /** A new transaction with the next nonce becomes pending, and stays unless a limit cuts
      it off. */
  lemma NewPending(t: Terms, p: Lists, q: Lists, nonces: Nonces, tx: Tx, gone: set<Tx>, p0: Lists, q0: Lists, all0: set<Tx>,
                   p1: Lists, q1: Lists, p2: Lists, q2: Lists, slots: nat, queueLimit: nat)
    requires Executable(p, nonces, t.chain) && Waits(p, q, tx, gone, p0, q0) && Partition(p0, q0, all0)
    requires tx.cost <= Funds(t.balances, tx.from) && tx.gas <= t.maxGas
    requires Promoted(t, tx.from, At(p0, tx.from), At(q0, tx.from), ChainNonce(t.chain, tx.from) + |At(p0, tx.from)|,
                      At(p1, tx.from), At(q1, tx.from))
    requires Limited(p1, q1, p2, q2, t.locals, slots, queueLimit)
    ensures tx.nonce == PendingNonce(nonces, t.chain, tx.from) && (forall x :: x in gone ==> x.from != tx.from) ==>
      Holds(At(p1, tx.from), tx) && (Total(p1) <= slots || tx.from in t.locals ==> Holds(At(p2, tx.from), tx))
  {
    hide *;
    var a := tx.from;
    if tx.nonce == PendingNonce(nonces, t.chain, a) && forall x :: x in gone ==> x.from != a {
      WaitsMeans(p, q, tx, gone, p0, q0);
      ExecutableOf(p, nonces, t.chain, a);
      SpanSize(At(p, a), ChainNonce(t.chain, a), tx.nonce);
      PartitionAt(p0, q0, all0, a);
      Apart(At(p0, a), At(q0, a), all0, a);
      NextIsPromoted(t, At(p0, a), At(q0, a), tx, At(p1, a), At(q1, a));
      Spared(p1, q1, p2, q2, t.locals, slots, queueLimit, a);
    }
  }

  lemma Apart(p: TxMap, q: TxMap, all: set<Tx>, a: Address)
    requires AccountOk(p, q, all, a)
    ensures p.Keys !! q.Keys
  {
  }

  lemma Spared(p: Lists, q: Lists, p': Lists, q': Lists, locals: set<Address>, slots: nat, queueLimit: nat, a: Address)
    requires Limited(p, q, p', q', locals, slots, queueLimit)
    ensures Total(p) <= slots || a in locals ==> At(p', a) == At(p, a)
  {
  }

  lemma NotHeld(p: TxMap, q: TxMap, all: set<Tx>, tx: Tx)
    requires AccountOk(p, q, all, tx.from) && tx !in all
    ensures !Holds(p, tx) && !Holds(q, tx)
  {
    assert Holds(p, tx) ==> p[tx.nonce] in Values(p);
    assert Holds(q, tx) ==> q[tx.nonce] in Values(q);
  }

  lemma WhereTo(t: Terms, p: TxMap, q: TxMap, n: nat, p': TxMap, q': TxMap, tx: Tx)
    requires Promoted(t, tx.from, p, q, n, p', q') && Spans(p, ChainNonce(t.chain, tx.from), n) && p.Keys !! q.Keys
    requires Holds(p, tx) || Holds(q, tx)
    ensures || Holds(p', tx) || Holds(q', tx) || tx.nonce < ChainNonce(t.chain, tx.from)
            || tx.cost > Funds(t.balances, tx.from) || tx.gas > t.maxGas
            || (tx.from !in t.locals && Holds(q, tx) && |Below(q, tx.nonce)| >= t.accountQueue)
  {
    var list := Eligible(t, q, tx.from);
    QueueBeyond(p, q, ChainNonce(t.chain, tx.from), n);
    if Holds(p, tx) {
      assert tx.nonce !in Run(list, n);
    } else if tx.nonce in list && tx.nonce in AfterRun(list, n) {
      SubsetSize(Below(AfterRun(list, n), tx.nonce), Below(q, tx.nonce));
    }
  }

  // ----- demotion -----

  ghost predicate DemotedAt(t: Terms, p: Lists, q: Lists, p': Lists, q': Lists, a: Address) {
    Demoted(At(p, a), At(q, a), ChainNonce(t.chain, a), Funds(t.balances, a), t.maxGas, At(p', a), At(q', a))
  }

  /** Every account is demoted. */
  ghost predicate DemotedAll(t: Terms, p: Lists, q: Lists, p': Lists, q': Lists) {
    forall a :: DemotedAt(t, p, q, p', q', a)
  }

  lemma DemotedEmpty(q: TxMap, c: nat, costLimit: nat, gasLimit: nat)
    ensures Demoted(map[], q, c, costLimit, gasLimit, map[], q)
  {
    assert q + map[] == q;
  }

  /** Accounts still to do are as they were. */
  ghost predicate DemotedBut(t: Terms, p: Lists, q: Lists, p': Lists, q': Lists, todo: set<Address>) {
    forall a :: if a in todo then At(p', a) == At(p, a) && At(q', a) == At(q, a) else DemotedAt(t, p, q, p', q', a)
  }

  lemma NothingToDemote(t: Terms, p: Lists, q: Lists)
    ensures DemotedBut(t, p, q, p, q, p.Keys)
  {
    forall a | a !in p.Keys ensures DemotedAt(t, p, q, p, q, a) {
      DemotedEmpty(At(q, a), ChainNonce(t.chain, a), Funds(t.balances, a), t.maxGas);
    }
  }

  lemma DemotedNext(t: Terms, p: Lists, q: Lists, p1: Lists, q1: Lists, p2: Lists, q2: Lists, a: Address, todo: set<Address>)
    requires DemotedBut(t, p, q, p1, q1, todo) && a in todo
    requires Demoted(At(p1, a), At(q1, a), ChainNonce(t.chain, a), Funds(t.balances, a), t.maxGas, At(p2, a), At(q2, a))
    requires forall b :: b != a ==> At(p2, b) == At(p1, b) && At(q2, b) == At(q1, b)
    ensures DemotedBut(t, p, q, p2, q2, todo - {a})
  {
    hide Demoted;
    forall b | b !in todo - {a} ensures DemotedAt(t, p, q, p2, q2, b) {
      assert b != a ==> DemotedAt(t, p, q, p1, q1, b);
    }
  }

  lemma DemotedEverywhere(t: Terms, p: Lists, q: Lists, p': Lists, q': Lists)
    requires DemotedBut(t, p, q, p', q', {})
    ensures DemotedAll(t, p, q, p', q')
  {
  }

  lemma DemotedAffordable(t: Terms, p: Lists, q: Lists, p': Lists, q': Lists)
    requires DemotedAll(t, p, q, p', q')
    ensures Affordable(p', t.balances, t.maxGas)
  {
    forall a, n | n in At(p', a)
      ensures At(p', a)[n].cost <= Funds(t.balances, a) && At(p', a)[n].gas <= t.maxGas
    {
      assert DemotedAt(t, p, q, p', q', a);
    }
  }

  /** Demotion loses only what is too old or cannot be paid for. */
  lemma LostInDemotion(t: Terms, p: Lists, q: Lists, all: set<Tx>, p': Lists, q': Lists, all': set<Tx>, tx: Tx)
    requires DemotedAll(t, p, q, p', q') && Partition(p, q, all) && Partition(p', q', all') && tx in all && tx !in all'
    ensures tx.nonce < ChainNonce(t.chain, tx.from) || tx.cost > Funds(t.balances, tx.from) || tx.gas > t.maxGas
  {
    hide Partition;
    var a := tx.from;
    PartitionAt(p, q, all, a);
    PartitionAt(p', q', all', a);
    assert DemotedAt(t, p, q, p', q', a);
    NotHeld(At(p', a), At(q', a), all', tx);
    DemotedWhere(At(p, a), At(q, a), ChainNonce(t.chain, a), Funds(t.balances, a), t.maxGas, At(p', a), At(q', a), tx);
  }

  lemma DemotedWhere(p: TxMap, q: TxMap, c: nat, costLimit: nat, gasLimit: nat, p': TxMap, q': TxMap, tx: Tx)
    requires Demoted(p, q, c, costLimit, gasLimit, p', q') && p.Keys !! q.Keys && (Holds(p, tx) || Holds(q, tx))
    ensures Holds(p', tx) || Holds(q', tx) || tx.nonce < c || tx.cost > costLimit || tx.gas > gasLimit
  {
    var list := DropBelow(p, c);
    var left, back := KeepPayable(list, true, costLimit, gasLimit), Invalidated(list, costLimit, gasLimit);
    if Holds(p, tx) && tx.nonce >= c && Payable(tx, costLimit, gasLimit) {
      assert tx.nonce in list;
      assert tx.nonce in left || tx.nonce in back;
    }
  }
}
