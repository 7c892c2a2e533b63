/** The transaction pool of core/tx_pool.go: pending and queued lists per account,
    the lookup of all transactions, the price heap and the virtual nonces.

    The lists are held as their contents; module TxList proves that the list objects
    compute the same functions. A transaction stands for its hash, so the lookup is
    a set. Locking, the journal, events and the clock are outside; the clock enters
    as a parameter.
 */
module TxPool {
  import Heap
  import opened TxList
  import opened PricedList
  import opened PoolState
  import opened PoolLimits
  import opened PoolChanges

  datatype Config = Config(accountSlots: nat, globalSlots: nat, accountQueue: nat, globalQueue: nat, priceBump: nat)

  datatype AddResult =
    | Added(replaced: bool)
    | KnownTransaction | InvalidTransaction | GasLimit | InvalidSender | Underpriced | NonceTooLow | InsufficientFunds
    | IntrinsicGas | ReplaceUnderpriced

  /** The checks on a transaction alone: its size, amounts and recipients, its signature,
      and that its gas covers the intrinsic price. */
  datatype Checks = Checks(shape: bool, signed: bool, gas: bool)

  class Pool {
    const config: Config
    const priced: Priced
    var chain: Nonces
    var balances: map<Address, nat>
    var maxGas: nat
    var gasPrice: nat
    var locals: set<Address>
    var pending: Lists
    var queue: Lists
    var beats: map<Address, nat>
    var all: set<Tx>
    var nonces: Nonces

    /** The lists partition the lookup, the heap tracks it, and every pending list
        is executable: consecutive nonces from the chain's to the virtual one, all of them
        payable. */
    ghost predicate Valid()
      reads this, priced
    {
      && config.accountSlots > 0
      && Partition(pending, queue, all)
      && Executable(pending, nonces, chain)
      && Affordable(pending, balances, maxGas)
      && priced.Tracks(all, {})
    }

    constructor (config: Config, gasPrice: nat)
      requires config.accountSlots > 0
      ensures Valid() && all == {} && this.config == config && Drained(queue, nonces, chain)
    {
      this.config := config;
      this.gasPrice := gasPrice;
      priced := new Priced();
      chain, balances, maxGas, locals := map[], map[], 0, {};
      pending, queue, beats, all, nonces := map[], map[], map[], {}, map[];
    }

    // ----- lookup and heap -----

    /** all.Remove and priced.Removed, for each of the given transactions. */
    method Forget(gone: set<Tx>)
      requires gone <= all && priced.Tracks(all, {})
      modifies this`all, priced
      ensures all == old(all) - gone && priced.Tracks(all, {})
    {
      hide *;
      var todo := gone;
      while todo != {}
        invariant todo <= gone && all == old(all) - (gone - todo) && priced.Tracks(all, {})
        decreases todo
      {
        var tx :| tx in todo;
        todo := todo - {tx};
        ghost var before := all;
        all := all - {tx};
        assert before == all + {tx};
        priced.Removed(all, tx);
      }
    }

    /** enqueueTx: into the queue, unless the queue already holds a better one. */
    method EnqueueTx(tx: Tx, ghost owed: set<Tx>) returns (inserted: bool, replaced: bool)
      requires priced.Tracks(all, owed)
      requires tx !in all || tx.nonce in At(queue, tx.from) ==> owed == {}
      requires tx.nonce in At(queue, tx.from) ==> At(queue, tx.from)[tx.nonce] in all - {tx}
      modifies this`queue, this`all, priced
      ensures inserted == Replaces(At(old(queue), tx.from), tx, config.priceBump)
      ensures replaced == (inserted && tx.nonce in At(old(queue), tx.from))
      ensures queue == if inserted then old(queue)[tx.from := With(At(old(queue), tx.from), tx)] else old(queue)
      ensures inserted ==> all == (if replaced then old(all) - {At(old(queue), tx.from)[tx.nonce]} else old(all)) + {tx}
      ensures !inserted ==> all == old(all)
      ensures priced.Tracks(all, owed)
    {
      hide *;
      var list := At(queue, tx.from);
      inserted := Replaces(list, tx, config.priceBump);
      replaced := false;
      if !inserted {
        return;
      }
      queue := queue[tx.from := With(list, tx)];
      if tx.nonce in list {
        replaced := true;
        ghost var before := all;
        all := all - {list[tx.nonce]};
        assert before == all + {list[tx.nonce]};
        priced.Removed(all, list[tx.nonce]);
      }
      if tx !in all {
        priced.Put(tx, all);
        all := all + {tx};
      }
    }

    /** enqueueTx for each of `moved`, transactions of account `a` that left its pending
        list: all are taken, and lookup and heap stay as they are. */
    method EnqueueAll(moved: TxMap, a: Address, ghost owed: set<Tx>)
      requires priced.Tracks(all, owed) && NoEmptyList(queue)
      requires Owned(moved, a) && At(queue, a).Keys !! moved.Keys && Values(moved) <= all
      modifies this`queue, this`all, priced
      ensures queue == Set(old(queue), a, At(old(queue), a) + moved)
      ensures all == old(all) && priced.Tracks(all, owed)
    {
      hide *;
      ghost var q := At(queue, a);
      var todo := moved;
      MovedAll(q, moved);
      SetSame(queue, a);
      while todo != map[]
        invariant todo.Keys <= moved.Keys
        invariant queue == Set(old(queue), a, q + Minus(moved, todo))
        invariant all == old(all) && priced.Tracks(all, owed)
        decreases |todo|
      {
        var n :| n in todo;
        var tx := moved[n];
        ghost var q' := q + Minus(moved, todo);
        QueueTakes(q, moved, todo, n, a, config.priceBump);
        SetAt(old(queue), a, q', a);
        ValuesHold(moved, n);
        AlreadyKnown(all, tx);
        var inserted, replaced := EnqueueTx(tx, owed);
        MoveOne(old(queue), a, q', tx);
        OneLess(todo, n);
        todo := todo - {n};
      }
    }

    /** removeTx: out of the lookup and out of its list; pending transactions above it
        go back to the queue and the virtual nonce is lowered. `owed` are the
        transactions already taken off the price heap. */
    method RemoveTx(tx: Tx, outofbound: bool, ghost owed: set<Tx>)
      requires Partition(pending, queue, all) && Executable(pending, nonces, chain) && priced.Tracks(all, owed)
      requires outofbound ==> owed == {}
      requires !outofbound && tx in all ==> tx in owed
      modifies this`pending, this`queue, this`all, this`beats, this`nonces, priced
      ensures Partition(pending, queue, all) && Executable(pending, nonces, chain) && priced.Tracks(all, owed - {tx})
      ensures all == old(all) - {tx}
      ensures tx !in old(all) ==> pending == old(pending) && queue == old(queue) && nonces == old(nonces)
      ensures tx in old(all) && tx.nonce !in At(old(pending), tx.from) ==>
                pending == old(pending) && nonces == old(nonces) &&
                queue == Set(old(queue), tx.from, At(old(queue), tx.from) - {tx.nonce})
      ensures tx in old(all) && tx.nonce in At(old(pending), tx.from) ==>
                pending == Set(old(pending), tx.from, Front(At(old(pending), tx.from), tx.nonce)) &&
                queue == Set(old(queue), tx.from, At(old(queue), tx.from) + Above(At(old(pending), tx.from), tx.nonce))
      ensures Drained(old(queue), old(nonces), chain) ==> Drained(queue, nonces, chain)
    {
      hide *;
      if tx !in all {
        priced.NothingOwed(all, owed, tx);
        return;
      }
      PartitionAt(pending, queue, all, tx.from);
      WhereIs(At(pending, tx.from), At(queue, tx.from), all, tx);
      ghost var before := all;
      all := all - {tx};
      assert before == all + {tx};
      if outofbound {
        priced.Removed(all, tx);
        assert owed - {tx} == {};
      } else {
        priced.PaidOff(before, owed, tx);
      }
      if tx.nonce in At(pending, tx.from) {
        RemoveFromPending(tx, before, owed - {tx});
      } else {
        RemoveFromQueue(tx, before);
        if Drained(old(queue), nonces, chain) { DrainedLess(old(queue), nonces, chain, tx.from, tx.nonce); }
      }
    }

    method RemoveFromPending(tx: Tx, ghost before: set<Tx>, ghost owed: set<Tx>)
      requires Partition(pending, queue, before) && all == before - {tx} && tx in before
      requires tx.nonce in At(pending, tx.from) && At(pending, tx.from)[tx.nonce] == tx
      requires Executable(pending, nonces, chain) && priced.Tracks(all, owed)
      modifies this`pending, this`queue, this`all, this`beats, this`nonces, priced
      ensures Partition(pending, queue, all) && Executable(pending, nonces, chain) && priced.Tracks(all, owed)
      ensures all == old(all)
      ensures pending == Set(old(pending), tx.from, Front(At(old(pending), tx.from), tx.nonce))
      ensures queue == Set(old(queue), tx.from, At(old(queue), tx.from) + Above(At(old(pending), tx.from), tx.nonce))
      ensures Drained(old(queue), old(nonces), chain) ==> Drained(queue, nonces, chain)
    {
      hide *;
      var a := tx.from;
      var p := At(pending, a);
      ghost var q := At(queue, a);
      PartitionAt(pending, queue, before, a);
      RemoveDetails(p, q, before, tx);
      PartitionLists(pending, queue, before);
      ExecutableOf(pending, nonces, chain, a);
      var left := WithoutNonce(p, true, tx.nonce);
      pending := Set(pending, a, left);
      if left == map[] {
        beats := beats - {a};
      }
      EnqueueAll(Above(p, tx.nonce), a, owed);
      SameButOne(before, tx);
      PartitionSet(old(pending), old(queue), before, a, left, q + Above(p, tx.nonce), all);
      InSpan(p, ChainNonce(chain, a), PendingNonce(nonces, chain, a), tx.nonce);
      SpansFront(p, ChainNonce(chain, a), PendingNonce(nonces, chain, a), tx.nonce);
      VirtualNonce(nonces, chain, a, tx.nonce);
      if PendingNonce(nonces, chain, a) > tx.nonce {
        nonces := nonces[a := tx.nonce];
      }
      ExecutableSet(old(pending), old(nonces), chain, a, left, tx.nonce, nonces);
      if Drained(old(queue), old(nonces), chain) { DrainedRemove(old(queue), old(nonces), nonces, chain, p, q, before, tx); }
    }

    method RemoveFromQueue(tx: Tx, ghost before: set<Tx>)
      requires Partition(pending, queue, before) && all == before - {tx} && tx in before
      requires tx.nonce in At(queue, tx.from) && At(queue, tx.from)[tx.nonce] == tx
      modifies this`queue
      ensures Partition(pending, queue, all)
      ensures queue == Set(old(queue), tx.from, At(old(queue), tx.from) - {tx.nonce})
    {
      hide *;
      var a := tx.from;
      ghost var p := At(pending, a);
      var q := At(queue, a);
      PartitionAt(pending, queue, before, a);
      IsHeld(q, tx);
      RemoveQueued(p, q, before, tx);
      queue := Set(queue, a, WithoutNonce(q, false, tx.nonce));
      SameButOne(before, tx);
      PartitionSet(pending, old(queue), before, a, p, q - {tx.nonce}, all);
      PartitionLists(pending, old(queue), before);
      SetSame(pending, a);
    }

    // ----- promotion -----

    /** promoteTx: into the pending list, unless that already holds a better one. */
    method PromoteTx(a: Address, tx: Tx, now: nat) returns (inserted: bool)
      requires priced.Tracks(all, {}) && (tx in all || Replaces(At(pending, a), tx, config.priceBump))
      requires tx.nonce in At(pending, a) ==> At(pending, a)[tx.nonce] in all - {tx}
      modifies this`pending, this`all, this`beats, this`nonces, priced
      ensures inserted == Replaces(At(old(pending), a), tx, config.priceBump)
      ensures pending == if inserted then old(pending)[a := With(At(old(pending), a), tx)] else old(pending)
      ensures nonces == if inserted then old(nonces)[a := tx.nonce + 1] else old(nonces)
      ensures !inserted ==> all == old(all) - {tx}
      ensures inserted ==>
                all == (if tx.nonce in At(old(pending), a) then old(all) - {At(old(pending), a)[tx.nonce]} else old(all)) + {tx}
      ensures priced.Tracks(all, {})
    {
      hide *;
      var list := At(pending, a);
      inserted := Replaces(list, tx, config.priceBump);
      if !inserted {
        Forget({tx});
        return;
      }
      pending := pending[a := With(list, tx)];
      if tx.nonce in list {
        Forget({list[tx.nonce]});
      }
      if tx !in all {
        priced.Put(tx, all);
        all := all + {tx};
      }
      beats := beats[a := now];
      nonces := nonces[a := tx.nonce + 1];
    }

    /** Promote a run of consecutive nonces that starts at the virtual nonce. */
    method PromoteRun(a: Address, run: TxMap, ghost hi: nat, now: nat)
      requires priced.Tracks(all, {}) && NoEmptyList(pending)
      requires Spans(run, PendingNonce(nonces, chain, a), hi)
      requires Owned(run, a) && At(pending, a).Keys !! run.Keys && Values(run) <= all
      modifies this`pending, this`all, this`beats, this`nonces, priced
      ensures pending == Set(old(pending), a, At(old(pending), a) + run)
      ensures PendingNonce(nonces, chain, a) == hi
      ensures forall b :: b != a ==> PendingNonce(nonces, chain, b) == PendingNonce(old(nonces), chain, b)
      ensures all == old(all) && priced.Tracks(all, {})
    {
      hide *;
      ghost var p, lo := At(pending, a), PendingNonce(nonces, chain, a);
      var next := PendingNonce(nonces, chain, a);
      RunEnds(p, run, lo, hi);
      SpanOrder(run, lo, hi);
      SetSame(pending, a);
      while next in run
        invariant lo <= next <= hi && pending == Set(old(pending), a, p + Front(run, next))
        invariant PendingNonce(nonces, chain, a) == next
        invariant forall b :: b != a ==> PendingNonce(nonces, chain, b) == PendingNonce(old(nonces), chain, b)
        invariant all == old(all) && priced.Tracks(all, {})
        decreases hi - next
      {
        InSpan(run, lo, hi, next);
        RunStep(p, run, lo, next, hi, a, config.priceBump);
        SetAt(old(pending), a, p + Front(run, next), a);
        VirtualNonce(nonces, chain, a, next + 1);
        var inserted := PromoteTx(a, run[next], now);
        MoveOne(old(pending), a, p + Front(run, next), run[next]);
        next := next + 1;
      }
      SpanEnd(run, lo, hi, next);
    }

    /** Drop queued transactions that are too old or cannot be paid for. */
    method CleanQueue(a: Address, q: TxMap, ghost p: TxMap) returns (list: TxMap)
      requires AccountOk(p, q, all, a) && priced.Tracks(all, {})
      modifies this`all, priced
      ensures AccountOk(p, list, all, a) && SameElsewhere(old(all), all, a) && priced.Tracks(all, {})
      ensures list == KeepPayable(DropBelow(q, ChainNonce(chain, a)), false, Funds(balances, a), maxGas)
      ensures PartOf(list, DropBelow(q, ChainNonce(chain, a)))
      ensures all <= old(all)
    {
      hide *;
      var lo := ChainNonce(chain, a);
      QueueParts(q, lo, 0, 0, 0);
      AccountDrop(p, q, all, a, DropBelow(q, lo));
      Forget(Values(Front(q, lo)));
      list := DropBelow(q, lo);

      ghost var mid := all;
      var costLimit := Funds(balances, a);
      ghost var from := list;
      QueueParts(list, 0, costLimit, maxGas, 0);
      AccountDrop(p, list, all, a, KeepPayable(list, false, costLimit, maxGas));
      Forget(Values(Unpayable(list, costLimit, maxGas)));
      list := KeepPayable(list, false, costLimit, maxGas);
      SameElsewhereTrans(old(all), mid, all, a);
    }

    /** Drop what exceeds the queue allowance of a non-local account. */
    method CapQueue(a: Address, q: TxMap, ghost p: TxMap) returns (list: TxMap)
      requires AccountOk(p, q, all, a) && priced.Tracks(all, {})
      modifies this`all, priced
      ensures AccountOk(p, list, all, a) && SameElsewhere(old(all), all, a) && priced.Tracks(all, {})
      ensures list == if a in locals then q else Lowest(q, config.accountQueue)
      ensures PartOf(list, q) && (a !in locals ==> |list| <= config.accountQueue)
      ensures all <= old(all)
    {
      hide *;
      var k := config.accountQueue;
      list := q;
      if a !in locals {
        QueueParts(q, 0, 0, 0, k);
        AccountDrop(p, q, all, a, Lowest(q, k));
        LowestSize(q, Lowest(q, k), k);
        Forget(Values(Minus(q, Lowest(q, k))));
        list := Lowest(q, k);
      } else {
        NoChange(q, all, a);
      }
    }

    /** promoteExecutables, for one account: drop what is too old or cannot be paid,
        promote what is ready, and cap the rest. */
    method PromoteAccount(a: Address, now: nat)
      requires Partition(pending, queue, all) && Executable(pending, nonces, chain) && priced.Tracks(all, {})
      modifies this`pending, this`queue, this`all, this`beats, this`nonces, priced
      ensures Partition(pending, queue, all) && Executable(pending, nonces, chain) && priced.Tracks(all, {})
      ensures forall b :: b != a ==> At(pending, b) == At(old(pending), b) && At(queue, b) == At(old(queue), b)
      ensures PendingNonce(nonces, chain, a) !in At(queue, a)
      ensures a in old(queue) && a !in locals ==> Len(queue, a) <= config.accountQueue
      ensures a !in old(queue) ==> queue == old(queue) && At(pending, a) == At(old(pending), a)
      ensures Promoted(Terms(chain, balances, maxGas, locals, config.accountQueue), a, At(old(pending), a), At(old(queue), a),
                       PendingNonce(old(nonces), chain, a), At(pending, a), At(queue, a))
      ensures forall b :: b != a ==> PendingNonce(nonces, chain, b) == PendingNonce(old(nonces), chain, b)
      ensures all <= old(all)
    {
      hide *;
      var n := PendingNonce(nonces, chain, a);
      if a !in queue {
        NothingQueued(queue, a, n);
        PromotedEmpty(Terms(chain, balances, maxGas, locals, config.accountQueue), a, At(pending, a), n);
        return;
      }
      ghost var p, q, lo := At(pending, a), At(queue, a), ChainNonce(chain, a);
      PartitionAt(pending, queue, all, a);
      PartitionLists(pending, queue, all);
      ExecutableOf(pending, nonces, chain, a);
      AccountParts(p, q, all, a);
      QueueBeyond(p, q, lo, n);

      var list := CleanQueue(a, At(queue, a), p);
      ghost var all1 := all;
      ghost var hi := FirstGap(list, n);
      BeyondPart(q, lo, list, n);
      ReadySpans(list, n);
      var run := Run(list, n);
      QueueParts(list, n, 0, 0, 0);
      AccountMove(p, list, all, a, run, AfterRun(list, n));
      PromoteRun(a, run, hi, now);
      SpansJoin(p, run, lo, n, hi);
      ExecutableSet(old(pending), old(nonces), chain, a, p + run, hi, nonces);

      var rest := CapQueue(a, AfterRun(list, n), p + run);
      queue := Set(queue, a, rest);
      SameElsewhereTrans(old(all), all1, all, a);
      PartitionSet(old(pending), old(queue), old(all), a, p + run, rest, all);
      GapNotQueued(list, n, rest);
      IsPromoted(Terms(chain, balances, maxGas, locals, config.accountQueue), a, p, q, n, list, rest);
      SetAt(old(queue), a, rest, a);
      SetAt(old(pending), a, p + run, a);
      LenAt(queue, a);
      ElsewhereSame(old(pending), a, p + run);
      ElsewhereSame(old(queue), a, rest);
    }

    // ----- the pending limit -----

    /** Cap one pending list to one less: its highest nonce goes, and the virtual
        nonce with it. */
    method CapOne(a: Address)
      requires Partition(pending, queue, all) && Executable(pending, nonces, chain) && priced.Tracks(all, {})
      requires Len(pending, a) > 0
      modifies this`pending, this`all, this`nonces, priced
      ensures Partition(pending, queue, all) && Executable(pending, nonces, chain) && priced.Tracks(all, {})
      ensures exists m: TxMap :: pending == Set(old(pending), a, m) && |m| == Len(old(pending), a) - 1 && LowerPart(m, At(old(pending), a))
      ensures all <= old(all)
    {
      hide *;
      ghost var p, lo, hi := At(pending, a), ChainNonce(chain, a), PendingNonce(nonces, chain, a);
      LenAt(pending, a);
      ExecutableOf(pending, nonces, chain, a);
      SpanTop(p, lo, hi);
      var dropped := DropTop(a, lo, hi);
      if PendingNonce(nonces, chain, a) > dropped {
        nonces := nonces[a := dropped];
      }
      ExecutableLess(old(pending), old(nonces), chain, a, Front(p, hi - 1), hi - 1);
      FrontIsLower(p, hi - 1);
    }

    /** The highest nonce of a pending list leaves list, lookup and heap. */
    method DropTop(a: Address, ghost lo: nat, ghost hi: nat) returns (dropped: nat)
      requires Partition(pending, queue, all) && priced.Tracks(all, {}) && Spans(At(pending, a), lo, hi) && At(pending, a) != map[]
      modifies this`pending, this`all, priced
      ensures Partition(pending, queue, all) && priced.Tracks(all, {}) && all <= old(all)
      ensures dropped == hi - 1 && pending == Set(old(pending), a, Front(At(old(pending), a), hi - 1))
    {
      hide *;
      var p := At(pending, a);
      ghost var q := At(queue, a);
      PartitionAt(pending, queue, all, a);
      PartitionLists(pending, queue, all);
      SpanTop(p, lo, hi);
      SpanDrop(p, lo, hi);
      var left := Lowest(p, |p| - 1);
      AccountDropPending(p, q, all, a, left);
      PartitionSet(pending, queue, all, a, left, q, all - Values(Minus(p, left)));
      SetSame(queue, a);
      dropped :| dropped in Minus(p, left);
      OnlyTop(p, lo, hi, dropped);
      Forget(Values(Minus(p, left)));
      pending := Set(pending, a, left);
    }

    /** One round: every account of the group loses its highest pending nonce. */
    method Round(group: seq<Address>, ghost k: nat)
      requires Partition(pending, queue, all) && Executable(pending, nonces, chain) && priced.Tracks(all, {})
      requires Distinct(group) && Level(pending, group, k) && k > 0
      modifies this`pending, this`all, this`nonces, priced
      ensures Partition(pending, queue, all) && Executable(pending, nonces, chain) && priced.Tracks(all, {})
      ensures Level(pending, group, k - 1) && OnlyGroup(old(pending), pending, group)
      ensures Total(pending) == Total(old(pending)) - |group| && LowestStay(old(pending), pending)
      ensures all <= old(all)
    {
      hide *;
      HalfEnds(pending, group, k);
      SameGroup(pending, group);
      LowestStaySelf(pending);
      for i := 0 to |group|
        invariant Partition(pending, queue, all) && Executable(pending, nonces, chain) && priced.Tracks(all, {})
        invariant HalfLowered(pending, group, i, k) && OnlyGroup(old(pending), pending, group) && all <= old(all)
        invariant Total(pending) == Total(old(pending)) - i && LowestStay(old(pending), pending)
      {
        ghost var before := pending;
        HalfAt(pending, group, i, k);
        CapOne(group[i]);
        ghost var m :| pending == Set(before, group[i], m) && |m| == Len(before, group[i]) - 1 && LowerPart(m, At(before, group[i]));
        LowestStaySet(old(pending), before, group[i], m);
        LowerOne(before, pending, group, i, k, m);
      }
      HalfEnds(pending, group, k);
    }

    /** Lower a level group, round by round, until the limit is met or the group is
        down to `floor`. */
    method Lower(group: seq<Address>, floor: nat, total: nat, ghost k: nat) returns (left: nat, ghost k': nat)
      requires Partition(pending, queue, all) && Executable(pending, nonces, chain) && priced.Tracks(all, {})
      requires group != [] && Distinct(group) && Level(pending, group, k) && floor <= k && total == Total(pending)
      modifies this`pending, this`all, this`nonces, priced
      ensures Partition(pending, queue, all) && Executable(pending, nonces, chain) && priced.Tracks(all, {})
      ensures Lowered(old(pending), pending, group, k', floor) && k' <= k
      ensures left == Total(pending) && (left <= config.globalSlots || k' == floor)
      ensures if k' < k then left + |group| > config.globalSlots else left == total
      ensures all <= old(all) && LowestStay(old(pending), pending)
    {
      hide *;
      left, k' := total, k;
      SameGroup(pending, group);
      LowestStaySelf(pending);
      while left > config.globalSlots && Len(pending, group[|group| - 1]) > floor
        invariant Partition(pending, queue, all) && Executable(pending, nonces, chain) && priced.Tracks(all, {})
        invariant Level(pending, group, k') && OnlyGroup(old(pending), pending, group) && floor <= k' <= k && all <= old(all)
        invariant LowestStay(old(pending), pending)
        invariant left == Total(pending) && if k' < k then left + |group| > config.globalSlots else left == total
        decreases k'
      {
        LevelAt(pending, group, k', |group| - 1);
        ghost var before := pending;
        Round(group, k');
        OnlyGroupTrans(old(pending), before, pending, group);
        LowestStayTrans(old(pending), before, pending);
        k' := k' - 1;
        left := left - |group|;
      }
      LevelAt(pending, group, k', |group| - 1);
      IsLowered(old(pending), pending, group, k', floor);
    }

    /** The pending half of the limits: heavy non-local senders are brought down
        together until the limit is met or they are all at their allowance. */
    method CapPending()
      requires Partition(pending, queue, all) && Executable(pending, nonces, chain) && priced.Tracks(all, {})
      requires config.accountSlots > 0
      modifies this`pending, this`all, this`nonces, priced
      ensures Partition(pending, queue, all) && Executable(pending, nonces, chain) && priced.Tracks(all, {})
      ensures Total(pending) <= config.globalSlots || forall a :: a !in locals ==> Len(pending, a) <= config.accountSlots
      ensures forall a :: At(pending, a) != At(old(pending), a) ==>
                a !in locals && config.accountSlots <= Len(pending, a) <= Len(old(pending), a)
      ensures Total(old(pending)) <= config.globalSlots ==> pending == old(pending) && nonces == old(nonces)
      ensures Fairest(old(pending), pending, locals) && LowestStay(old(pending), pending)
      ensures Total(old(pending)) > config.globalSlots ==> Total(pending) + |CutFrom(old(pending), pending)| > config.globalSlots
      ensures all <= old(all)
    {
      hide *;
      FairestSelf(pending, locals);
      LowestStaySelf(pending);
      var total := Count(pending);
      if total <= config.globalSlots {
        return;
      }
      var spammers := Spammers(pending, locals, config.accountSlots);
      var offenders: seq<Address> := [];
      ghost var k := 0;
      NoOffenders(pending, spammers, locals, config.accountSlots);
      while total > config.globalSlots && spammers != map[]
        invariant Partition(pending, queue, all) && Executable(pending, nonces, chain) && priced.Tracks(all, {})
        invariant total == Total(pending) && all <= old(all)
        invariant Heavy(pending, spammers, locals, config.accountSlots)
        invariant Covered(pending, spammers, offenders, locals, config.accountSlots)
        invariant Offending(pending, old(pending), spammers, offenders, locals, config.accountSlots)
        invariant LowestStay(old(pending), pending)
        invariant Fairest(old(pending), pending, locals) && total + |CutFrom(old(pending), pending)| > config.globalSlots
        invariant total > config.globalSlots && offenders != [] ==>
                    LevelAbove(pending, spammers, offenders, k, config.accountSlots)
        decreases |spammers|
      {
        var offender := PopHeaviest(spammers);
        NewOffender(pending, old(pending), spammers, offenders, offender, locals, config.accountSlots);
        ghost var heavy := spammers;
        spammers := spammers - {offender};
        Fewer(heavy, offender);
        var group := offenders;
        offenders := offenders + [offender];
        if group == [] {
          k := Len(pending, offender);
          FirstOffender(pending, heavy, spammers, offender, config.accountSlots);
        } else {
          var threshold := Len(pending, offender);
          JoinsBelow(pending, heavy, group, offender, k, config.accountSlots);
          ghost var before := pending;
          DistinctPart(pending, old(pending), spammers, group, offender, locals, config.accountSlots);
          ghost var k';
          total, k' := Lower(group, threshold, total, k);
          LowestStayTrans(old(pending), before, pending);
          FairestAfter(before, pending, old(pending), heavy, group, offender, k', locals, config.accountSlots);
          CutAfter(before, pending, old(pending), heavy, group, k, k', total, threshold, config.globalSlots, locals, config.accountSlots);
          AfterLowering(before, pending, old(pending), spammers, group, offender, k, k', locals, config.accountSlots);
          if total > config.globalSlots {
            LevelAgain(pending, heavy, spammers, offenders, k', offender, config.accountSlots);
          }
          k := k';
        }
      }
      if total > config.globalSlots && offenders != [] {
        ghost var before := pending;
        LowerLast(offenders, total, k, old(pending), spammers);
        LowestStayTrans(old(pending), before, pending);
      } else {
        OffendersOnly(pending, old(pending), spammers, offenders, locals, config.accountSlots);
      }
    }

    /** Still above the limit: all offenders, level by now, are lowered to their allowance. */
    method LowerLast(offenders: seq<Address>, total: nat, ghost k: nat, ghost base: Lists, ghost spammers: map<Address, nat>)
      requires Partition(pending, queue, all) && Executable(pending, nonces, chain) && priced.Tracks(all, {})
      requires offenders != [] && total == Total(pending) > config.globalSlots && spammers == map[]
      requires Covered(pending, spammers, offenders, locals, config.accountSlots)
      requires Offending(pending, base, spammers, offenders, locals, config.accountSlots)
      requires LevelAbove(pending, spammers, offenders, k, config.accountSlots)
      modifies this`pending, this`all, this`nonces, priced
      ensures Partition(pending, queue, all) && Executable(pending, nonces, chain) && priced.Tracks(all, {})
      ensures Total(pending) <= config.globalSlots || forall a :: a !in locals ==> Len(pending, a) <= config.accountSlots
      ensures forall a :: At(pending, a) != At(base, a) ==> a !in locals && config.accountSlots <= Len(pending, a) <= Len(base, a)
      ensures Fairest(base, pending, locals) && Total(pending) + |CutFrom(base, pending)| > config.globalSlots
      ensures all <= old(all) && LowestStay(old(pending), pending)
    {
      hide *;
      LastLowering(pending, base, spammers, offenders, k, locals, config.accountSlots);
      ghost var k';
      var left;
      left, k' := Lower(offenders, config.accountSlots, total, k);
      AllLow(old(pending), pending, base, spammers, offenders, k, k', locals, config.accountSlots);
      CutAfter(old(pending), pending, base, spammers, offenders, k, k', left, config.accountSlots, config.globalSlots, locals, config.accountSlots);
    }

    // ----- the queue limit -----

    /** removeTx of a queued transaction. */
    method DropQueued(a: Address, n: nat)
      requires Partition(pending, queue, all) && Executable(pending, nonces, chain) && priced.Tracks(all, {})
      requires n in At(queue, a)
      modifies this`pending, this`queue, this`all, this`beats, this`nonces, priced
      ensures Partition(pending, queue, all) && Executable(pending, nonces, chain) && priced.Tracks(all, {})
      ensures pending == old(pending) && nonces == old(nonces)
      ensures queue == Set(old(queue), a, At(old(queue), a) - {n})
      ensures Total(queue) == Total(old(queue)) - 1 && |At(old(queue), a) - {n}| == |At(old(queue), a)| - 1
      ensures all <= old(all)
    {
      hide *;
      var tx := At(queue, a)[n];
      PartitionAt(pending, queue, all, a);
      QueuedTx(At(pending, a), At(queue, a), all, a, n);
      RemoveTx(tx, true, {});
      assert {} - {tx} == {};
      OneLess(At(old(queue), a), n);
      LenAt(old(queue), a);
      TotalSet(old(queue), a, At(old(queue), a) - {n});
    }

    /** Drop the `n` highest nonces of a queue. */
    method DropHighest(a: Address, n: nat)
      requires Partition(pending, queue, all) && Executable(pending, nonces, chain) && priced.Tracks(all, {})
      requires n <= Len(queue, a)
      modifies this`pending, this`queue, this`all, this`beats, this`nonces, priced
      ensures Partition(pending, queue, all) && Executable(pending, nonces, chain) && priced.Tracks(all, {})
      ensures pending == old(pending) && nonces == old(nonces)
      ensures Total(queue) == Total(old(queue)) - n
      ensures exists m: TxMap :: queue == Set(old(queue), a, m) && |m| == Len(old(queue), a) - n && LowerPart(m, At(old(queue), a))
      ensures all <= old(all)
    {
      hide *;
      ghost var m := At(queue, a);
      LenAt(queue, a);
      PartitionLists(pending, queue, all);
      SetSame(queue, a);
      WholePart(m);
      for i := 0 to n
        invariant Partition(pending, queue, all) && Executable(pending, nonces, chain) && priced.Tracks(all, {})
        invariant pending == old(pending) && nonces == old(nonces) && all <= old(all)
        invariant Total(queue) == Total(old(queue)) - i
        invariant queue == Set(old(queue), a, m) && |m| == Len(old(queue), a) - i && LowerPart(m, At(old(queue), a))
      {
        SetAt(old(queue), a, m, a);
        var top := HighestNonce(At(queue, a));
        DropQueued(a, top);
        SetTwice(old(queue), a, m, m - {top});
        PartWithoutTop(m, At(old(queue), a), top);
        m := m - {top};
      }
    }

    /** One account's queue goes, or as many of its highest nonces as are still to drop. */
    method EvictOne(a: Address, drop: nat) returns (left: nat, ghost m: TxMap)
      requires Partition(pending, queue, all) && Executable(pending, nonces, chain) && priced.Tracks(all, {}) && drop > 0
      modifies this`pending, this`queue, this`all, this`beats, this`nonces, priced
      ensures Partition(pending, queue, all) && Executable(pending, nonces, chain) && priced.Tracks(all, {})
      ensures pending == old(pending) && nonces == old(nonces) && all <= old(all)
      ensures queue == Set(old(queue), a, m) && LowerPart(m, At(old(queue), a)) && Total(queue) + drop == Total(old(queue)) + left
      ensures left > 0 ==> queue == old(queue) - {a}
    {
      hide *;
      var size := Len(queue, a);
      if size <= drop {
        DropHighest(a, size);
        GoneEntirely(old(queue), queue, a);
        left := drop - size;
      } else {
        DropHighest(a, drop);
        left := 0;
      }
      m :| queue == Set(old(queue), a, m) && LowerPart(m, At(old(queue), a));
    }

    /** The queue half of the limits: whole queues of the accounts last heard from go,
        the last of them only as far as needed. */
    method CapQueues()
      requires Partition(pending, queue, all) && Executable(pending, nonces, chain) && priced.Tracks(all, {})
      modifies this`pending, this`queue, this`all, this`beats, this`nonces, priced
      ensures Partition(pending, queue, all) && Executable(pending, nonces, chain) && priced.Tracks(all, {})
      ensures pending == old(pending) && nonces == old(nonces)
      ensures Total(queue) <= config.globalQueue || forall a :: a in queue ==> a in locals
      ensures Total(old(queue)) <= config.globalQueue ==> queue == old(queue)
      ensures Total(old(queue)) > config.globalQueue ==> Total(queue) >= config.globalQueue
      ensures Shrunk(old(queue), queue) && LatestFirst(old(queue), queue, old(beats), locals) && LowestStay(old(queue), queue)
      ensures all <= old(all)
    {
      hide *;
      ShrunkSelf(queue);
      LatestFirstSelf(queue, beats, locals);
      LowestStaySelf(queue);
      var queued := Count(queue);
      if queued <= config.globalQueue {
        return;
      }
      var addresses := ByHeartbeat(queue, beats, locals);
      ghost var order := addresses;
      WalkedNone(order, queue);
      EvictableMeans(queue, order, locals);
      var drop: nat := queued - config.globalQueue;
      while drop > 0 && addresses != []
        invariant addresses == order[..|addresses|] && Walked(order, |addresses|, old(queue), queue, drop == 0)
        invariant Partition(pending, queue, all) && Executable(pending, nonces, chain) && priced.Tracks(all, {})
        invariant pending == old(pending) && nonces == old(nonces)
        invariant Total(queue) == config.globalQueue + drop && all <= old(all)
        invariant drop > 0 ==> Evictable(queue, addresses, locals)
        invariant Shrunk(old(queue), queue) && LowestStay(old(queue), queue)
        decreases |addresses|
      {
        var a := addresses[|addresses| - 1];
        EvictedLast(queue, addresses, locals);
        addresses := addresses[..|addresses| - 1];
        ghost var before, m := queue, map[];
        drop, m := EvictOne(a, drop);
        IsPart(m, At(before, a));
        ShrunkOne(old(queue), before, a, m);
        LowestStaySet(old(queue), before, a, m);
        WalkedOne(order, |addresses| + 1, old(queue), before, m, queue, drop == 0);
      }
      PartitionLists(pending, queue, all);
      WalkedLatestFirst(order, |addresses|, old(queue), queue, drop == 0, old(beats), locals);
      if drop > 0 { OnlyLocals(queue, addresses, locals); }
    }

    // ----- promoteExecutables -----

    /** promoteExecutables: promote account by account, then enforce both limits. The lists
        between the two are `p` and `q`; what leaves the pool does so for a reason. */
    method PromoteExecutables(accounts: seq<Address>, now: nat) returns (ghost p: Lists, ghost q: Lists)
      requires Valid()
      modifies this`pending, this`queue, this`all, this`beats, this`nonces, priced
      ensures Valid()
      ensures Total(pending) <= config.globalSlots || forall a :: a !in locals ==> Len(pending, a) <= config.accountSlots
      ensures Total(queue) <= config.globalQueue || forall a :: a in queue ==> a in locals
      ensures forall a :: a in accounts && a !in locals && a in old(queue) ==> Len(queue, a) <= config.accountQueue
      ensures DrainedMore(old(queue), old(nonces), queue, nonces, chain, accounts)
      ensures all <= old(all)
      ensures var t := Terms(chain, balances, maxGas, locals, config.accountQueue);
        && PromotedAll(t, old(pending), old(queue), old(nonces), accounts, p, q)
        && Limited(p, q, pending, queue, locals, config.globalSlots, config.globalQueue)
        && forall tx :: tx in old(all) - all ==> Lost(t, old(queue), p, q, config.globalSlots, config.globalQueue, tx)
    {
      hide *;
      Unfold();
      DrainedSame(queue, nonces, chain);
      ghost var t := Terms(chain, balances, maxGas, locals, config.accountQueue);
      PromotedNone(t, pending, queue, nonces);
      for i := 0 to |accounts|
        invariant Partition(pending, queue, all) && Executable(pending, nonces, chain) && priced.Tracks(all, {})
        invariant DrainedMore(old(queue), old(nonces), queue, nonces, chain, accounts[..i]) && all <= old(all)
        invariant forall a :: a in old(queue) && a !in locals && a in accounts[..i] ==> Len(queue, a) <= config.accountQueue
        invariant forall a :: a !in accounts[..i] ==> At(queue, a) == At(old(queue), a)
        invariant PromotedAll(t, old(pending), old(queue), old(nonces), accounts[..i], pending, queue)
      {
        ghost var before, was, lists := queue, nonces, pending;
        PromoteAccount(accounts[i], now);
        assert accounts[..i + 1] == accounts[..i] + [accounts[i]];
        DrainedNext(old(queue), old(nonces), before, was, queue, nonces, chain, accounts[..i], accounts[i]);
        NextAccount(old(queue), before, queue, accounts, i, locals, config.accountQueue);
        PromotedNext(t, old(pending), old(queue), old(all), old(nonces), accounts[..i], lists, before, was, accounts[i], pending, queue);
      }
      assert accounts[..|accounts|] == accounts;
      p, q := pending, queue;
      PromotedAffordable(t, old(pending), old(queue), old(nonces), accounts, p, q);
      EnforceLimits(old(queue), old(nonces), accounts);
      forall tx | tx in old(all) - all ensures Lost(t, old(queue), p, q, config.globalSlots, config.globalQueue, tx) {
        LostInPromotion(t, old(pending), old(queue), old(all), old(nonces), accounts, p, q, pending, queue, all,
                        config.globalSlots, config.globalQueue, tx);
      }
      Fold();
    }

    /** The end of promoteExecutables. */
    method EnforceLimits(ghost queue0: Lists, ghost nonces0: Nonces, ghost done: seq<Address>)
      requires Partition(pending, queue, all) && Executable(pending, nonces, chain) && priced.Tracks(all, {})
      requires config.accountSlots > 0 && Affordable(pending, balances, maxGas)
      requires DrainedMore(queue0, nonces0, queue, nonces, chain, done)
      modifies this`pending, this`queue, this`all, this`beats, this`nonces, priced
      ensures Partition(pending, queue, all) && Executable(pending, nonces, chain) && priced.Tracks(all, {})
      ensures Affordable(pending, balances, maxGas) && DrainedMore(queue0, nonces0, queue, nonces, chain, done) && all <= old(all)
      ensures Total(pending) <= config.globalSlots || forall a :: a !in locals ==> Len(pending, a) <= config.accountSlots
      ensures Total(queue) <= config.globalQueue || forall a :: a in queue ==> a in locals
      ensures forall a :: Len(queue, a) <= Len(old(queue), a)
      ensures Limited(old(pending), old(queue), pending, queue, locals, config.globalSlots, config.globalQueue)
    {
      hide *;
      CapPending();
      DrainedCapped(queue0, nonces0, queue, old(all), old(pending), old(nonces), pending, nonces, chain, done);
      LowestStayShrinks(old(pending), pending);
      AffordableLess(old(pending), pending, balances, maxGas);
      ghost var lists := pending;
      CapQueues();
      DrainedShrunk(queue0, nonces0, old(queue), queue, nonces, chain, done);
      StillCapped(old(queue), queue);
      LatestFirstMeans(old(queue), queue, old(beats), locals);
      LimitedIs(old(pending), old(queue), pending, queue, locals, config.globalSlots, config.globalQueue);
    }

    lemma Unfold()
      requires Valid()
      ensures config.accountSlots > 0 && Partition(pending, queue, all) && Executable(pending, nonces, chain)
      ensures priced.Tracks(all, {}) && Affordable(pending, balances, maxGas)
    {
    }

    lemma Fold()
      requires config.accountSlots > 0 && Partition(pending, queue, all) && Executable(pending, nonces, chain)
      requires priced.Tracks(all, {}) && Affordable(pending, balances, maxGas)
      ensures Valid()
    {
    }

    // ----- demoteUnexecutables and reset -----

    /** demoteUnexecutables, for one account: what is mined or cannot be paid goes, what
        follows it returns to the queue, and so does everything behind a front gap. */
    method DemoteAccount(a: Address)
      requires Partition(pending, queue, all) && priced.Tracks(all, {}) && Block(At(pending, a))
      modifies this`pending, this`queue, this`all, this`beats, priced
      ensures Partition(pending, queue, all) && priced.Tracks(all, {})
      ensures FromChain(pending, chain, a)
      ensures forall b :: b != a ==> At(pending, b) == At(old(pending), b) && At(queue, b) == At(old(queue), b)
      ensures Demoted(At(old(pending), a), At(old(queue), a), ChainNonce(chain, a), Funds(balances, a), maxGas, At(pending, a), At(queue, a))
      ensures all <= old(all)
    {
      hide *;
      var p, c, costLimit := At(pending, a), ChainNonce(chain, a), Funds(balances, a);
      ghost var q := At(queue, a);
      PartitionAt(pending, queue, all, a);
      PartitionLists(pending, queue, all);
      DemotedBlock(p, c, costLimit, maxGas);

      FrontParts(p, c);
      AccountDropPending(p, q, all, a, DropBelow(p, c));
      Forget(Values(Front(p, c)));
      var list := DropBelow(p, c);
      ghost var all1 := all;

      StrictParts(list, costLimit, maxGas);
      AccountDropPending(list, q, all, a, Minus(list, Unpayable(list, costLimit, maxGas)));
      Forget(Values(Unpayable(list, costLimit, maxGas)));
      SameElsewhereTrans(old(all), all1, all, a);

      var invalids := Invalidated(list, costLimit, maxGas);
      AccountDemote(Minus(list, Unpayable(list, costLimit, maxGas)), q, all, a, invalids);
      EnqueueAll(invalids, a, {});
      list := KeepPayable(list, true, costLimit, maxGas);
      ghost var q' := q + invalids;
      SetAt(old(queue), a, q', a);

      if list != map[] && c !in list {
        MoveAll(list);
        AccountDemote(list, q', all, a, list);
        SetKeepsNonEmpty(old(queue), a, q');
        EnqueueAll(list, a, {});
        SetTwice(old(queue), a, q', q' + list);
        q' := q' + list;
        list := map[];
      }
      if list == map[] {
        beats := beats - {a};
      }
      pending := Set(pending, a, list);
      PartitionSet(old(pending), old(queue), old(all), a, list, q', all);
      SetAt(old(pending), a, list, a);
      SpansOrNothing(pending, chain, a, list);
      ElsewhereSame(old(pending), a, list);
      ElsewhereSame(old(queue), a, q');
      SetAt(old(queue), a, q', a);
      DemotedIs(p, q, c, costLimit, maxGas, list, q');
    }

    /** demoteUnexecutables: every account is demoted. */
    method DemoteUnexecutables()
      requires Partition(pending, queue, all) && priced.Tracks(all, {})
      requires forall a :: Block(At(pending, a))
      modifies this`pending, this`queue, this`all, this`beats, priced
      ensures Partition(pending, queue, all) && priced.Tracks(all, {})
      ensures forall a :: FromChain(pending, chain, a)
      ensures DemotedAll(Terms(chain, balances, maxGas, locals, config.accountQueue), old(pending), old(queue), pending, queue)
      ensures all <= old(all)
    {
      hide *;
      var todo := pending.Keys;
      ghost var t := Terms(chain, balances, maxGas, locals, config.accountQueue);
      OthersFromChain(pending, chain, todo);
      NothingToDemote(t, pending, queue);
      while todo != {}
        invariant Partition(pending, queue, all) && priced.Tracks(all, {})
        invariant forall a :: Block(At(pending, a))
        invariant forall a :: a !in todo ==> FromChain(pending, chain, a)
        invariant DemotedBut(t, old(pending), old(queue), pending, queue, todo)
        invariant all <= old(all)
        decreases todo
      {
        var a :| a in todo;
        ghost var before, waiting := pending, queue;
        DemoteAccount(a);
        DemotedOne(before, pending, chain, a, todo);
        DemotedNext(t, old(pending), old(queue), before, waiting, pending, queue, a, todo);
        todo := todo - {a};
      }
      DemotedEverywhere(t, old(pending), old(queue), pending, queue);
    }

    /** reset, when no block left the chain: new chain state, fresh virtual nonces. Every
        account is demoted, to `p0` and `q0`, and then promoted, to `p1` and `q1`, before
        the limits are enforced. */
    method Reset(newChain: Nonces, newBalances: map<Address, nat>, newMaxGas: nat, now: nat)
      returns (ghost p0: Lists, ghost q0: Lists, ghost p1: Lists, ghost q1: Lists)
      requires Valid()
      modifies this`chain, this`balances, this`maxGas, this`pending, this`queue, this`all, this`beats, this`nonces, priced
      ensures Valid()
      ensures chain == newChain && balances == newBalances && maxGas == newMaxGas
      ensures Total(pending) <= config.globalSlots || forall a :: a !in locals ==> Len(pending, a) <= config.accountSlots
      ensures Total(queue) <= config.globalQueue || forall a :: a in queue ==> a in locals
      ensures Drained(queue, nonces, chain)
      ensures all <= old(all)
      ensures forall a, n :: n in At(pending, a) ==> At(pending, a)[n].cost <= Funds(balances, a) && At(pending, a)[n].gas <= maxGas
      ensures var t := Terms(chain, balances, maxGas, locals, config.accountQueue);
        && DemotedAll(t, old(pending), old(queue), p0, q0)
        && (forall a :: Promoted(t, a, At(p0, a), At(q0, a), ChainNonce(chain, a) + |At(p0, a)|, At(p1, a), At(q1, a)))
        && Limited(p1, q1, pending, queue, locals, config.globalSlots, config.globalQueue)
        && forall tx :: tx in old(all) - all ==> Lost(t, q0, p1, q1, config.globalSlots, config.globalQueue, tx)
    {
      hide *;
      Unfold();
      AllBlocks(pending, nonces, chain);
      chain, balances, maxGas, nonces := newChain, newBalances, newMaxGas, map[];
      ghost var t := Terms(chain, balances, maxGas, locals, config.accountQueue);
      DemoteUnexecutables();
      DemotedAffordable(t, old(pending), old(queue), pending, queue);
      ghost var known := all;
      RenewNonces();
      p0, q0 := pending, queue;
      Fold();
      var accounts := Heap.Listing(queue.Keys);
      ghost var was := nonces;
      p1, q1 := PromoteExecutables(accounts, now);
      DrainedAll(q0, was, queue, nonces, chain, accounts);
      PromotedEverywhere(t, p0, q0, was, accounts, p1, q1);
      Unfold();
      AffordableMeans(pending, balances, maxGas);
      forall tx | tx in old(all) - all ensures Lost(t, q0, p1, q1, config.globalSlots, config.globalQueue, tx) {
        if tx !in known {
          LostInDemotion(t, old(pending), old(queue), old(all), p0, q0, known, tx);
          LostEarly(t, q0, p1, q1, config.globalSlots, config.globalQueue, tx);
        }
      }
    }

    /** The virtual nonces are set behind the pending lists. */
    method RenewNonces()
      requires Partition(pending, queue, all) && nonces == map[] && forall a :: FromChain(pending, chain, a)
      modifies this`nonces
      ensures Executable(pending, nonces, chain)
    {
      hide *;
      var todo := pending.Keys;
      NoNonces(pending, chain, todo);
      while todo != {}
        invariant todo <= pending.Keys
        invariant forall a :: a !in todo ==> ExecutableAt(pending, nonces, chain, a)
        decreases todo
      {
        var a :| a in todo;
        PartitionLists(pending, queue, all);
        NotEmpty(pending, a);
        var last := HighestNonce(pending[a]);
        NonceSet(pending, nonces, chain, a, last, todo);
        nonces := nonces[a := last + 1];
        todo := todo - {a};
      }
      AllExecutable(pending, nonces, chain);
    }

    // ----- adding transactions -----

    /** Remove what Discard or Cap took off the price heap. */
    method DropTaken(drop: seq<Tx>)
      requires Partition(pending, queue, all) && Executable(pending, nonces, chain)
      requires priced.Tracks(all, set t | t in drop)
      modifies this`pending, this`queue, this`all, this`beats, this`nonces, priced
      ensures Partition(pending, queue, all) && Executable(pending, nonces, chain) && priced.Tracks(all, {})
      ensures all == old(all) - set t | t in drop
      ensures drop == [] ==> pending == old(pending) && queue == old(queue) && nonces == old(nonces)
      ensures Drained(old(queue), old(nonces), chain) ==> Drained(queue, nonces, chain)
      ensures LowestStay(old(pending), pending) && Untouched(old(pending), old(queue), pending, queue, old(all) - all)
    {
      hide *;
      ghost var owed := set t | t in drop;
      LowestStaySelf(pending);
      NothingTouched(pending, queue, {});
      assert old(all) - all == {};
      for i := 0 to |drop|
        invariant LowestStay(old(pending), pending) && Untouched(old(pending), old(queue), pending, queue, old(all) - all)
        invariant i == 0 ==> pending == old(pending) && queue == old(queue) && nonces == old(nonces)
        invariant Drained(old(queue), old(nonces), chain) ==> Drained(queue, nonces, chain)
        invariant Partition(pending, queue, all) && Executable(pending, nonces, chain) && priced.Tracks(all, owed)
        invariant all == old(all) - set t | t in drop[..i]
        invariant owed == (set t | t in drop) - set t | t in drop[..i]
      {
        assert drop[..i + 1] == drop[..i] + [drop[i]];
        ghost var p, q, known := pending, queue, all;
        RemoveTx(drop[i], false, owed);
        DropOne(old(pending), old(queue), old(all), p, q, known, drop[i], pending, queue);
        owed := owed - {drop[i]};
      }
      assert drop[..|drop|] == drop;
      assert owed == {};
    }

    /** Not too old, payable, and not below the pool's price unless its sender is local. */
    predicate Acceptable(tx: Tx, local: bool)
      reads this
    {
      && ChainNonce(chain, tx.from) <= tx.nonce
      && tx.cost <= Funds(balances, tx.from)
      && tx.gas <= maxGas
      && (local || tx.from in locals || gasPrice <= tx.price)
    }

    lemma AcceptableMeans(tx: Tx, local: bool)
      ensures Acceptable(tx, local) ==> tx.cost <= Funds(balances, tx.from) && tx.gas <= maxGas
    {
    }

    /** validateTx: the pool's own state decides between the checks on the transaction. */
    function Validate(tx: Tx, local: bool, checks: Checks): (r: AddResult)
      reads this
      ensures r.Added? <==> checks.shape && checks.signed && checks.gas && Acceptable(tx, local)
      ensures r == Underpriced ==> !local && tx.from !in locals && tx.price < gasPrice
      ensures r == GasLimit ==> tx.gas > maxGas
      ensures r == NonceTooLow ==> tx.nonce < ChainNonce(chain, tx.from)
      ensures r == InsufficientFunds ==> tx.cost > Funds(balances, tx.from)
    {
      if !checks.shape then InvalidTransaction
      else if maxGas < tx.gas then GasLimit
      else if !checks.signed then InvalidSender
      else if !(local || tx.from in locals) && gasPrice > tx.price then Underpriced
      else if ChainNonce(chain, tx.from) > tx.nonce then NonceTooLow
      else if Funds(balances, tx.from) < tx.cost then InsufficientFunds
      else if !checks.gas then IntrinsicGas
      else Added(false)
    }

    /** The part of add that makes room in a full pool: below the limit, or with only locals
        left, if no entry of the price heap is in the way, and not below it if one is;
        which is exact where no two known remote transactions are equal in price and nonce. */
    method MakeRoom(tx: Tx, local: bool) returns (ok: bool)
      requires Valid() && tx !in all
      modifies this`pending, this`queue, this`all, this`beats, this`nonces, priced
      ensures Valid() && all <= old(all)
      ensures !ok <==> |old(all)| >= config.globalSlots + config.globalQueue && !local && tx.from !in locals &&
                       old(all) != {} && forall t :: t in old(all) ==> tx.price <= t.price
      ensures !ok || |old(all)| < config.globalSlots + config.globalQueue ==>
        all == old(all) && pending == old(pending) && queue == old(queue) && nonces == old(nonces)
      ensures Drained(old(queue), old(nonces), chain) ==> Drained(queue, nonces, chain)
      ensures var limit := config.globalSlots + config.globalQueue; ok && |old(all)| >= limit ==>
        Freed(Remote(old(multiset(priced.items)), old(all), locals), |old(all)| + 1 - limit, all, locals, limit)
      ensures forall t :: t in old(all) - all ==> t.from !in locals
      ensures forall d, t :: d in old(all) - all && t in all && t.from !in locals ==> CheaperOrEqual(d, t)
      ensures LowestStay(old(pending), pending) && Untouched(old(pending), old(queue), pending, queue, old(all) - all)
    {
      hide *;
      Unfold();
      LowestStaySelf(pending);
      NothingTouched(pending, queue, old(all) - all);
      ok := true;
      var limit := config.globalSlots + config.globalQueue;
      if |all| < limit {
        return;
      }
      ghost var before := multiset(priced.items);
      if !local {
        var underpriced := priced.Underpriced(tx, locals, all);
        if underpriced {
          Fold();
          return false;
        }
      }
      RemoteSame(before, multiset(priced.items), all, locals);
      ghost var items := multiset(priced.items);
      var drop := priced.Discard(|all| + 1 - limit, locals, all);
      StillTracked(drop);
      RoomMade(items, multiset(priced.items), drop, all, locals, limit);
      DropTaken(drop);
      LowestStayShrinks(old(pending), pending);
      AffordableLess(old(pending), pending, balances, maxGas);
      Fold();
    }

    /** After a discard, whatever is neither dropped nor unknown is still in the heap. */
    lemma StillTracked(drop: seq<Tx>)
      requires priced.Tracks(all, set t | t in drop)
      ensures forall t :: t in all && t !in drop ==> t in multiset(priced.items)
    {
    }

    /** add after validation: make room, then place. `kept` are those that stay when room is
        made. */
    method Admit(tx: Tx, local: bool) returns (r: AddResult, ghost kept: set<Tx>)
      requires Valid() && tx !in all && tx.cost <= Funds(balances, tx.from) && tx.gas <= maxGas
      modifies this`pending, this`queue, this`all, this`beats, this`nonces, this`locals, priced
      ensures Valid() && kept <= old(all) && r in {Underpriced, ReplaceUnderpriced, Added(true), Added(false)}
      ensures locals == if r.Added? && local && tx.nonce in At(queue, tx.from) then old(locals) + {tx.from} else old(locals)
      ensures r == Added(false) ==> Waits(old(pending), old(queue), tx, old(all) - kept, pending, queue)
      ensures r == Underpriced <==> |old(all)| >= config.globalSlots + config.globalQueue && TooCheap(tx, local, old(all), old(locals))
      ensures r == Underpriced || |old(all)| < config.globalSlots + config.globalQueue ==> kept == old(all)
      ensures !r.Added? && (r == Underpriced || |old(all)| < config.globalSlots + config.globalQueue) ==>
        pending == old(pending) && queue == old(queue) && nonces == old(nonces)
      ensures |old(all)| < config.globalSlots + config.globalQueue ==> r == Placing(old(pending), old(queue), tx, config.priceBump)
      ensures r != Underpriced ==> PlacedIn(kept, tx, config.priceBump, r)
      ensures all == if r.Added? then Without(kept, tx) + {tx} else kept
      ensures var limit := config.globalSlots + config.globalQueue; r != Underpriced && |old(all)| >= limit ==>
        Freed(Remote(old(multiset(priced.items)), old(all), old(locals)), |old(all)| + 1 - limit, kept, old(locals), limit)
      ensures forall t :: t in old(all) - kept ==> Evicted(t, kept, old(locals))
      ensures Drained(old(queue), old(nonces), chain) ==>
        if r == Added(false) then DrainedBut(queue, nonces, chain, tx.from) else Drained(queue, nonces, chain)
    {
      hide *;
      kept := all;
      var ok := MakeRoom(tx, local);
      TooCheapIs(tx, local, old(all), locals);
      if !ok {
        r := Underpriced;
        return;
      }
      kept := all;
      EvictedIs(old(all), kept, locals);
      ghost var p, q := pending, queue;
      r := Place(tx, local);
      if r == Added(false) { StillWaits(old(pending), old(queue), tx, old(all) - kept, p, q, pending, queue); }
    }

    /** add: validate, make room, then replace a pending transaction or enqueue. */
    method Add(tx: Tx, local: bool, checks: Checks) returns (r: AddResult, ghost kept: set<Tx>)
      requires Valid()
      modifies this`pending, this`queue, this`all, this`beats, this`nonces, this`locals, priced
      ensures Valid()
      ensures Outcome(r, kept, tx, local, old(Validate(tx, local, checks)), old(pending), old(queue), old(all), old(locals),
                      old(multiset(priced.items)), config)
      ensures r.Added? ==> checks.shape && checks.signed && checks.gas && old(Acceptable(tx, local))
      ensures all == if r.Added? then Without(kept, tx) + {tx} else kept
      ensures r.Added? ==> tx in all && tx !in old(all) && forall t :: t in all && SameSlot(t, tx) ==> t == tx
      ensures !r.Added? && (r != ReplaceUnderpriced || |old(all)| < config.globalSlots + config.globalQueue) ==>
        all == old(all) && pending == old(pending) && queue == old(queue) && nonces == old(nonces)
      ensures locals == if r.Added? && local && tx.nonce in At(queue, tx.from) then old(locals) + {tx.from} else old(locals)
      ensures r == Added(false) ==> Waits(old(pending), old(queue), tx, old(all) - kept, pending, queue)
      ensures Drained(old(queue), old(nonces), chain) ==>
        if r == Added(false) then DrainedBut(queue, nonces, chain, tx.from) else Drained(queue, nonces, chain)
    {
      hide *;
      kept := all;
      ghost var valid, items := Validate(tx, local, checks), multiset(priced.items);
      if tx in all {
        r := KnownTransaction;
        RefusedOutcome(r, tx, local, valid, pending, queue, all, locals, items, config);
        return;
      }
      r := Validate(tx, local, checks);
      NeverKnown(tx, local, checks);
      if !r.Added? {
        RefusedOutcome(r, tx, local, valid, pending, queue, all, locals, items, config);
        return;
      }
      AcceptableMeans(tx, local);
      r, kept := Admit(tx, local);
      WithoutMeans(kept, tx);
      AdmittedOutcome(r, kept, tx, local, valid, old(pending), old(queue), old(all), old(locals), items, config);
    }

    /** The end of add: over the pending transaction of that nonce, or into the queue. */
    method Place(tx: Tx, local: bool) returns (r: AddResult)
      requires Valid() && tx !in all && tx.cost <= Funds(balances, tx.from) && tx.gas <= maxGas
      modifies this`pending, this`queue, this`all, this`locals, priced
      ensures Valid()
      ensures r == Placing(old(pending), old(queue), tx, config.priceBump) && PlacedIn(old(all), tx, config.priceBump, r)
      ensures r.Added? ==> all == Without(old(all), tx) + {tx}
      ensures r.Added? ==> tx in all && forall t :: t in old(all) ==> (t in all <==> !SameSlot(t, tx))
      ensures !r.Added? ==> r == ReplaceUnderpriced && pending == old(pending) && queue == old(queue) && all == old(all)
      ensures all <= old(all) + (if r.Added? then {tx} else {})
      ensures Drained(old(queue), nonces, chain) ==>
        if r == Added(false) then DrainedBut(queue, nonces, chain, tx.from) else Drained(queue, nonces, chain)
      ensures locals == if r.Added? && local && tx.nonce in At(queue, tx.from) then old(locals) + {tx.from} else old(locals)
      ensures r.Added? && tx.nonce in At(old(pending), tx.from) ==>
        r.replaced && pending == Set(old(pending), tx.from, With(At(old(pending), tx.from), tx)) && queue == old(queue)
      ensures r.Added? && tx.nonce !in At(old(pending), tx.from) ==>
        pending == old(pending) && queue == Set(old(queue), tx.from, With(At(old(queue), tx.from), tx))
    {
      hide *;
      Unfold();
      PlacingIs(pending, queue, tx, config.priceBump);
      PartitionAt(pending, queue, all, tx.from);
      SlotRule(pending, queue, all, tx, config.priceBump);
      OnlyInSlot(At(pending, tx.from), At(queue, tx.from), all, tx);
      if tx.nonce in At(pending, tx.from) {
        NotQueued(At(pending, tx.from), At(queue, tx.from), all, tx.from, tx.nonce);
        r := ReplacePending(tx);
      } else {
        r := EnqueueNew(tx);
        QueuedNow(old(queue), tx);
        if r.Added? && Drained(old(queue), nonces, chain) { DrainedWith(old(queue), nonces, chain, tx); }
        if r.Added? && local {
          Unfold();
          locals := locals + {tx.from};
          Fold();
        }
      }
      WithoutIs(old(all), tx, all, r.Added?);
    }

    lemma NeverKnown(tx: Tx, local: bool, checks: Checks)
      ensures Validate(tx, local, checks) != KnownTransaction
    {
    }

    method ReplacePending(tx: Tx) returns (r: AddResult)
      requires Valid() && tx !in all && tx.nonce in At(pending, tx.from)
      requires tx.cost <= Funds(balances, tx.from) && tx.gas <= maxGas
      modifies this`pending, this`all, priced
      ensures Valid() && tx.nonce in At(pending, tx.from)
      ensures r == if Replaces(At(old(pending), tx.from), tx, config.priceBump) then Added(true) else ReplaceUnderpriced
      ensures all == if r.Added? then old(all) - {At(old(pending), tx.from)[tx.nonce]} + {tx} else old(all)
      ensures pending == if r.Added? then Set(old(pending), tx.from, With(At(old(pending), tx.from), tx)) else old(pending)
    {
      hide *;
      Unfold();
      var a := tx.from;
      var p := At(pending, a);
      ghost var q := At(queue, a);
      if !Replaces(p, tx, config.priceBump) {
        return ReplaceUnderpriced;
      }
      PartitionAt(pending, queue, all, a);
      PartitionLists(pending, queue, all);
      AccountReplace(p, q, all, tx);
      ExecutableOf(pending, nonces, chain, a);
      pending := pending[a := With(p, tx)];
      MoveOne(old(pending), a, p, tx);
      SetSame(old(pending), a);
      SetAt(old(pending), a, With(p, tx), a);
      Forget({p[tx.nonce]});
      priced.Put(tx, all);
      all := all + {tx};
      SetSame(queue, a);
      PartitionSet(old(pending), queue, old(all), a, With(p, tx), q, all);
      SameSpan(p, tx, ChainNonce(chain, a), PendingNonce(nonces, chain, a));
      ExecutableSet(old(pending), nonces, chain, a, With(p, tx), PendingNonce(nonces, chain, a), nonces);
      AffordableWith(old(pending), tx, balances, maxGas);
      r := Added(true);
      Fold();
    }

    method EnqueueNew(tx: Tx) returns (r: AddResult)
      requires Valid() && tx !in all && tx.nonce !in At(pending, tx.from)
      modifies this`queue, this`all, priced
      ensures Valid()
      ensures r == if Replaces(At(old(queue), tx.from), tx, config.priceBump) then Added(tx.nonce in At(old(queue), tx.from))
                   else ReplaceUnderpriced
      ensures r.Added? ==> all == (if r.replaced then old(all) - {At(old(queue), tx.from)[tx.nonce]} else old(all)) + {tx}
      ensures queue == if r.Added? then Set(old(queue), tx.from, With(At(old(queue), tx.from), tx)) else old(queue)
      ensures !r.Added? ==> all == old(all)
    {
      hide *;
      Unfold();
      var a := tx.from;
      ghost var p, q := At(pending, a), At(queue, a);
      PartitionAt(pending, queue, all, a);
      PartitionLists(pending, queue, all);
      AccountEnqueue(p, q, all, tx);
      var inserted, replaced := EnqueueTx(tx, {});
      if !inserted {
        r := ReplaceUnderpriced;
      } else {
        r := Added(replaced);
        MoveOne(old(queue), a, q, tx);
        SetSame(old(queue), a);
        SetSame(pending, a);
        PartitionSet(pending, old(queue), old(all), a, p, With(q, tx), all);
      }
      Fold();
    }

    /** addTx: add, and promote unless it only replaced another transaction. What add makes
        of the lists is `p0` and `q0`, what promotion makes of them `p1` and `q1`, before the
        limits are enforced. */
    method AddTx(tx: Tx, local: bool, checks: Checks, now: nat)
      returns (r: AddResult, ghost kept: set<Tx>, ghost p0: Lists, ghost q0: Lists, ghost p1: Lists, ghost q1: Lists)
      requires Valid()
      modifies this`pending, this`queue, this`all, this`beats, this`nonces, this`locals, priced
      ensures Valid()
      // the answer of add, and what it makes of the pool unless it promotes
      ensures Outcome(r, kept, tx, local, old(Validate(tx, local, checks)), old(pending), old(queue), old(all), old(locals),
                      old(multiset(priced.items)), config)
      ensures r.Added? ==> checks.shape && checks.signed && checks.gas && old(Acceptable(tx, local))
      ensures r != Added(false) ==> all == if r.Added? then Without(kept, tx) + {tx} else kept
      ensures !r.Added? && (r != ReplaceUnderpriced || |old(all)| < config.globalSlots + config.globalQueue) ==>
        all == old(all) && pending == old(pending) && queue == old(queue) && nonces == old(nonces)
      ensures locals == if r.Added? && local && (!r.replaced || tx.nonce in At(queue, tx.from)) then old(locals) + {tx.from} else old(locals)
      // what promotion makes of the account, and the limits of the lists
      ensures r == Added(false) ==>
        && Waits(old(pending), old(queue), tx, old(all) - kept, p0, q0)
        && Settles(Terms(chain, balances, maxGas, locals, config.accountQueue), tx.from, p0, q0, kept + {tx}, p1, q1, pending, queue, all,
                   config.globalSlots, config.globalQueue)
      ensures r == Added(false) && tx.nonce == PendingNonce(old(nonces), chain, tx.from) &&
              (forall t :: t in old(all) - kept ==> t.from != tx.from) ==>
        Holds(At(p1, tx.from), tx) && (Total(p1) <= config.globalSlots || tx.from in locals ==> Holds(At(pending, tx.from), tx))
      ensures r == Added(false) ==>
        Total(pending) <= config.globalSlots || forall a :: a !in locals ==> Len(pending, a) <= config.accountSlots
      ensures r == Added(false) ==> Total(queue) <= config.globalQueue || forall a :: a in queue ==> a in locals
      ensures Drained(old(queue), old(nonces), chain) ==> Drained(queue, nonces, chain)
    {
      hide *;
      Unfold();
      AcceptableMeans(tx, local);
      r, kept := Add(tx, local, checks);
      p0, q0, p1, q1 := pending, queue, pending, queue;
      if r.Added? && !r.replaced {
        WaitsMeans(old(pending), old(queue), tx, old(all) - kept, pending, queue);
        OnlyAdded(kept, tx, local, old(Validate(tx, local, checks)), old(pending), old(queue), old(all), old(locals),
                  old(multiset(priced.items)), config, all);
        p1, q1 := PromoteNew(tx, old(pending), old(queue), old(nonces), old(all) - kept, now);
      }
    }

    /** The promotion in addTx: `p`, `q` and `nonces0` are those before add. */
    method PromoteNew(tx: Tx, ghost p: Lists, ghost q: Lists, ghost nonces0: Nonces, ghost gone: set<Tx>, now: nat)
      returns (ghost p1: Lists, ghost q1: Lists)
      requires Valid() && Executable(p, nonces0, chain) && Waits(p, q, tx, gone, pending, queue)
      requires tx.cost <= Funds(balances, tx.from) && tx.gas <= maxGas
      modifies this`pending, this`queue, this`all, this`beats, this`nonces, priced
      ensures Valid()
      ensures Total(pending) <= config.globalSlots || forall a :: a !in locals ==> Len(pending, a) <= config.accountSlots
      ensures Total(queue) <= config.globalQueue || forall a :: a in queue ==> a in locals
      ensures DrainedBut(old(queue), old(nonces), chain, tx.from) ==> Drained(queue, nonces, chain)
      ensures Settles(Terms(chain, balances, maxGas, locals, config.accountQueue), tx.from, old(pending), old(queue), old(all), p1, q1,
                      pending, queue, all, config.globalSlots, config.globalQueue)
      ensures tx.nonce == PendingNonce(nonces0, chain, tx.from) && (forall t :: t in gone ==> t.from != tx.from) ==>
        Holds(At(p1, tx.from), tx) && (Total(p1) <= config.globalSlots || tx.from in locals ==> Holds(At(pending, tx.from), tx))
    {
      hide *;
      Unfold();
      ghost var t := Terms(chain, balances, maxGas, locals, config.accountQueue);
      p1, q1 := PromoteExecutables([tx.from], now);
      PromotedOne(t, old(pending), old(queue), old(nonces), tx.from, p1, q1);
      SettlesIs(t, tx.from, old(pending), old(queue), old(all), p1, q1, pending, queue, all, config.globalSlots, config.globalQueue);
      NewPending(t, p, q, nonces0, tx, gone, old(pending), old(queue), old(all), p1, q1, pending, queue,
                 config.globalSlots, config.globalQueue);
      if DrainedBut(old(queue), old(nonces), chain, tx.from) {
        DrainedAgain(old(queue), old(nonces), queue, nonces, chain, tx.from);
      }
    }

    /** SetGasPrice: every remote transaction below the new price leaves the pool, and
        nothing else does. */
    method SetGasPrice(price: nat)
      requires Valid()
      modifies this`gasPrice, this`pending, this`queue, this`all, this`beats, this`nonces, priced
      ensures Valid() && gasPrice == price
      ensures Drained(old(queue), old(nonces), chain) ==> Drained(queue, nonces, chain)
      ensures all == set t | t in old(all) && (t.from in locals || t.price >= price)
      ensures LowestStay(old(pending), pending) && Untouched(old(pending), old(queue), pending, queue, old(all) - all)
    {
      hide *;
      Unfold();
      gasPrice := price;
      var drop := priced.Cap(price, locals, all);
      DropTaken(drop);
      LowestStayShrinks(old(pending), pending);
      AffordableLess(old(pending), pending, balances, maxGas);
      Fold();
    }
  }

  /** What add answers, `valid` being the verdict on the transaction alone, and which
      transactions stay when room is made. */
  ghost predicate Outcome(r: AddResult, kept: set<Tx>, tx: Tx, local: bool, valid: AddResult, pending: Lists, queue: Lists,
                          all: set<Tx>, locals: set<Address>, items: multiset<Tx>, config: Config)
  {
    var limit := config.globalSlots + config.globalQueue;
    && (r == KnownTransaction <==> tx in all)
    && (tx !in all && !valid.Added? ==> r == valid)
    && (tx !in all && valid.Added? && |all| < limit ==> r == Placing(pending, queue, tx, config.priceBump))
    && (tx !in all && valid.Added? && |all| >= limit ==> (r == Underpriced <==> TooCheap(tx, local, all, locals)))
    && (tx !in all && valid.Added? && r != Underpriced ==> PlacedIn(kept, tx, config.priceBump, r))
    && (tx !in all && valid.Added? && r != Underpriced && |all| >= limit ==>
        Freed(Remote(items, all, locals), |all| + 1 - limit, kept, locals, limit))
    && kept <= all && (tx in all || !valid.Added? || r == Underpriced || |all| < limit ==> kept == all)
    && forall t :: t in all - kept ==> Evicted(t, kept, locals)
  }

  /** A remote transaction that pays no more than any other in the pool. */
  ghost predicate TooCheap(tx: Tx, local: bool, all: set<Tx>, locals: set<Address>) {
    !local && tx.from !in locals && all != {} && forall t :: t in all ==> tx.price <= t.price
  }

  /** Thrown out of a full pool: remote, and no dearer than any remote one that stays. */
  ghost predicate Evicted(t: Tx, kept: set<Tx>, locals: set<Address>) {
    t.from !in locals && forall k :: k in kept && k.from !in locals ==> CheaperOrEqual(t, k)
  }

  lemma TooCheapIs(tx: Tx, local: bool, all: set<Tx>, locals: set<Address>)
    ensures TooCheap(tx, local, all, locals) <==>
      !local && tx.from !in locals && all != {} && forall t :: t in all ==> tx.price <= t.price
  {
  }

  lemma EvictedIs(all: set<Tx>, kept: set<Tx>, locals: set<Address>)
    requires forall t :: t in all - kept ==> t.from !in locals
    requires forall d, t :: d in all - kept && t in kept && t.from !in locals ==> CheaperOrEqual(d, t)
    ensures forall t :: t in all - kept ==> Evicted(t, kept, locals)
  {
  }

  lemma RefusedOutcome(r: AddResult, tx: Tx, local: bool, valid: AddResult, pending: Lists, queue: Lists, all: set<Tx>,
                       locals: set<Address>, items: multiset<Tx>, config: Config)
    requires r == KnownTransaction <==> tx in all
    requires tx !in all ==> r == valid && !valid.Added?
    ensures Outcome(r, all, tx, local, valid, pending, queue, all, locals, items, config)
  {
  }

  lemma AdmittedOutcome(r: AddResult, kept: set<Tx>, tx: Tx, local: bool, valid: AddResult, pending: Lists, queue: Lists,
                        all: set<Tx>, locals: set<Address>, items: multiset<Tx>, config: Config)
    requires tx !in all && valid.Added? && r in {Underpriced, ReplaceUnderpriced, Added(true), Added(false)}
    requires r == Underpriced <==> |all| >= config.globalSlots + config.globalQueue && TooCheap(tx, local, all, locals)
    requires |all| < config.globalSlots + config.globalQueue ==> r == Placing(pending, queue, tx, config.priceBump)
    requires r != Underpriced ==> PlacedIn(kept, tx, config.priceBump, r)
    requires var limit := config.globalSlots + config.globalQueue; r != Underpriced && |all| >= limit ==>
      Freed(Remote(items, all, locals), |all| + 1 - limit, kept, locals, limit)
    requires kept <= all && (r == Underpriced || |all| < config.globalSlots + config.globalQueue ==> kept == all)
    requires forall t :: t in all - kept ==> Evicted(t, kept, locals)
    ensures Outcome(r, kept, tx, local, valid, pending, queue, all, locals, items, config)
  {
    hide Freed, PlacedIn, Placing, Remote, Evicted, TooCheap;
  }

  lemma OnlyAdded(kept: set<Tx>, tx: Tx, local: bool, valid: AddResult, pending: Lists, queue: Lists, all: set<Tx>,
                  locals: set<Address>, items: multiset<Tx>, config: Config, all': set<Tx>)
    requires Outcome(Added(false), kept, tx, local, valid, pending, queue, all, locals, items, config)
    requires all' == Without(kept, tx) + {tx}
    ensures all' == kept + {tx}
  {
    hide Freed, Placing, Remote, Evicted, TooCheap;
    assert PlacedIn(kept, tx, config.priceBump, Added(false));
  }

  /** Where add puts a transaction, or why not. */
  function Placing(pending: Lists, queue: Lists, tx: Tx, priceBump: nat): AddResult {
    if tx.nonce in At(pending, tx.from) then
      if Replaces(At(pending, tx.from), tx, priceBump) then Added(true) else ReplaceUnderpriced
    else if Replaces(At(queue, tx.from), tx, priceBump) then Added(tx.nonce in At(queue, tx.from)) else ReplaceUnderpriced
  }

  /** The same from the known transactions alone: the one with that sender and nonce, if
      any, is outbid and replaced, or stays. */
  ghost predicate PlacedIn(all: set<Tx>, tx: Tx, priceBump: nat, r: AddResult) {
    && (r == Added(true) <==> exists t :: t in all && SameSlot(t, tx) && Outbids(t, tx, priceBump))
    && (r == ReplaceUnderpriced <==> exists t :: t in all && SameSlot(t, tx) && !Outbids(t, tx, priceBump))
    && (r == Added(false) <==> forall t :: t in all ==> !SameSlot(t, tx))
  }

  ghost function Without(all: set<Tx>, tx: Tx): set<Tx> { set t | t in all && !SameSlot(t, tx) }

  lemma WithoutMeans(all: set<Tx>, tx: Tx)
    ensures Without(all, tx) <= all && forall t :: t in all ==> (t in Without(all, tx) <==> !SameSlot(t, tx))
  {
  }

  lemma WithoutIs(before: set<Tx>, tx: Tx, after: set<Tx>, added: bool)
    requires added ==> tx in after && after <= before + {tx} && forall t :: t in before ==> (t in after <==> !SameSlot(t, tx))
    requires tx !in before
    ensures added ==> after == Without(before, tx) + {tx}
  {
  }

  lemma SlotRule(pending: Lists, queue: Lists, all: set<Tx>, tx: Tx, priceBump: nat)
    requires Partition(pending, queue, all)
    ensures PlacedIn(all, tx, priceBump, Placing(pending, queue, tx, priceBump))
  {
    hide Outbids;
    PartitionAt(pending, queue, all, tx.from);
    var p, q := At(pending, tx.from), At(queue, tx.from);
    OnlyInSlot(p, q, all, tx);
    assert tx.nonce in p ==> p[tx.nonce] in Values(p);
    assert tx.nonce in q ==> q[tx.nonce] in Values(q);
  }

  lemma PlacingIs(pending: Lists, queue: Lists, tx: Tx, priceBump: nat)
    ensures Placing(pending, queue, tx, priceBump) ==
      if tx.nonce in At(pending, tx.from) then
        if Replaces(At(pending, tx.from), tx, priceBump) then Added(true) else ReplaceUnderpriced
      else if Replaces(At(queue, tx.from), tx, priceBump) then Added(tx.nonce in At(queue, tx.from)) else ReplaceUnderpriced
  {
  }

  lemma ExecutableLess(pending: Lists, nonces: Nonces, chain: Nonces, a: Address, left: TxMap, hi: nat)
    requires Executable(pending, nonces, chain) && Spans(left, ChainNonce(chain, a), hi)
    ensures Executable(Set(pending, a, left), nonces[a := hi], chain)
  {
    VirtualNonce(nonces, chain, a, hi);
    ExecutableSet(pending, nonces, chain, a, left, hi, nonces[a := hi]);
  }

  lemma SameSpan(p: TxMap, tx: Tx, lo: nat, hi: nat)
    requires Spans(p, lo, hi) && tx.nonce in p
    ensures Spans(With(p, tx), lo, hi) && tx.nonce in With(p, tx)
  {
  }

  lemma IsHeld(m: TxMap, tx: Tx)
    requires tx.nonce in m && m[tx.nonce] == tx
    ensures Holds(m, tx)
  {
  }

  lemma PartitionLists(pending: Lists, queue: Lists, all: set<Tx>)
    requires Partition(pending, queue, all)
    ensures NoEmptyList(pending) && NoEmptyList(queue)
  {
  }

  lemma RemoveDetails(p: TxMap, q: TxMap, all: set<Tx>, tx: Tx)
    requires AccountOk(p, q, all, tx.from) && tx.nonce in p && p[tx.nonce] == tx
    ensures WithoutNonce(p, true, tx.nonce) == Front(p, tx.nonce)
    ensures AccountOk(Front(p, tx.nonce), q + Above(p, tx.nonce), all - {tx}, tx.from)
    ensures Owned(Above(p, tx.nonce), tx.from) && q.Keys !! Above(p, tx.nonce).Keys
    ensures Values(Above(p, tx.nonce)) <= all - {tx}
  {
    StrictRemove(p, tx.nonce);
    RemovePending(p, q, all, tx);
    AccountParts(p, q, all, tx.from);
    AboveIsPart(p, tx.nonce);
    OwnedPart(p, Above(p, tx.nonce), tx.from);
    forall t | t in Values(Above(p, tx.nonce)) ensures t != tx { }
  }

  lemma AlreadyKnown(all: set<Tx>, tx: Tx)
    requires tx in all
    ensures all + {tx} == all
  {
  }

  lemma ValuesHold(m: TxMap, n: nat)
    requires n in m
    ensures m[n] in Values(m)
  {
  }

  lemma MoveOne(ls: Lists, a: Address, q: TxMap, tx: Tx)
    requires tx.from == a
    ensures Set(ls, a, q)[a := With(q, tx)] == Set(ls, a, With(q, tx))
  {
    assert tx.nonce in With(q, tx);
  }

  lemma SpanOrder(m: TxMap, lo: nat, hi: nat)
    requires Spans(m, lo, hi)
    ensures lo <= hi
  {
  }

  lemma SpanEnd(m: TxMap, lo: nat, hi: nat, n: nat)
    requires Spans(m, lo, hi) && lo <= n <= hi && n !in m
    ensures n == hi
  {
  }

  lemma NothingQueued(ls: Lists, a: Address, n: nat)
    requires a !in ls
    ensures n !in At(ls, a) && At(ls, a) == map[]
  {
  }

  lemma NoChange(q: TxMap, all: set<Tx>, a: Address)
    ensures PartOf(q, q) && SameElsewhere(all, all, a)
  {
  }

  lemma BeyondPart(q: TxMap, lo: nat, list: TxMap, n: nat)
    requires PartOf(list, DropBelow(q, lo)) && forall k :: k in DropBelow(q, lo) ==> k >= n
    ensures forall k :: k in list ==> k >= n
  {
  }

  // ----- bookkeeping of the pending limit -----

  lemma LenAt(ls: Lists, a: Address)
    ensures Len(ls, a) == |At(ls, a)| && (Len(ls, a) > 0 <==> At(ls, a) != map[])
  {
  }

  lemma HalfAt(ls: Lists, group: seq<Address>, i: nat, k: nat)
    requires HalfLowered(ls, group, i, k) && i < |group|
    ensures Len(ls, group[i]) == k
  {
  }

  lemma IsLowered(base: Lists, ls: Lists, group: seq<Address>, k: nat, floor: nat)
    requires Level(ls, group, k) && OnlyGroup(base, ls, group) && k >= floor
    ensures Lowered(base, ls, group, k, floor)
  {
  }

  lemma NoOffenders(ls: Lists, spammers: map<Address, nat>, locals: set<Address>, slots: nat)
    ensures Offending(ls, ls, spammers, [], locals, slots)
  {
  }

  lemma Fewer(m: map<Address, nat>, a: Address)
    requires a in m
    ensures |m - {a}| < |m|
  {
    assert (m - {a}).Keys == m.Keys - {a};
  }

  lemma FirstOffender(ls: Lists, heavy: map<Address, nat>, spammers: map<Address, nat>, a: Address, slots: nat)
    requires a in heavy && spammers == heavy - {a} && Len(ls, a) == heavy[a] > slots
    requires forall b :: b in heavy ==> heavy[b] <= heavy[a]
    ensures LevelAbove(ls, spammers, [] + [a], Len(ls, a), slots)
  {
  }

  lemma JoinsBelow(ls: Lists, heavy: map<Address, nat>, group: seq<Address>, a: Address, k: nat, slots: nat)
    requires LevelAbove(ls, heavy, group, k, slots) && a in heavy && Len(ls, a) == heavy[a]
    ensures Level(ls, group, k) && Len(ls, a) <= k
  {
  }

  lemma DistinctPart(ls: Lists, base: Lists, spammers: map<Address, nat>, group: seq<Address>, a: Address,
                     locals: set<Address>, slots: nat)
    requires Offending(ls, base, spammers, group + [a], locals, slots)
    ensures Distinct(group)
  {
    assert forall i :: 0 <= i < |group| ==> group[i] == (group + [a])[i];
  }

  lemma LevelAgain(ls: Lists, heavy: map<Address, nat>, spammers: map<Address, nat>, offenders: seq<Address>, k: nat,
                   a: Address, slots: nat)
    requires Level(ls, offenders, k) && a in heavy && spammers == heavy - {a} && heavy[a] == k > slots
    requires forall b :: b in heavy ==> heavy[b] <= heavy[a]
    ensures LevelAbove(ls, spammers, offenders, k, slots)
  {
  }

  lemma LastLowering(ls: Lists, base: Lists, spammers: map<Address, nat>, offenders: seq<Address>, k: nat,
                     locals: set<Address>, slots: nat)
    requires Offending(ls, base, spammers, offenders, locals, slots) && LevelAbove(ls, spammers, offenders, k, slots)
    ensures Distinct(offenders) && Level(ls, offenders, k) && slots <= k
  {
  }

  lemma AllLow(ls: Lists, ls': Lists, base: Lists, spammers: map<Address, nat>, offenders: seq<Address>, k: nat, k': nat,
               locals: set<Address>, slots: nat)
    requires spammers == map[] && Covered(ls, spammers, offenders, locals, slots)
    requires Offending(ls, base, spammers, offenders, locals, slots) && Level(ls, offenders, k)
    requires Lowered(ls, ls', offenders, k', slots) && k' <= k
    ensures k' == slots ==> forall a :: a !in locals ==> Len(ls', a) <= slots
    ensures Fairest(base, ls', locals)
    ensures forall a :: At(ls', a) != At(base, a) ==> a !in locals && slots <= Len(ls', a) <= Len(base, a)
  {
    forall a | a !in locals ensures Len(ls', a) <= k' {
      if a !in offenders { assert At(ls', a) == At(ls, a); }
    }
  }

  lemma OffendersOnly(ls: Lists, base: Lists, spammers: map<Address, nat>, offenders: seq<Address>,
                      locals: set<Address>, slots: nat)
    requires Covered(ls, spammers, offenders, locals, slots) && Offending(ls, base, spammers, offenders, locals, slots)
    ensures spammers == map[] && offenders == [] ==> forall a :: a !in locals ==> Len(ls, a) <= slots
    ensures forall a :: At(ls, a) != At(base, a) ==> a !in locals && slots <= Len(ls, a) <= Len(base, a)
  {
  }

  // ----- bookkeeping of a full pool -----

  /** How a discard of `count` from a full pool ends, for the entries of known remote
      transactions there were. */
  ghost predicate Freed(rs: multiset<Tx>, count: nat, all: set<Tx>, locals: set<Address>, limit: nat) {
    && (Clear(rs, count) && |rs| >= count ==> |all| < limit)
    && (|rs| < count ==> forall t :: t in all ==> t.from in locals)
    && (Clogged(rs, count) ==> |all| >= limit)
    && (Untied(rs) ==> (|all| < limit <==> |rs| >= count && Clear(rs, count)))
  }

  lemma RoomMade(before: multiset<Tx>, after: multiset<Tx>, drop: seq<Tx>, all: set<Tx>, locals: set<Address>, limit: nat)
    requires limit <= |all| && |drop| <= |all| + 1 - limit
    requires forall t :: t in all ==> after[t] + multiset(drop)[t] == before[t]
    requires forall t :: t in drop ==> t in all && t.from !in locals
    requires |drop| < |all| + 1 - limit ==> forall t :: t in after ==> t.from in locals
    requires forall d, t :: d in drop && t in after && t in all && t.from !in locals ==> CheaperOrEqual(d, t)
    requires forall t :: t in all && t !in drop ==> t in after
    ensures Freed(Remote(before, all, locals), |all| + 1 - limit, all - (set t | t in drop), locals, limit)
  {
    hide Remote, Clear, Clogged, Untied, CheaperOrEqual;
    var rs, left, count, gone := Remote(before, all, locals), Remote(after, all, locals), |all| + 1 - limit, set t | t in drop;
    DiscardCuts(before, after, drop, count, locals, all);
    assert gone <= all;
    assert |all - gone| == |all| - |gone|;
    CutSize(rs, left, drop, count);
    if Clear(rs, count) {
      CutOnce(rs, left, drop, count);
      OnceEachDropped(drop);
    }
    if Clogged(rs, count) { CutTwice(rs, left, drop, count); }
    if Untied(rs) { CutsMeet(rs, count); }
  }

  lemma CutSize(rs: multiset<Tx>, left: multiset<Tx>, drop: seq<Tx>, count: nat)
    requires Taken(rs, left, drop, count)
    ensures |drop| == if |rs| < count then |rs| else count
  {
    assert |rs| == |left| + |drop|;
  }

  lemma OnceEachDropped(drop: seq<Tx>)
    requires NoDuplicates(multiset(drop))
    ensures |set t | t in drop| == |drop|
  {
    var gone := set t | t in drop;
    assert multiset(gone) == multiset(drop) by {
      forall t ensures multiset(gone)[t] == multiset(drop)[t] { }
    }
  }

  // ----- bookkeeping of the queue limit -----

  lemma QueuedNow(queue: Lists, tx: Tx)
    ensures tx.nonce in At(Set(queue, tx.from, With(At(queue, tx.from), tx)), tx.from)
  {
  }

  lemma NotQueued(p: TxMap, q: TxMap, all: set<Tx>, a: Address, n: nat)
    requires AccountOk(p, q, all, a) && n in p
    ensures n !in q
  {
  }

  lemma QueuedTx(p: TxMap, q: TxMap, all: set<Tx>, a: Address, n: nat)
    requires AccountOk(p, q, all, a) && n in q
    ensures q[n] in all && q[n].from == a && q[n].nonce == n && n !in p
  {
    assert q[n] in Values(q);
  }

  lemma OneLess(m: TxMap, n: nat)
    requires n in m
    ensures |m - {n}| == |m| - 1
  {
    assert (m - {n}).Keys == m.Keys - {n};
  }

  lemma WholePart(m: TxMap)
    ensures LowerPart(m, m)
  {
  }

  lemma IsPart(m: TxMap, whole: TxMap)
    requires LowerPart(m, whole)
    ensures PartOf(m, whole)
  {
  }

  lemma PartWithoutTop(m: TxMap, whole: TxMap, top: nat)
    requires LowerPart(m, whole) && top in m && forall k :: k in m ==> k <= top
    ensures LowerPart(m - {top}, whole)
  {
  }

  lemma GoneEntirely(before: Lists, after: Lists, a: Address)
    requires exists m: TxMap :: after == Set(before, a, m) && |m| == 0
    ensures after == before - {a}
  {
  }

  lemma OnlyLocals(queue: Lists, addresses: seq<Address>, locals: set<Address>)
    requires Evictable(queue, addresses, locals) && addresses == []
    ensures forall a :: a in queue ==> a in locals
  {
  }

  // ----- bookkeeping of promotion, demotion and reset -----

  lemma NextAccount(base: Lists, before: Lists, after: Lists, accounts: seq<Address>, i: nat, locals: set<Address>, cap: nat)
    requires i < |accounts|
    requires forall b :: b != accounts[i] ==> At(after, b) == At(before, b)
    requires accounts[i] in before && accounts[i] !in locals ==> Len(after, accounts[i]) <= cap
    requires forall a :: a in base && a !in locals && a in accounts[..i] ==> Len(before, a) <= cap
    requires forall a :: a !in accounts[..i] ==> At(before, a) == At(base, a)
    requires accounts[i] !in before ==> At(after, accounts[i]) == At(before, accounts[i])
    ensures forall a :: a in base && a !in locals && a in accounts[..i + 1] ==> Len(after, a) <= cap
    ensures forall a :: a !in accounts[..i + 1] ==> At(after, a) == At(base, a)
  {
    assert accounts[..i + 1] == accounts[..i] + [accounts[i]];
  }

  lemma IsPromoted(t: Terms, a: Address, p: TxMap, q: TxMap, n: nat, list: TxMap, rest: TxMap)
    requires list == KeepPayable(DropBelow(q, ChainNonce(t.chain, a)), false, Funds(t.balances, a), t.maxGas)
    requires rest == if a in t.locals then AfterRun(list, n) else Lowest(AfterRun(list, n), t.accountQueue)
    ensures Promoted(t, a, p, q, n, p + Run(list, n), rest)
  {
  }

  lemma LatestFirstMeans(base: Lists, queue: Lists, beats: map<Address, nat>, locals: set<Address>)
    requires LatestFirst(base, queue, beats, locals)
    ensures forall a :: a in locals ==> At(queue, a) == At(base, a)
  {
  }

  lemma LimitedIs(p: Lists, q: Lists, p': Lists, q': Lists, locals: set<Address>, slots: nat, queueLimit: nat)
    requires LowestStay(p, p') && LowestStay(q, q') && (forall a :: a in locals ==> At(p', a) == At(p, a) && At(q', a) == At(q, a))
    requires (Total(p) <= slots ==> p' == p) && (Total(q) <= queueLimit ==> q' == q)
    requires Fairest(p, p', locals) && (Total(p) > slots ==> Total(p') + |CutFrom(p, p')| > slots)
    requires Total(q) > queueLimit ==> Total(q') >= queueLimit
    ensures Limited(p, q, p', q', locals, slots, queueLimit)
  {
  }

  lemma StillCapped(queue: Lists, queue': Lists)
    requires Shrunk(queue, queue')
    ensures forall a :: Len(queue', a) <= Len(queue, a)
  {
    forall a ensures Len(queue', a) <= Len(queue, a) { PartSize(At(queue', a), At(queue, a)); }
  }

  lemma MoveAll(m: TxMap)
    ensures PartOf(m, m) && Minus(m, m) == map[]
  {
  }

  lemma SetKeepsNonEmpty(ls: Lists, a: Address, m: TxMap)
    requires NoEmptyList(ls)
    ensures NoEmptyList(Set(ls, a, m))
  {
  }

  lemma SpansOrNothing(pending: Lists, chain: Nonces, a: Address, list: TxMap)
    requires At(pending, a) == list
    requires list == map[] || exists hi: nat :: Spans(list, ChainNonce(chain, a), hi)
    ensures FromChain(pending, chain, a)
  {
    if list == map[] { NothingFromChain(pending, chain, a); }
  }

  lemma OthersFromChain(pending: Lists, chain: Nonces, todo: set<Address>)
    requires todo == pending.Keys
    ensures forall a :: a !in todo ==> FromChain(pending, chain, a)
  {
    forall a | a !in todo ensures FromChain(pending, chain, a) { NothingFromChain(pending, chain, a); }
  }

  lemma DemotedOne(before: Lists, after: Lists, chain: Nonces, a: Address, todo: set<Address>)
    requires forall b :: Block(At(before, b))
    requires forall b :: b != a ==> At(after, b) == At(before, b)
    requires FromChain(after, chain, a)
    requires forall b :: b !in todo ==> FromChain(before, chain, b)
    ensures forall b :: Block(At(after, b))
    ensures forall b :: b !in todo - {a} ==> FromChain(after, chain, b)
  {
    forall b ensures Block(At(after, b)) { if b != a { assert Block(At(before, b)); } }
    forall b | b !in todo - {a} ensures FromChain(after, chain, b) { if b != a { assert FromChain(before, chain, b); } }
  }

  lemma AllBlocks(pending: Lists, nonces: Nonces, chain: Nonces)
    requires Executable(pending, nonces, chain)
    ensures forall a :: Block(At(pending, a))
  {
    forall a ensures Block(At(pending, a)) {
      ExecutableOf(pending, nonces, chain, a);
      BlockOf(At(pending, a), ChainNonce(chain, a), PendingNonce(nonces, chain, a));
    }
  }

  lemma NoNonces(pending: Lists, chain: Nonces, todo: set<Address>)
    requires todo == pending.Keys
    ensures forall a :: a !in todo ==> ExecutableAt(pending, map[], chain, a)
  {
  }

  lemma NotEmpty(ls: Lists, a: Address)
    requires NoEmptyList(ls) && a in ls
    ensures ls[a] != map[]
  {
  }

  lemma NonceSet(pending: Lists, nonces: Nonces, chain: Nonces, a: Address, last: nat, todo: set<Address>)
    requires a in pending && FromChain(pending, chain, a) && last in pending[a] && forall k :: k in pending[a] ==> k <= last
    requires forall b :: b !in todo ==> ExecutableAt(pending, nonces, chain, b)
    ensures forall b :: b !in todo - {a} ==> ExecutableAt(pending, nonces[a := last + 1], chain, b)
  {
    var hi: nat :| Spans(At(pending, a), ChainNonce(chain, a), hi);
    assert last in At(pending, a) && hi - 1 in At(pending, a);
    assert hi == last + 1;
    forall b | b !in todo - {a} ensures ExecutableAt(pending, nonces[a := last + 1], chain, b) {
      if b != a { assert ExecutableAt(pending, nonces, chain, b); }
    }
  }

  lemma AllExecutable(pending: Lists, nonces: Nonces, chain: Nonces)
    requires forall a :: ExecutableAt(pending, nonces, chain, a)
    ensures Executable(pending, nonces, chain)
  {
  }
}
