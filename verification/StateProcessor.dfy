/** The gas ledger of a block: core/state_processor.go, and SetReceiptsData of
    core/blockchain.go.
 */
module StateProcessor {
  import opened Wrappers
  import opened Counting
  import TxList
  import opened StateTransition

  const TWO_64 := TxList.MAX_UINT64 + 1

  datatype Tx = Tx(hash: nat, msg: Msg)
  datatype Block = Block(number: nat, hash: nat)

  /** `payload` stands for address, topics and data. */
  datatype Log = Log(payload: nat, blockNumber: nat, blockHash: nat, txHash: nat, txIndex: nat, index: nat)
  datatype Receipt = Receipt(txHash: nat, failed: bool, cumulative: Uint64, gasUsed: Uint64, contract: Address, logs: seq<Log>)

  /** How contract addresses are derived. */
  type Create = (Address, nat) -> Address

  function Contract(tx: Tx, create: Create): Address { if tx.msg.creation then create(tx.msg.from, tx.msg.nonce) else 0 }

  // ----- logs -----

  function Stamped(block: Block, txHash: nat, txIndex: nat, index: nat, log: Log): Log {
    Log(log.payload, block.number, block.hash, txHash, txIndex, index)
  }

  /** The logs of one transaction, numbered on from `first`. */
  function Numbered(block: Block, txHash: nat, txIndex: nat, first: nat, logs: seq<Log>): seq<Log> {
    seq(|logs|, k requires 0 <= k < |logs| => Stamped(block, txHash, txIndex, first + k, logs[k]))
  }

  lemma NumberedTwice(block: Block, txHash: nat, txIndex: nat, first: nat, logs: seq<Log>)
    ensures var done := Numbered(block, txHash, txIndex, first, logs); Numbered(block, txHash, txIndex, first, done) == done
  {
  }

  /** How many logs the first receipts have together. */
  function LogsBefore(rs: seq<Receipt>, j: nat): nat
    requires j <= |rs|
  {
    if j == 0 then 0 else LogsBefore(rs, j - 1) + |rs[j - 1].logs|
  }

  lemma {:induction false} LogsBeforeSame(rs: seq<Receipt>, rs': seq<Receipt>, j: nat)
    requires j <= |rs| && j <= |rs'| && forall i :: 0 <= i < j ==> |rs[i].logs| == |rs'[i].logs|
    ensures LogsBefore(rs, j) == LogsBefore(rs', j)
  {
    if j > 0 { LogsBeforeSame(rs, rs', j - 1); }
  }

  lemma {:induction false} LogsBeforeGrows(rs: seq<Receipt>, i: nat, j: nat)
    requires i < j <= |rs|
    ensures LogsBefore(rs, i) + |rs[i].logs| <= LogsBefore(rs, j)
  {
    if i < j - 1 { LogsBeforeGrows(rs, i, j - 1); }
  }

  /** What a receipt says of its transaction, whose logs are numbered on from `first`. */
  ghost predicate Labelled(block: Block, tx: Tx, txIndex: nat, first: nat, r: Receipt, create: Create) {
    && r.txHash == tx.hash && r.contract == Contract(tx, create)
    && r.logs == Numbered(block, tx.hash, txIndex, first, r.logs)
  }

  ghost predicate AllLabelled(block: Block, txs: seq<Tx>, rs: seq<Receipt>, create: Create) {
    |rs| <= |txs| && forall j :: 0 <= j < |rs| ==> Labelled(block, txs[j], j, LogsBefore(rs, j), rs[j], create)
  }

  lemma LabelledMore(block: Block, txs: seq<Tx>, rs: seq<Receipt>, r: Receipt, create: Create)
    requires AllLabelled(block, txs, rs, create) && |rs| < |txs|
    requires Labelled(block, txs[|rs|], |rs|, LogsBefore(rs, |rs|), r, create)
    ensures AllLabelled(block, txs, rs + [r], create)
    ensures LogsBefore(rs + [r], |rs| + 1) == LogsBefore(rs, |rs|) + |r.logs|
  {
    hide Labelled, LogsBefore;
    var more := rs + [r];
    forall j | 0 <= j < |more| ensures Labelled(block, txs[j], j, LogsBefore(more, j), more[j], create) {
      LogsBeforeMore(rs, r, j);
      assert j < |rs| ==> Labelled(block, txs[j], j, LogsBefore(rs, j), rs[j], create);
    }
    LogsBeforeMore(rs, r, |rs|);
  }

  lemma LogsBeforeMore(rs: seq<Receipt>, r: Receipt, j: nat)
    requires j <= |rs|
    ensures LogsBefore(rs + [r], j) == LogsBefore(rs, j)
    ensures LogsBefore(rs + [r], |rs| + 1) == LogsBefore(rs + [r], |rs|) + |r.logs|
  {
    LogsBeforeSame(rs, rs + [r], j);
  }

  /** No two logs of a block have the same index. */
  lemma LogIndexOnce(block: Block, txs: seq<Tx>, rs: seq<Receipt>, create: Create, i: nat, k: nat, j: nat, m: nat)
    requires AllLabelled(block, txs, rs, create) && i < |rs| && j < |rs| && k < |rs[i].logs| && m < |rs[j].logs|
    ensures rs[i].logs[k].index == rs[j].logs[m].index ==> i == j && k == m
  {
    assert rs[i].logs[k] == Numbered(block, txs[i].hash, i, LogsBefore(rs, i), rs[i].logs)[k];
    assert rs[j].logs[m] == Numbered(block, txs[j].hash, j, LogsBefore(rs, j), rs[j].logs)[m];
    if i < j { LogsBeforeGrows(rs, i, j); }
    if j < i { LogsBeforeGrows(rs, j, i); }
  }

  // ----- gas -----

  /** The gas of the first receipts together. */
  function GasOf(rs: seq<Receipt>): nat {
    if rs == [] then 0 else GasOf(rs[..|rs| - 1]) + rs[|rs| - 1].gasUsed
  }

  /** Cumulative gas is the prefix sum of the receipts' own gas. */
  ghost predicate Cumulative(rs: seq<Receipt>) {
    forall j :: 0 <= j < |rs| ==> rs[j].cumulative == GasOf(rs[..j + 1])
  }

  lemma CumulativeMore(rs: seq<Receipt>, r: Receipt)
    requires Cumulative(rs) && r.cumulative == GasOf(rs) + r.gasUsed
    ensures Cumulative(rs + [r]) && GasOf(rs + [r]) == r.cumulative
  {
    var more := rs + [r];
    assert more[..|rs|] == rs;
    forall j | 0 <= j < |more| ensures more[j].cumulative == GasOf(more[..j + 1]) {
      if j < |rs| {
        assert more[..j + 1] == rs[..j + 1];
      } else {
        assert more[..j + 1] == more;
      }
    }
  }

  /** ApplyTransaction: the receipt carries the gas used so far in the block. The logs the
      run emitted are given; they are stamped as they are added to the state. */
  method ApplyTransaction(gp: GasPool, state: StateDB, tx: Tx, usedGas: Uint64, homestead: bool, coinbase: Address, evm: Evm,
                          block: Block, txIndex: nat, logSize: nat, emitted: seq<Log>, create: Create)
    returns (receipt: Option<Receipt>, usedGas': Uint64)
    requires Lawful(evm) && |tx.msg.data| <= TxList.MAX_UINT64 && gp.gas + usedGas <= TxList.MAX_UINT64
    modifies gp, state
    ensures receipt.Some? <==> old(Fails(tx.msg, state.balances, state.nonces, gp.gas, homestead)) == None
    ensures receipt.Some? ==> gp.gas + usedGas' == old(gp.gas) + usedGas && Total(state.balances) == old(Total(state.balances))
    ensures receipt.Some? ==> receipt.value.cumulative == usedGas' == usedGas + receipt.value.gasUsed
    ensures receipt.Some? ==> Labelled(block, tx, txIndex, logSize, receipt.value, create)
    ensures receipt.Some? ==> receipt.value.logs == Numbered(block, tx.hash, txIndex, logSize, emitted)
    ensures receipt.Some? ==> Settled(tx.msg, old(state.balances), old(state.nonces), homestead, coinbase, evm,
                                      receipt.value.gasUsed, receipt.value.failed, state.balances, state.nonces)
    ensures Applied(World(old(state.balances), old(state.nonces), old(gp.gas)), tx.msg, homestead, coinbase, evm)
      == if receipt.Some? then Some(World(state.balances, state.nonces, gp.gas)) else None
  {
    hide *;
    ghost var w := World(state.balances, state.nonces, gp.gas);
    var st := new StateTransition(gp, tx.msg, state);
    var r := st.TransitionDb(homestead, coinbase, evm);
    AppliedIs(w, tx.msg, homestead, coinbase, evm);
    if r.Err? {
      return None, usedGas;
    }
    usedGas' := usedGas + r.usedGas;
    var logs := Numbered(block, tx.hash, txIndex, logSize, emitted);
    receipt := Some(Receipt(tx.hash, r.failed, usedGas', r.usedGas, Contract(tx, create), logs));
    LabelledIs(block, tx, txIndex, logSize, emitted, receipt.value, create);
  }

  lemma LabelledIs(block: Block, tx: Tx, txIndex: nat, first: nat, emitted: seq<Log>, r: Receipt, create: Create)
    requires r.txHash == tx.hash && r.contract == Contract(tx, create) && r.logs == Numbered(block, tx.hash, txIndex, first, emitted)
    ensures Labelled(block, tx, txIndex, first, r, create)
  {
    NumberedTwice(block, tx.hash, txIndex, first, emitted);
  }

  /** The machine as each transaction finds it, with the storage the earlier ones left. */
  ghost predicate AllLawful(evms: nat -> Evm) { forall i: nat :: Lawful(evms(i)) }

  lemma LawfulHere(evms: nat -> Evm, i: nat)
    requires AllLawful(evms)
    ensures Lawful(evms(i))
  {
  }

  /** A block's transactions one after the other; a failing one fails the block. */
  ghost function RanAll(w: World, txs: seq<Tx>, homestead: bool, coinbase: Address, evms: nat -> Evm): Option<World>
    requires AllLawful(evms)
  {
    if txs == [] then Some(w)
    else
      var before := RanAll(w, txs[..|txs| - 1], homestead, coinbase, evms);
      if before.None? then None else Applied(before.value, txs[|txs| - 1].msg, homestead, coinbase, evms(|txs| - 1))
  }

  lemma RanNext(w: World, txs: seq<Tx>, i: nat, homestead: bool, coinbase: Address, evms: nat -> Evm, w': World)
    requires AllLawful(evms) && i < |txs| && RanAll(w, txs[..i], homestead, coinbase, evms) == Some(w')
    ensures RanAll(w, txs[..i + 1], homestead, coinbase, evms) == Applied(w', txs[i].msg, homestead, coinbase, evms(i))
  {
    assert txs[..i + 1][..i] == txs[..i];
  }

  /** A receipt says what its transaction did, from the world the earlier ones left: the gas
      charged, whether the run failed, and the logs it emitted. */
  ghost predicate Tells(w: World, txs: seq<Tx>, homestead: bool, coinbase: Address, evms: nat -> Evm, block: Block, emitted: nat -> seq<Log>,
                        i: nat, first: nat, r: Receipt)
    requires AllLawful(evms) && i < |txs|
  {
    var before, after := RanAll(w, txs[..i], homestead, coinbase, evms), RanAll(w, txs[..i + 1], homestead, coinbase, evms);
    && before.Some? && after.Some?
    && Settled(txs[i].msg, before.value.balances, before.value.nonces, homestead, coinbase, evms(i), r.gasUsed, r.failed,
               after.value.balances, after.value.nonces)
    && before.value.pool == after.value.pool + r.gasUsed
    && r.logs == Numbered(block, txs[i].hash, i, first, emitted(i))
  }

  ghost predicate AllTell(w: World, txs: seq<Tx>, homestead: bool, coinbase: Address, evms: nat -> Evm, block: Block,
                          emitted: nat -> seq<Log>, rs: seq<Receipt>)
    requires AllLawful(evms)
  {
    |rs| <= |txs| && forall i :: 0 <= i < |rs| ==> Tells(w, txs, homestead, coinbase, evms, block, emitted, i, LogsBefore(rs, i), rs[i])
  }

  lemma TellsIs(w: World, txs: seq<Tx>, homestead: bool, coinbase: Address, evms: nat -> Evm, block: Block, emitted: nat -> seq<Log>,
                i: nat, first: nat, r: Receipt, before: World, after: World)
    requires AllLawful(evms) && i < |txs| && RanAll(w, txs[..i], homestead, coinbase, evms) == Some(before)
    requires RanAll(w, txs[..i + 1], homestead, coinbase, evms) == Some(after) && before.pool == after.pool + r.gasUsed
    requires Settled(txs[i].msg, before.balances, before.nonces, homestead, coinbase, evms(i), r.gasUsed, r.failed, after.balances, after.nonces)
    requires r.logs == Numbered(block, txs[i].hash, i, first, emitted(i))
    ensures Tells(w, txs, homestead, coinbase, evms, block, emitted, i, first, r)
  {
  }

  lemma AllTellMore(w: World, txs: seq<Tx>, homestead: bool, coinbase: Address, evms: nat -> Evm, block: Block, emitted: nat -> seq<Log>,
                    rs: seq<Receipt>, r: Receipt)
    requires AllLawful(evms) && AllTell(w, txs, homestead, coinbase, evms, block, emitted, rs) && |rs| < |txs|
    requires Tells(w, txs, homestead, coinbase, evms, block, emitted, |rs|, LogsBefore(rs, |rs|), r)
    ensures AllTell(w, txs, homestead, coinbase, evms, block, emitted, rs + [r])
  {
    hide Tells, LogsBefore;
    var more := rs + [r];
    forall i | 0 <= i < |more| ensures Tells(w, txs, homestead, coinbase, evms, block, emitted, i, LogsBefore(more, i), more[i]) {
      LogsBeforeMore(rs, r, i);
      assert i < |rs| ==> Tells(w, txs, homestead, coinbase, evms, block, emitted, i, LogsBefore(rs, i), rs[i]);
    }
  }

  lemma AllTellNone(w: World, txs: seq<Tx>, homestead: bool, coinbase: Address, evms: nat -> Evm, block: Block, emitted: nat -> seq<Log>)
    requires AllLawful(evms)
    ensures AllTell(w, txs, homestead, coinbase, evms, block, emitted, [])
  {
  }

  lemma RanNone(w: World, txs: seq<Tx>, homestead: bool, coinbase: Address, evms: nat -> Evm)
    requires AllLawful(evms)
    ensures RanAll(w, txs[..0], homestead, coinbase, evms) == Some(w)
  {
  }

  /** A block that fails on the way fails. */
  lemma {:induction false} RanFails(w: World, txs: seq<Tx>, i: nat, homestead: bool, coinbase: Address, evms: nat -> Evm)
    requires AllLawful(evms) && i <= |txs| && RanAll(w, txs[..i], homestead, coinbase, evms) == None
    ensures RanAll(w, txs, homestead, coinbase, evms) == None
    decreases |txs| - i
  {
    if i == |txs| {
      assert txs[..i] == txs;
    } else {
      assert txs[..i + 1][..i] == txs[..i];
      RanFails(w, txs, i + 1, homestead, coinbase, evms);
    }
  }

  /** Process: what is left in the pool and what was used make the gas limit, receipts
      accumulate, and balances only move. */
  method Process(gasLimit: Uint64, txs: seq<Tx>, state: StateDB, homestead: bool, coinbase: Address, evms: nat -> Evm,
                 block: Block, emitted: nat -> seq<Log>, create: Create)
    returns (receipts: Option<seq<Receipt>>, usedGas: Uint64, ghost left: nat)
    requires AllLawful(evms) && forall i :: 0 <= i < |txs| ==> |txs[i].msg.data| <= TxList.MAX_UINT64
    modifies state
    ensures receipts.Some? ==> left + usedGas == gasLimit && Total(state.balances) == old(Total(state.balances))
    ensures receipts.Some? ==> |receipts.value| == |txs| && Cumulative(receipts.value) && usedGas == GasOf(receipts.value)
    ensures receipts.Some? ==> AllLabelled(block, txs, receipts.value, create)
    ensures receipts.Some? ==>
      AllTell(World(old(state.balances), old(state.nonces), gasLimit), txs, homestead, coinbase, evms, block, emitted, receipts.value)
    ensures RanAll(World(old(state.balances), old(state.nonces), gasLimit), txs, homestead, coinbase, evms)
      == if receipts.Some? then Some(World(state.balances, state.nonces, left)) else None
  {
    hide *;
    ghost var w := World(state.balances, state.nonces, gasLimit);
    RanNone(w, txs, homestead, coinbase, evms);
    var gp := new GasPool();
    gp.AddGas(gasLimit);
    var done: seq<Receipt> := [];
    var logSize: nat := 0;
    usedGas := 0;
    CumulativeNone();
    LabelledNone(block, txs, create);
    AllTellNone(w, txs, homestead, coinbase, evms, block, emitted);
    for i := 0 to |txs|
      invariant fresh(gp) && gp.gas + usedGas == gasLimit && Total(state.balances) == old(Total(state.balances))
      invariant RanAll(w, txs[..i], homestead, coinbase, evms) == Some(World(state.balances, state.nonces, gp.gas))
      invariant |done| == i && Cumulative(done) && usedGas == GasOf(done)
      invariant AllLabelled(block, txs, done, create) && logSize == LogsBefore(done, i)
      invariant AllTell(w, txs, homestead, coinbase, evms, block, emitted, done)
    {
      LawfulHere(evms, i);
      RanNext(w, txs, i, homestead, coinbase, evms, World(state.balances, state.nonces, gp.gas));
      ghost var before := World(state.balances, state.nonces, gp.gas);
      var receipt;
      receipt, usedGas := ApplyTransaction(gp, state, txs[i], usedGas, homestead, coinbase, evms(i),
                                           block, i, logSize, emitted(i), create);
      if receipt.None? {
        RanFails(w, txs, i + 1, homestead, coinbase, evms);
        return None, 0, 0;
      }
      CumulativeMore(done, receipt.value);
      LabelledMore(block, txs, done, receipt.value, create);
      TellsIs(w, txs, homestead, coinbase, evms, block, emitted, i, logSize, receipt.value, before, World(state.balances, state.nonces, gp.gas));
      AllTellMore(w, txs, homestead, coinbase, evms, block, emitted, done, receipt.value);
      done := done + [receipt.value];
      logSize := logSize + |receipt.value.logs|;
    }
    assert txs[..|txs|] == txs;
    receipts := Some(done);
    left := gp.gas;
  }

  lemma LabelledNone(block: Block, txs: seq<Tx>, create: Create)
    ensures AllLabelled(block, txs, [], create) && LogsBefore([], 0) == 0
  {
  }

  lemma CumulativeNone()
    ensures Cumulative([]) && GasOf([]) == 0
  {
  }

  // ----- receipts read back -----

  /** A difference in 64 bits. */
  function Diff(a: Uint64, b: Uint64): Uint64 { (a - b) % TWO_64 }

  /** The gas SetReceiptsData gives a receipt. */
  function Own(rs: seq<Receipt>, j: nat): Uint64
    requires j < |rs|
  {
    if j == 0 then rs[0].cumulative else Diff(rs[j].cumulative, rs[j - 1].cumulative)
  }

  /** Receipts of a processed block get back their own gas. */
  lemma OwnGas(rs: seq<Receipt>, j: nat)
    requires Cumulative(rs) && j < |rs|
    ensures Own(rs, j) == rs[j].gasUsed
  {
    assert rs[..j + 1][..j] == rs[..j];
    if j == 0 {
      assert rs[..0] == [];
    } else {
      assert rs[j - 1].cumulative == GasOf(rs[..j]);
      assert 0 <= rs[j].gasUsed < TWO_64;
    }
  }

  /** A receipt with all that block and transaction determine. */
  function Completed(block: Block, txs: seq<Tx>, rs: seq<Receipt>, create: Create, j: nat): Receipt
    requires j < |rs| == |txs|
  {
    Receipt(txs[j].hash, rs[j].failed, rs[j].cumulative, Own(rs, j),
            if txs[j].msg.creation then Contract(txs[j], create) else rs[j].contract,
            Numbered(block, txs[j].hash, j, LogsBefore(rs, j), rs[j].logs))
  }

  lemma CompletedIs(block: Block, txs: seq<Tx>, rs: seq<Receipt>, create: Create, j: nat, logs: seq<Log>, r: Receipt)
    requires j < |rs| == |txs| && logs == Numbered(block, txs[j].hash, j, LogsBefore(rs, j), rs[j].logs)
    requires r == Receipt(txs[j].hash, rs[j].failed, rs[j].cumulative,
                          if j == 0 then rs[0].cumulative else Diff(rs[j].cumulative, rs[j - 1].cumulative),
                          if txs[j].msg.creation then create(txs[j].msg.from, txs[j].msg.nonce) else rs[j].contract, logs)
    ensures r == Completed(block, txs, rs, create, j)
    ensures LogsBefore(rs, j + 1) == LogsBefore(rs, j) + |logs|
  {
  }

  /** SetReceiptsData, in place. Receipts of another count are refused. */
  method SetReceiptsData(block: Block, txs: seq<Tx>, receipts: array<Receipt>, create: Create) returns (ok: bool)
    modifies receipts
    ensures ok <==> |txs| == receipts.Length
    ensures !ok ==> receipts[..] == old(receipts[..])
    ensures ok ==> forall j :: 0 <= j < receipts.Length ==> receipts[j] == Completed(block, txs, old(receipts[..]), create, j)
  {
    hide *;
    if |txs| != receipts.Length { return false; }
    ghost var rs := receipts[..];
    var logIndex: nat := 0;
    LogsNone(rs);
    for j := 0 to receipts.Length
      invariant forall m :: 0 <= m < j ==> receipts[m] == Completed(block, txs, rs, create, m) && receipts[m].cumulative == rs[m].cumulative
      invariant forall m :: j <= m < receipts.Length ==> receipts[m] == rs[m]
      invariant logIndex == LogsBefore(rs, j)
    {
      receipts[j] := receipts[j].(txHash := txs[j].hash);
      if txs[j].msg.creation {
        receipts[j] := receipts[j].(contract := create(txs[j].msg.from, txs[j].msg.nonce));
      }
      if j == 0 {
        receipts[j] := receipts[j].(gasUsed := receipts[j].cumulative);
      } else {
        receipts[j] := receipts[j].(gasUsed := Diff(receipts[j].cumulative, receipts[j - 1].cumulative));
      }
      var logs := SetLogs(block, receipts[j].txHash, j, logIndex, receipts[j].logs);
      receipts[j] := receipts[j].(logs := logs);
      CompletedIs(block, txs, rs, create, j, logs, receipts[j]);
      logIndex := logIndex + |logs|;
    }
    return true;
  }

  lemma LogsNone(rs: seq<Receipt>)
    ensures LogsBefore(rs, 0) == 0
  {
  }

  /** Its inner loop. */
  method SetLogs(block: Block, txHash: nat, txIndex: nat, first: nat, given: seq<Log>) returns (logs: seq<Log>)
    ensures logs == Numbered(block, txHash, txIndex, first, given)
  {
    logs := given;
    var logIndex := first;
    for k := 0 to |given|
      invariant |logs| == |given| && logIndex == first + k
      invariant forall m :: 0 <= m < k ==> logs[m] == Stamped(block, txHash, txIndex, first + m, given[m])
      invariant forall m :: k <= m < |given| ==> logs[m] == given[m]
    {
      logs := logs[k := logs[k].(blockNumber := block.number, blockHash := block.hash, txHash := txHash, txIndex := txIndex, index := logIndex)];
      logIndex := logIndex + 1;
    }
  }

  /** What travels of a log and of a receipt. */
  function SentLog(log: Log): Log { Log(log.payload, 0, 0, 0, 0, 0) }

  function Sent(r: Receipt): Receipt {
    Receipt(0, r.failed, r.cumulative, 0, 0, seq(|r.logs|, k requires 0 <= k < |r.logs| => SentLog(r.logs[k])))
  }

  /** Sending a block's receipts and completing them again gives them back. */
  method RoundTrip(block: Block, txs: seq<Tx>, rs: seq<Receipt>, create: Create) returns (back: array<Receipt>)
    requires |txs| == |rs| && Cumulative(rs) && AllLabelled(block, txs, rs, create)
    ensures back[..] == rs
  {
    back := new Receipt[|rs|](i requires 0 <= i < |rs| => Sent(rs[i]));
    ghost var sent := back[..];
    var ok := SetReceiptsData(block, txs, back, create);
    forall j | 0 <= j < |rs| ensures back[j] == rs[j] {
      CompletedBack(block, txs, rs, sent, create, j);
    }
  }

  lemma CompletedBack(block: Block, txs: seq<Tx>, rs: seq<Receipt>, sent: seq<Receipt>, create: Create, j: nat)
    requires |txs| == |rs| == |sent| && Cumulative(rs) && AllLabelled(block, txs, rs, create) && j < |rs|
    requires forall i :: 0 <= i < |rs| ==> sent[i] == Sent(rs[i])
    ensures Completed(block, txs, sent, create, j) == rs[j]
  {
    hide Cumulative, LogsBefore, Numbered, Own, Diff, AllLabelled, Contract;
    LabelledAt(block, txs, rs, create, j);
    OwnGas(rs, j);
    OwnSent(rs, sent, j);
    LogsBeforeSame(rs, sent, j);
    NumberedSent(block, txs[j].hash, j, LogsBefore(rs, j), rs[j]);
    ContractIs(txs[j], create);
  }

  lemma LabelledAt(block: Block, txs: seq<Tx>, rs: seq<Receipt>, create: Create, j: nat)
    requires AllLabelled(block, txs, rs, create) && j < |rs|
    ensures Labelled(block, txs[j], j, LogsBefore(rs, j), rs[j], create)
  {
  }

  lemma ContractIs(tx: Tx, create: Create)
    ensures !tx.msg.creation ==> Contract(tx, create) == 0
  {
  }

  lemma OwnSent(rs: seq<Receipt>, sent: seq<Receipt>, j: nat)
    requires |sent| == |rs| && j < |rs| && forall i :: 0 <= i < |rs| ==> sent[i] == Sent(rs[i])
    ensures Own(sent, j) == Own(rs, j)
  {
  }

  /** Numbering looks at payloads only. */
  lemma NumberedSent(block: Block, txHash: nat, txIndex: nat, first: nat, r: Receipt)
    ensures Numbered(block, txHash, txIndex, first, Sent(r).logs) == Numbered(block, txHash, txIndex, first, r.logs)
  {
  }
}
