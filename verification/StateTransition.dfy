/** Gas and balance accounting of core/state_transition.go and core/gaspool.go. The EVM
    is a given step that moves balances without changing their total and returns no
    more gas than it got.
 */
module StateTransition {
  import opened Wrappers
  import opened Counting
  import TxList

  type Address = nat
  type Uint64 = TxList.Uint64

  const TX_GAS: nat := 21000
  const TX_GAS_CONTRACT_CREATION: nat := 53000
  const TX_DATA_ZERO_GAS: nat := 4
  const TX_DATA_NON_ZERO_GAS: nat := 68

  // ----- balances -----

  type Balances = map<Address, nat>

  function Balance(b: Balances, a: Address): nat { if a in b then b[a] else 0 }

  function Credit(b: Balances, a: Address, v: nat): Balances { b[a := Balance(b, a) + v] }

  function Debit(b: Balances, a: Address, v: nat): Balances
    requires v <= Balance(b, a)
  {
    b[a := Balance(b, a) - v]
  }

  lemma TotalSet(b: Balances, a: Address, v: nat)
    ensures Total(b[a := v]) + Balance(b, a) == Total(b) + v
  {
    TotalWithout(b[a := v], a);
    assert b[a := v] - {a} == b - {a};
    if a in b {
      TotalWithout(b, a);
    } else {
      assert b - {a} == b;
    }
  }

  // ----- intrinsic gas -----

  function NonZero(data: seq<bv8>): nat {
    if data == [] then 0 else NonZero(data[..|data| - 1]) + if data[|data| - 1] != 0 then 1 else 0
  }

  lemma {:induction false} NonZeroBound(data: seq<bv8>)
    ensures NonZero(data) <= |data|
  {
    if data != [] { NonZeroBound(data[..|data| - 1]); }
  }

  /** The price of a message's data, in numbers without bound. */
  function Intrinsic(data: seq<bv8>, contractCreation: bool, homestead: bool): nat {
    NonZeroBound(data);
    (if contractCreation && homestead then TX_GAS_CONTRACT_CREATION else TX_GAS)
      + NonZero(data) * TX_DATA_NON_ZERO_GAS + (|data| - NonZero(data)) * TX_DATA_ZERO_GAS
  }

  /** IntrinsicGas: the price, or out of gas exactly if it exceeds 64 bits. */
  method IntrinsicGas(data: seq<bv8>, contractCreation: bool, homestead: bool) returns (r: Option<Uint64>)
    requires |data| <= TxList.MAX_UINT64
    ensures r == if Intrinsic(data, contractCreation, homestead) <= TxList.MAX_UINT64 then Some(Intrinsic(data, contractCreation, homestead)) else None
  {
    var gas: Uint64 := if contractCreation && homestead then TX_GAS_CONTRACT_CREATION else TX_GAS;
    NonZeroBound(data);
    if |data| > 0 {
      var nz: nat := 0;
      for i := 0 to |data|
        invariant nz == NonZero(data[..i])
      {
        assert data[..i + 1][..i] == data[..i];
        if data[i] != 0 { nz := nz + 1; }
      }
      assert data[..|data|] == data;
      if (TxList.MAX_UINT64 - gas) / TX_DATA_NON_ZERO_GAS < nz { return None; }
      gas := gas + nz * TX_DATA_NON_ZERO_GAS;
      var z := |data| - nz;
      if (TxList.MAX_UINT64 - gas) / TX_DATA_ZERO_GAS < z { return None; }
      gas := gas + z * TX_DATA_ZERO_GAS;
    }
    return Some(gas);
  }

  // ----- the gas pool -----

  class GasPool {
    var gas: Uint64

    constructor () ensures gas == 0 { gas := 0; }

    /** AddGas panics beyond 64 bits: its callers never get there. */
    method AddGas(amount: Uint64)
      requires gas + amount <= TxList.MAX_UINT64
      modifies this
      ensures gas == old(gas) + amount
    {
      gas := gas + amount;
    }

    method SubGas(amount: Uint64) returns (ok: bool)
      modifies this
      ensures ok <==> old(gas) >= amount
      ensures gas == if ok then old(gas) - amount else old(gas)
    {
      if gas < amount { return false; }
      gas := gas - amount;
      return true;
    }
  }

  // ----- messages and the EVM -----

  datatype Msg = Msg(from: Address, creation: bool, value: nat, gasPrice: nat, gas: Uint64, nonce: nat, checkNonce: bool, data: seq<bv8>)

  type Nonces = map<Address, nat>

  function Nonce(n: Nonces, a: Address): nat { if a in n then n[a] else 0 }

  datatype VmError = NoError | InsufficientBalance | OtherError

  /** What running a message leaves behind: gas left over and the refund counter. */
  datatype Outcome = Outcome(balances: Balances, nonces: Nonces, gas: nat, refund: nat, err: VmError)

  type Evm = (Msg, Balances, Nonces, nat) -> Outcome

  /** Running moves balances, uses gas up, and refuses exactly a value the sender does not
      have, before anything else. */
  ghost predicate Lawful(evm: Evm) {
    forall m, b, n, g :: LawfulAt(m, b, n, g, evm(m, b, n, g))
  }

  ghost predicate LawfulAt(m: Msg, b: Balances, n: Nonces, g: nat, out: Outcome) {
    && Total(out.balances) == Total(b) && out.gas <= g
    && (out.err == InsufficientBalance <==> Balance(b, m.from) < m.value)
    && (out.err == InsufficientBalance ==> out.balances == b && out.nonces == n && out.gas == g)
  }

  /** The plainest such machine: it checks the value and moves nothing. */
  lemma IdleIsLawful()
    ensures Lawful((m: Msg, b: Balances, n: Nonces, g: nat) => Outcome(b, n, g, 0, if Balance(b, m.from) < m.value then InsufficientBalance else NoError))
  {
  }

  datatype Error = NonceTooHigh | NonceTooLow | NoBalanceForGas | GasLimitReached | OutOfGas | NoBalance

  datatype Result = Ok(usedGas: Uint64, failed: bool) | Err(error: Error)

  class StateDB {
    var balances: Balances
    var nonces: Nonces
    var refund: nat
  }

  // ----- what a transition promises -----

  /** The price of an amount of gas. */
  function Price(gas: nat, msg: Msg): nat { gas * msg.gasPrice }

  function Cost(msg: Msg): nat { Price(msg.gas, msg) }

  function Min(a: nat, b: nat): nat { if a < b then a else b }

  predicate NonceFits(msg: Msg, n: Nonces) { msg.checkNonce ==> Nonce(n, msg.from) == msg.nonce }

  /** Gas can be bought: the nonce fits, the sender can pay and the pool has enough. */
  predicate Buys(msg: Msg, b: Balances, n: Nonces, pool: nat) {
    NonceFits(msg, n) && Cost(msg) <= Balance(b, msg.from) && msg.gas <= pool
  }

  /** A call raises the sender's nonce itself, a creation leaves that to the EVM. */
  function Started(msg: Msg, n: Nonces): Nonces {
    if msg.creation then n else n[msg.from := Nonce(n, msg.from) + 1]
  }

  /** What the EVM makes of a message whose gas was bought. */
  function Ran(msg: Msg, b: Balances, n: Nonces, homestead: bool, evm: Evm): Outcome
    requires Cost(msg) <= Balance(b, msg.from) && Intrinsic(msg.data, msg.creation, homestead) <= msg.gas
  {
    evm(msg, Debit(b, msg.from, Cost(msg)), Started(msg, n), msg.gas - Intrinsic(msg.data, msg.creation, homestead))
  }

  /** The gas charged: what was consumed less the refund, at most half of it. */
  function Charged(msg: Msg, out: Outcome): (used: nat)
    requires out.gas <= msg.gas
    ensures used <= msg.gas - out.gas <= 2 * used
  {
    var consumed := msg.gas - out.gas;
    consumed - Min(consumed / 2, out.refund)
  }

  /** Exactly which error a transition ends with. */
  function Fails(msg: Msg, b: Balances, n: Nonces, pool: nat, homestead: bool): Option<Error> {
    if !NonceFits(msg, n) then Some(if Nonce(n, msg.from) < msg.nonce then NonceTooHigh else NonceTooLow)
    else if Balance(b, msg.from) < Cost(msg) then Some(NoBalanceForGas)
    else if pool < msg.gas then Some(GasLimitReached)
    else if msg.gas < Intrinsic(msg.data, msg.creation, homestead) then Some(OutOfGas)
    else if Balance(b, msg.from) - Cost(msg) < msg.value then Some(NoBalance)
    else None
  }

  /** Paying back what is left and paying the miner restores the total, whoever they are. */
  lemma Conserved(b: Balances, from: Address, cost: nat, ran: Balances, coinbase: Address, back: nat, fee: nat)
    requires cost <= Balance(b, from) && Total(ran) == Total(Debit(b, from, cost)) && back + fee == cost
    ensures Total(Credit(Credit(ran, from, back), coinbase, fee)) == Total(b)
  {
    hide *;
    Lost(b, from, cost);
    Gained(ran, from, back);
    Gained(Credit(ran, from, back), coinbase, fee);
  }

  lemma Lost(b: Balances, from: Address, cost: nat)
    requires cost <= Balance(b, from)
    ensures Total(Debit(b, from, cost)) + cost == Total(b)
  {
    TotalSet(b, from, Balance(b, from) - cost);
  }

  lemma Gained(b: Balances, to: Address, v: nat)
    ensures Total(Credit(b, to, v)) == Total(b) + v
  {
    TotalSet(b, to, Balance(b, to) + v);
  }

  lemma Distribute(a: nat, b: nat, msg: Msg)
    ensures Price(a + b, msg) == Price(a, msg) + Price(b, msg)
  {
  }

  class StateTransition {
    const gp: GasPool
    const msg: Msg
    const state: StateDB
    var gas: Uint64
    var initialGas: Uint64

    constructor (gp: GasPool, msg: Msg, state: StateDB)
      ensures this.gp == gp && this.msg == msg && this.state == state && gas == 0 && initialGas == 0
    {
      this.gp, this.msg, this.state, gas, initialGas := gp, msg, state, 0, 0;
    }

    method UseGas(amount: Uint64) returns (ok: bool)
      modifies this`gas
      ensures ok <==> old(gas) >= amount
      ensures gas == if ok then old(gas) - amount else old(gas)
    {
      if gas < amount { return false; }
      gas := gas - amount;
      return true;
    }

    /** buyGas: all or nothing. */
    method BuyGas() returns (err: Option<Error>)
      requires gas == 0
      modifies this, gp, state`balances
      ensures err == if Balance(old(state.balances), msg.from) < Cost(msg) then Some(NoBalanceForGas)
                     else if old(gp.gas) < msg.gas then Some(GasLimitReached) else None
      ensures err.Some? ==> unchanged(this) && gp.gas == old(gp.gas) && unchanged(state)
      ensures err.None? ==> gas == initialGas == msg.gas && gp.gas == old(gp.gas) - msg.gas
      ensures err.None? ==> state.balances == Debit(old(state.balances), msg.from, Cost(msg))
    {
      var mgval := Price(msg.gas, msg);
      if Balance(state.balances, msg.from) < mgval { return Some(NoBalanceForGas); }
      var ok := gp.SubGas(msg.gas);
      if !ok { return Some(GasLimitReached); }
      gas := gas + msg.gas;
      initialGas := msg.gas;
      state.balances := Debit(state.balances, msg.from, mgval);
      return None;
    }

    method PreCheck() returns (err: Option<Error>)
      requires gas == 0
      modifies this, gp, state`balances
      ensures err.Some? <==> !old(Buys(msg, state.balances, state.nonces, gp.gas))
      ensures forall homestead :: err.Some? ==> err == Fails(msg, old(state.balances), old(state.nonces), old(gp.gas), homestead)
      ensures err.Some? ==> unchanged(this) && gp.gas == old(gp.gas) && unchanged(state)
      ensures err.None? ==> gas == initialGas == msg.gas && gp.gas == old(gp.gas) - msg.gas
      ensures err.None? ==> state.balances == Debit(old(state.balances), msg.from, Cost(msg))
    {
      if msg.checkNonce {
        var nonce := Nonce(state.nonces, msg.from);
        if nonce < msg.nonce { return Some(NonceTooHigh); }
        if nonce > msg.nonce { return Some(NonceTooLow); }
      }
      err := BuyGas();
    }

    /** refundGas: neither the gas counter nor the pool leaves 64 bits. */
    method RefundGas()
      requires gas <= initialGas && gp.gas + initialGas <= TxList.MAX_UINT64
      modifies this`gas, gp, state`balances
      ensures gas == old(gas) + Min((initialGas - old(gas)) / 2, state.refund) && gas <= initialGas
      ensures gp.gas == old(gp.gas) + gas && state.balances == Credit(old(state.balances), msg.from, Price(gas, msg))
    {
      var refund := (initialGas - gas) / 2;
      if refund > state.refund { refund := state.refund; }
      gas := gas + refund;
      var remaining := Price(gas, msg);
      state.balances := Credit(state.balances, msg.from, remaining);
      gp.AddGas(gas);
    }
  
    /** The end of a run: the sender gets back what is left, the coinbase the rest. */
    method Settle(coinbase: Address, ghost b: Balances, ghost out: Outcome) returns (used: Uint64)
      requires gas == out.gas <= initialGas == msg.gas && gp.gas + initialGas <= TxList.MAX_UINT64 && state.balances == out.balances && state.refund == out.refund
      requires Cost(msg) <= Balance(b, msg.from) && Total(out.balances) == Total(Debit(b, msg.from, Cost(msg)))
      modifies this`gas, gp, state`balances
      ensures used <= msg.gas && gp.gas == old(gp.gas) + msg.gas - used && Total(state.balances) == Total(b)
      ensures Ended(msg, out, coinbase, used, out.err != NoError, state.balances)
    {
      hide *;
      RefundGas();
      used := initialGas - gas;
      ChargedIs(msg, out);
      Distribute(gas, used, msg);
      CostIs(msg);
      Conserved(b, msg.from, Cost(msg), out.balances, coinbase, Price(gas, msg), Price(used, msg));
      state.balances := Credit(state.balances, coinbase, Price(used, msg));
      EndedIs(msg, out, coinbase, used, state.balances);
    }

    /** TransitionDb. A success keeps the total of all balances, takes from the pool just
        the gas charged, and has charged at least half of what the run consumed. A
        failure before gas is bought changes nothing; one after it keeps the price of all
        the gas, so the total then drops by exactly that. */
    method TransitionDb(homestead: bool, coinbase: Address, evm: Evm) returns (r: Result)
      requires gas == 0 && Lawful(evm) && |msg.data| <= TxList.MAX_UINT64
      modifies this, gp, state
      ensures Fails(msg, old(state.balances), old(state.nonces), old(gp.gas), homestead) == if r.Err? then Some(r.error) else None
      ensures World(state.balances, state.nonces, gp.gas)
        == Leaves(old(World(state.balances, state.nonces, gp.gas)), msg, homestead, coinbase, evm)
      ensures r.Ok? ==> gp.gas == old(gp.gas) - r.usedGas
      ensures r.Ok? ==> Settled(msg, old(state.balances), old(state.nonces), homestead, coinbase, evm, r.usedGas, r.failed, state.balances, state.nonces)
      ensures Total(state.balances) == old(Total(state.balances)) <==>
        || Fails(msg, old(state.balances), old(state.nonces), old(gp.gas), homestead) == None
        || !old(Buys(msg, state.balances, state.nonces, gp.gas))
        || Cost(msg) == 0
    {
      hide *;
      ghost var w := World(state.balances, state.nonces, gp.gas);
      TotalLeft(w, msg, homestead, coinbase, evm);
      var err := PreCheck();
      LeavesUnbought(w, msg, homestead, coinbase, evm);
      if err.Some? { return Err(err.value); }
      BuysMeans(msg, w.balances, w.nonces, w.pool);
      FailsLater(msg, w.balances, w.nonces, w.pool, homestead);
      LeavesBought(w, msg, homestead, coinbase, evm);
      var intrinsic := IntrinsicGas(msg.data, msg.creation, homestead);
      if intrinsic.None? { return Err(OutOfGas); }
      var ok := UseGas(intrinsic.value);
      if !ok { return Err(OutOfGas); }
      RanIs(msg, w.balances, w.nonces, homestead, evm);
      StartedIs(msg, w.nonces);
      if !msg.creation {
        state.nonces := state.nonces[msg.from := Nonce(state.nonces, msg.from) + 1];
      }
      var out := evm(msg, state.balances, state.nonces, gas);
      state.balances, state.nonces, state.refund := out.balances, out.nonces, out.refund;
      gas := out.gas;
      if out.err == InsufficientBalance { return Err(NoBalance); }
      var used := Settle(coinbase, w.balances, out);
      SettledIs(msg, w.balances, w.nonces, homestead, coinbase, evm, used, out.err != NoError, state.balances, state.nonces);
      LeavesSettled(w, msg, homestead, coinbase, evm, used, out.err != NoError, World(state.balances, state.nonces, gp.gas));
      return Ok(used, out.err != NoError);
    }
  }

  /** The state and the charge a successful transition leaves. */
  ghost predicate Settled(msg: Msg, b: Balances, n: Nonces, homestead: bool, coinbase: Address, evm: Evm, used: nat, failed: bool,
                          after: Balances, nonces: Nonces) {
    && Cost(msg) <= Balance(b, msg.from) && Intrinsic(msg.data, msg.creation, homestead) <= msg.gas
    && Ended(msg, Ran(msg, b, n, homestead, evm), coinbase, used, failed, after) && nonces == Ran(msg, b, n, homestead, evm).nonces
  }

  ghost predicate Ended(msg: Msg, out: Outcome, coinbase: Address, used: nat, failed: bool, after: Balances) {
    && out.gas <= msg.gas && used == Charged(msg, out) && failed == (out.err != NoError)
    && after == Credit(Credit(out.balances, msg.from, Price(msg.gas - used, msg)), coinbase, Price(used, msg))
  }

  lemma EndedIs(msg: Msg, out: Outcome, coinbase: Address, used: nat, after: Balances)
    requires out.gas <= msg.gas && used == Charged(msg, out)
    requires after == Credit(Credit(out.balances, msg.from, Price(msg.gas - used, msg)), coinbase, Price(used, msg))
    ensures Ended(msg, out, coinbase, used, out.err != NoError, after)
  {
  }

  lemma SettledIs(msg: Msg, b: Balances, n: Nonces, homestead: bool, coinbase: Address, evm: Evm, used: nat, failed: bool, after: Balances,
                  nonces: Nonces)
    requires Cost(msg) <= Balance(b, msg.from) && Intrinsic(msg.data, msg.creation, homestead) <= msg.gas
    requires Ended(msg, Ran(msg, b, n, homestead, evm), coinbase, used, failed, after) && nonces == Ran(msg, b, n, homestead, evm).nonces
    ensures Settled(msg, b, n, homestead, coinbase, evm, used, failed, after, nonces)
  {
  }

  lemma ChargedIs(msg: Msg, out: Outcome)
    requires out.gas <= msg.gas
    ensures Charged(msg, out) == msg.gas - out.gas - Min((msg.gas - out.gas) / 2, out.refund)
  {
  }

  lemma CostIs(msg: Msg)
    ensures Cost(msg) == Price(msg.gas, msg)
  {
  }

  lemma BuysMeans(msg: Msg, b: Balances, n: Nonces, pool: nat)
    requires Buys(msg, b, n, pool)
    ensures NonceFits(msg, n) && Cost(msg) <= Balance(b, msg.from) && msg.gas <= pool
  {
  }

  lemma FailsLater(msg: Msg, b: Balances, n: Nonces, pool: nat, homestead: bool)
    requires Buys(msg, b, n, pool) && Cost(msg) <= Balance(b, msg.from)
    ensures Fails(msg, b, n, pool, homestead)
      == if msg.gas < Intrinsic(msg.data, msg.creation, homestead) then Some(OutOfGas)
         else if Balance(b, msg.from) - Cost(msg) < msg.value then Some(NoBalance) else None
  {
  }

  lemma RanIs(msg: Msg, b: Balances, n: Nonces, homestead: bool, evm: Evm)
    requires Lawful(evm) && Cost(msg) <= Balance(b, msg.from) && Intrinsic(msg.data, msg.creation, homestead) <= msg.gas
    ensures var out := Ran(msg, b, n, homestead, evm);
      && out == evm(msg, Debit(b, msg.from, Cost(msg)), Started(msg, n), msg.gas - Intrinsic(msg.data, msg.creation, homestead))
      && Total(out.balances) == Total(Debit(b, msg.from, Cost(msg)))
      && out.gas <= msg.gas - Intrinsic(msg.data, msg.creation, homestead)
      && (out.err == InsufficientBalance <==> Balance(b, msg.from) - Cost(msg) < msg.value)
      && (out.err == InsufficientBalance ==> out.balances == Debit(b, msg.from, Cost(msg)) && out.nonces == Started(msg, n))
  {
    var g: nat := msg.gas - Intrinsic(msg.data, msg.creation, homestead);
    assert LawfulAt(msg, Debit(b, msg.from, Cost(msg)), Started(msg, n), g, Ran(msg, b, n, homestead, evm));
  }

  lemma StartedIs(msg: Msg, n: Nonces)
    ensures Started(msg, n) == if msg.creation then n else n[msg.from := Nonce(n, msg.from) + 1]
  {
  }

  // ----- transitions as a function -----

  datatype World = World(balances: Balances, nonces: Nonces, pool: nat)

  /** What a message leaves of balances, nonces and gas pool, whether it fails or not. */
  ghost function Leaves(w: World, msg: Msg, homestead: bool, coinbase: Address, evm: Evm): World
    requires Lawful(evm)
  {
    if !Buys(msg, w.balances, w.nonces, w.pool) then w
    else
      var bought := Debit(w.balances, msg.from, Cost(msg));
      if msg.gas < Intrinsic(msg.data, msg.creation, homestead) then World(bought, w.nonces, w.pool - msg.gas)
      else if Balance(bought, msg.from) < msg.value then World(bought, Started(msg, w.nonces), w.pool - msg.gas)
      else
        RanIs(msg, w.balances, w.nonces, homestead, evm);
        var out := Ran(msg, w.balances, w.nonces, homestead, evm);
        var used := Charged(msg, out);
        World(Credit(Credit(out.balances, msg.from, Price(msg.gas - used, msg)), coinbase, Price(used, msg)), out.nonces, w.pool - used)
  }

  /** Conservation: the total stays, or falls by the price of the gas bought, and that
      exactly if the message fails after buying it. */
  lemma TotalLeft(w: World, msg: Msg, homestead: bool, coinbase: Address, evm: Evm)
    requires Lawful(evm)
    ensures
      var lost := Buys(msg, w.balances, w.nonces, w.pool) && Fails(msg, w.balances, w.nonces, w.pool, homestead).Some?;
      Total(Leaves(w, msg, homestead, coinbase, evm).balances) + (if lost then Cost(msg) else 0) == Total(w.balances)
  {
    hide Intrinsic, Cost, Price, Total, Lawful, Debit, Credit, Ran;
    if Buys(msg, w.balances, w.nonces, w.pool) {
      Lost(w.balances, msg.from, Cost(msg));
      FailsLater(msg, w.balances, w.nonces, w.pool, homestead);
      DebitedIs(w.balances, msg.from, Cost(msg));
      if Fails(msg, w.balances, w.nonces, w.pool, homestead) == None {
        RanIs(msg, w.balances, w.nonces, homestead, evm);
        var out := Ran(msg, w.balances, w.nonces, homestead, evm);
        var used := Charged(msg, out);
        Distribute(msg.gas - used, used, msg);
        CostIs(msg);
        Conserved(w.balances, msg.from, Cost(msg), out.balances, coinbase, Price(msg.gas - used, msg), Price(used, msg));
      }
    }
  }

  /** One unit of gas short of the intrinsic price, and all 20999 bought are gone. */
  lemma OneGasShort(w: World, from: Address, value: nat, homestead: bool, coinbase: Address, evm: Evm)
    requires Lawful(evm) && Balance(w.balances, from) >= 20999 && w.pool >= 20999
    ensures
      var msg := Msg(from, false, value, 1, 20999, Nonce(w.nonces, from), true, []);
      && Fails(msg, w.balances, w.nonces, w.pool, homestead) == Some(OutOfGas)
      && Total(Leaves(w, msg, homestead, coinbase, evm).balances) == Total(w.balances) - 20999
      && Leaves(w, msg, homestead, coinbase, evm).pool == w.pool - 20999
  {
    var msg := Msg(from, false, value, 1, 20999, Nonce(w.nonces, from), true, []);
    assert Intrinsic([], false, homestead) == 21000;
    TotalLeft(w, msg, homestead, coinbase, evm);
  }

  lemma DebitedIs(b: Balances, a: Address, v: nat)
    requires v <= Balance(b, a)
    ensures Balance(Debit(b, a, v), a) == Balance(b, a) - v
  {
  }

  lemma LeavesUnbought(w: World, msg: Msg, homestead: bool, coinbase: Address, evm: Evm)
    requires Lawful(evm)
    ensures !Buys(msg, w.balances, w.nonces, w.pool) ==> Leaves(w, msg, homestead, coinbase, evm) == w
    ensures !Buys(msg, w.balances, w.nonces, w.pool) ==> Fails(msg, w.balances, w.nonces, w.pool, homestead).Some?
  {
  }

  lemma LeavesBought(w: World, msg: Msg, homestead: bool, coinbase: Address, evm: Evm)
    requires Lawful(evm) && Buys(msg, w.balances, w.nonces, w.pool) && Cost(msg) <= Balance(w.balances, msg.from) && msg.gas <= w.pool
    ensures msg.gas < Intrinsic(msg.data, msg.creation, homestead) ==>
      Leaves(w, msg, homestead, coinbase, evm) == World(Debit(w.balances, msg.from, Cost(msg)), w.nonces, w.pool - msg.gas)
    ensures Intrinsic(msg.data, msg.creation, homestead) <= msg.gas && Balance(w.balances, msg.from) - Cost(msg) < msg.value ==>
      Leaves(w, msg, homestead, coinbase, evm) == World(Debit(w.balances, msg.from, Cost(msg)), Started(msg, w.nonces), w.pool - msg.gas)
  {
    DebitedIs(w.balances, msg.from, Cost(msg));
  }

  lemma LeavesSettled(w: World, msg: Msg, homestead: bool, coinbase: Address, evm: Evm, used: nat, failed: bool, w': World)
    requires Lawful(evm) && Fails(msg, w.balances, w.nonces, w.pool, homestead) == None && w.pool == w'.pool + used
    requires Settled(msg, w.balances, w.nonces, homestead, coinbase, evm, used, failed, w'.balances, w'.nonces)
    ensures Leaves(w, msg, homestead, coinbase, evm) == w'
  {
    DebitedIs(w.balances, msg.from, Cost(msg));
  }

  /** What a message makes of balances, nonces and gas pool, or None if it fails. */
  ghost function Applied(w: World, msg: Msg, homestead: bool, coinbase: Address, evm: Evm): Option<World>
    requires Lawful(evm)
  {
    if Fails(msg, w.balances, w.nonces, w.pool, homestead).Some? then None else Some(Leaves(w, msg, homestead, coinbase, evm))
  }

  lemma AppliedIs(w: World, msg: Msg, homestead: bool, coinbase: Address, evm: Evm)
    requires Lawful(evm)
    ensures Applied(w, msg, homestead, coinbase, evm)
      == if Fails(msg, w.balances, w.nonces, w.pool, homestead).Some? then None else Some(Leaves(w, msg, homestead, coinbase, evm))
  {
  }
}
