/** Whole blocks: transactions applied one after another, with receipts and the block's gas. */
module StateProcessor {
  import opened Wrappers
  import opened Gas
  import opened Ledger
  import opened StateTransition

  /** A created contract's address is a function of its creator and the nonce. */
  datatype Receipt = Receipt(txHash: nat, txIndex: nat, failed: bool, gasUsed: nat, cumulativeGasUsed: nat,
                             contract: Option<(Address, nat)>)

  datatype BlockState = BlockState(world: World, pool: nat, usedGas: nat, receipts: seq<Receipt>)

  datatype Result = Ok(state: BlockState) | Err(error: Error)

  function Initial(world: World, gasLimit: nat): BlockState {
    BlockState(world, gasLimit, 0, [])
  }

  function Enter(w: World, tx: Tx, index: nat): World {
    w.(context := TxContext(tx.hash, index))
  }

  function ReceiptOf(tx: Tx, msg: Message, index: nat, usedGas: nat, o: Outcome): Receipt
    requires o.Accepted?
  {
    Receipt(tx.hash, index, o.failed, o.usedGas, usedGas + o.usedGas, if msg.to.None? then Some((msg.from, tx.nonce)) else None)
  }

  /** One transaction in a block. */
  function Step(env: Env, s: BlockState, tx: Tx): Result
    requires Lawful(env.machine)
  {
    match TransactionToMessage(tx, env.baseFee)
    case None => Err(InvalidSender)
    case Some(msg) =>
      var o := Transition(env, Enter(s.world, tx, |s.receipts|), s.pool, msg);
      if o.Rejected? then Err(o.error)
      else Ok(BlockState(env.machine.finalise(o.world), o.pool, s.usedGas + o.usedGas,
                         s.receipts + [ReceiptOf(tx, msg, |s.receipts|, s.usedGas, o)]))
  }

  /** The transactions in order, up to the first error. */
  function Steps(env: Env, s: BlockState, txs: seq<Tx>): Result
    requires Lawful(env.machine)
  {
    if txs == [] then Ok(s)
    else
      var r := Steps(env, s, txs[..|txs| - 1]);
      if r.Err? then r else Step(env, r.state, txs[|txs| - 1])
  }

  lemma StepsNext(env: Env, s: BlockState, txs: seq<Tx>, tx: Tx)
    requires Lawful(env.machine)
    ensures Steps(env, s, txs + [tx]) == var r := Steps(env, s, txs); if r.Err? then r else Step(env, r.state, tx)
  {
    assert (txs + [tx])[..|txs|] == txs;
  }

  lemma StepsAt(env: Env, s: BlockState, txs: seq<Tx>, i: nat)
    requires Lawful(env.machine) && i < |txs| && Steps(env, s, txs[..i]).Ok?
    ensures Steps(env, s, txs[..i + 1]) == Step(env, Steps(env, s, txs[..i]).state, txs[i])
  {
    assert txs[..i + 1][..i] == txs[..i];
  }

  lemma {:induction false} StepsPrefix(env: Env, s: BlockState, txs: seq<Tx>, k: nat)
    requires Lawful(env.machine) && k <= |txs|
    ensures Steps(env, s, txs[..k]).Err? ==> Steps(env, s, txs) == Steps(env, s, txs[..k])
    decreases |txs|
  {
    if k == |txs| {
      assert txs[..k] == txs;
    } else {
      assert txs[..|txs| - 1][..k] == txs[..k];
      StepsPrefix(env, s, txs[..|txs| - 1], k);
    }
  }

  // ----- gas -----

  function TotalGas(receipts: seq<Receipt>): nat {
    if receipts == [] then 0 else TotalGas(receipts[..|receipts| - 1]) + receipts[|receipts| - 1].gasUsed
  }

  /** The pool and the gas used make up the limit, and cumulative gas in the receipts is the sum so far. */
  ghost predicate Accounted(gasLimit: nat, s: BlockState) {
    && s.pool + s.usedGas == gasLimit
    && s.usedGas == TotalGas(s.receipts)
    && (forall i :: 0 <= i < |s.receipts| ==> s.receipts[i].cumulativeGasUsed == GasUpTo(s.receipts, i + 1))
  }

  /** The sum over a prefix of the receipts. */
  ghost function GasUpTo(receipts: seq<Receipt>, n: nat): nat
    requires n <= |receipts|
  {
    TotalGas(receipts[..n])
  }

  lemma GasUpToSnoc(receipts: seq<Receipt>, r: Receipt, n: nat)
    requires n <= |receipts|
    ensures GasUpTo(receipts + [r], n) == GasUpTo(receipts, n)
  {
    assert (receipts + [r])[..n] == receipts[..n];
  }

  lemma AccountedSnoc(gasLimit: nat, s: BlockState, s': BlockState, r: Receipt)
    requires Accounted(gasLimit, s) && s'.receipts == s.receipts + [r]
    requires s'.pool + s'.usedGas == s.pool + s.usedGas && r.gasUsed + s.usedGas == s'.usedGas == r.cumulativeGasUsed
    ensures Accounted(gasLimit, s')
  {
    var n := |s.receipts|;
    assert TotalGas(s'.receipts) == TotalGas(s.receipts) + r.gasUsed by {
      assert s'.receipts[..n] == s.receipts;
    }
    forall i | 0 <= i < |s'.receipts| ensures s'.receipts[i].cumulativeGasUsed == GasUpTo(s'.receipts, i + 1) {
      if i < n {
        GasUpToSnoc(s.receipts, r, i + 1);
      } else {
        assert s'.receipts[..n + 1] == s'.receipts;
      }
    }
  }

  /** A receipt fits its transaction: the gas it used is within the limit and above the floor that the
      intrinsic gas sets. */
  ghost predicate Fits(tx: Tx, index: nat, r: Receipt) {
    && r.txHash == tx.hash && r.txIndex == index && tx.sender.Some?
    && r.contract == (if tx.to.None? then Some((tx.sender.value, tx.nonce)) else None)
    && r.gasUsed <= tx.gas
    && var g := Intrinsic(tx.data, tx.accessList, tx.to.None?); g.Some? && r.gasUsed >= g.value - g.value / REFUND_QUOTIENT
  }

  /** The receipt tells how the machine's run on the transaction ended and, less the refund, what it used. */
  ghost predicate ReportsRun(env: Env, s: BlockState, tx: Tx, r: Receipt)
    requires Lawful(env.machine) && Step(env, s, tx).Ok?
  {
    var msg := TransactionToMessage(tx, env.baseFee).value;
    var x := Executed(env, Bought(Enter(s.world, tx, |s.receipts|), msg), msg);
    r.failed == x.failed && Refunded(tx.gas, x, r.gasUsed)
  }

  lemma StepFits(env: Env, s: BlockState, tx: Tx)
    requires Lawful(env.machine) && Step(env, s, tx).Ok?
    ensures var s' := Step(env, s, tx).state;
      && |s'.receipts| == |s.receipts| + 1
      && var r := s'.receipts[|s.receipts|];
      && s'.receipts == s.receipts + [r]
      && s'.pool + s'.usedGas == s.pool + s.usedGas && r.gasUsed + s.usedGas == s'.usedGas == r.cumulativeGasUsed
      && Fits(tx, |s.receipts|, r) && ReportsRun(env, s, tx, r)
  {
    RunsOnce(env, Enter(s.world, tx, |s.receipts|), s.pool, TransactionToMessage(tx, env.baseFee).value);
    GasAccounts(env, Enter(s.world, tx, |s.receipts|), s.pool, TransactionToMessage(tx, env.baseFee).value);
  }

  /** A transaction in a block: paid for on the world before, in its own context, run once from `start`,
      paid out to `end` and cleaned up. */
  ghost predicate Leads(env: Env, w: World, index: nat, tx: Tx, start: World, end: World, usedGas: nat, after: World) {
    && TransactionToMessage(tx, env.baseFee).Some?
    && var msg := TransactionToMessage(tx, env.baseFee).value;
    && Prepaid(w.(context := TxContext(tx.hash, index)), msg, start)
    && var g := Intrinsic(tx.data, tx.accessList, tx.to.None?);
    && g.Some? && g.value <= tx.gas
    && PaidOut(env, msg, env.machine.run(start, msg, tx.gas - g.value).world, usedGas, end)
    && after == env.machine.finalise(end)
  }

  lemma MessageLeads(env: Env, w: World, index: nat, tx: Tx, pool: nat) returns (start: World)
    requires Lawful(env.machine) && tx.sender.Some?
    requires Transition(env, Enter(w, tx, index), pool, TransactionToMessage(tx, env.baseFee).value).Accepted?
    ensures var o := Transition(env, Enter(w, tx, index), pool, TransactionToMessage(tx, env.baseFee).value);
      Leads(env, w, index, tx, start, o.world, o.usedGas, env.machine.finalise(o.world))
  {
    var msg := TransactionToMessage(tx, env.baseFee).value;
    RunsOnce(env, Enter(w, tx, index), pool, msg);
    start := Started(Bought(Enter(w, tx, index), msg), msg);
  }

  lemma StepLeads(env: Env, s: BlockState, tx: Tx) returns (start: World, end: World)
    requires Lawful(env.machine) && Step(env, s, tx).Ok?
    ensures var s' := Step(env, s, tx).state;
      s'.usedGas >= s.usedGas && Leads(env, s.world, |s.receipts|, tx, start, end, s'.usedGas - s.usedGas, s'.world)
  {
    start := MessageLeads(env, s.world, |s.receipts|, tx, s.pool);
    end := Transition(env, Enter(s.world, tx, |s.receipts|), s.pool, TransactionToMessage(tx, env.baseFee).value).world;
  }

  lemma EnterViolates(env: Env, w: World, tx: Tx, index: nat, pool: nat, msg: Message)
    ensures forall e: Error :: Violated(env, Enter(w, tx, index), pool, msg, e) <==> Violated(env, w, pool, msg, e)
  {
  }

  /** A transaction is turned away exactly for the first reason against it, or for want of a sender. */
  lemma StepAccepts(env: Env, s: BlockState, tx: Tx)
    requires Lawful(env.machine)
    ensures tx.sender.None? ==> Step(env, s, tx) == Err(InvalidSender)
    ensures tx.sender.Some? ==>
      var r, msg := Step(env, s, tx), TransactionToMessage(tx, env.baseFee).value;
      && (r.Ok? <==> forall e: Error :: !Violated(env, s.world, s.pool, msg, e))
      && (r.Err? ==> Violated(env, s.world, s.pool, msg, r.error)
                     && forall e: Error :: Rank(e) < Rank(r.error) ==> !Violated(env, s.world, s.pool, msg, e))
  {
    if tx.sender.Some? {
      var msg := TransactionToMessage(tx, env.baseFee).value;
      AcceptsExactly(env, Enter(s.world, tx, |s.receipts|), s.pool, msg);
      EnterViolates(env, s.world, tx, |s.receipts|, s.pool, msg);
    }
  }

  ghost predicate AllFit(txs: seq<Tx>, receipts: seq<Receipt>) {
    |receipts| == |txs| && forall i :: 0 <= i < |txs| ==> Fits(txs[i], i, receipts[i])
  }

  lemma AllFitSnoc(txs: seq<Tx>, tx: Tx, receipts: seq<Receipt>, r: Receipt)
    requires AllFit(txs, receipts) && Fits(tx, |receipts|, r)
    ensures AllFit(txs + [tx], receipts + [r])
  {
  }

  /** In every block that runs, and so after every prefix of it: gas is accounted for and each receipt
      fits its transaction. */
  lemma {:induction false} BlockAccounts(env: Env, world: World, gasLimit: nat, txs: seq<Tx>)
    requires Lawful(env.machine) && Steps(env, Initial(world, gasLimit), txs).Ok?
    ensures Accounted(gasLimit, Steps(env, Initial(world, gasLimit), txs).state)
    ensures AllFit(txs, Steps(env, Initial(world, gasLimit), txs).state.receipts)
  {
    if txs != [] {
      var front, last := txs[..|txs| - 1], txs[|txs| - 1];
      BlockAccounts(env, world, gasLimit, front);
      var s := Steps(env, Initial(world, gasLimit), front).state;
      var s' := Step(env, s, last).state;
      StepFits(env, s, last);
      AccountedSnoc(gasLimit, s, s', s'.receipts[|s.receipts|]);
      AllFitSnoc(front, last, s.receipts, s'.receipts[|s.receipts|]);
      assert txs == front + [last];
    }
  }

  /** So do all receipts of a block, each for the state that the transactions before it leave. */
  ghost predicate ReportsRunAt(env: Env, s: BlockState, txs: seq<Tx>, receipts: seq<Receipt>, i: nat)
    requires Lawful(env.machine) && i < |txs| && |receipts| == |s.receipts| + |txs|
  {
    && Steps(env, s, txs[..i]).Ok?
    && var before := Steps(env, s, txs[..i]).state;
    && Step(env, before, txs[i]).Ok? && ReportsRun(env, before, txs[i], receipts[|s.receipts| + i])
  }

  lemma {:induction false} BlockReportsRuns(env: Env, s: BlockState, txs: seq<Tx>, i: nat)
    requires Lawful(env.machine) && Steps(env, s, txs).Ok? && i < |txs|
    ensures var receipts := Steps(env, s, txs).state.receipts;
      |receipts| == |s.receipts| + |txs| && ReportsRunAt(env, s, txs, receipts, i)
    decreases |txs|
  {
    var front, last := txs[..|txs| - 1], txs[|txs| - 1];
    var m := Steps(env, s, front).state;
    assert txs == front + [last];
    LastReportsRun(env, s, front, last);
    if i < |front| {
      BlockReportsRuns(env, s, front, i);
      ReportKept(env, s, front, last, m.receipts, Step(env, m, last).state.receipts[|m.receipts|], i);
    }
  }

  lemma LastReportsRun(env: Env, s: BlockState, txs: seq<Tx>, tx: Tx)
    requires Lawful(env.machine) && Steps(env, s, txs).Ok? && Step(env, Steps(env, s, txs).state, tx).Ok?
    ensures var m := Steps(env, s, txs).state;
      var receipts := Step(env, m, tx).state.receipts;
      && |receipts| == |m.receipts| + 1 == |s.receipts| + |txs| + 1 && receipts == m.receipts + [receipts[|m.receipts|]]
      && ReportsRunAt(env, s, txs + [tx], receipts, |txs|)
  {
    ReceiptsGrow(env, s, txs);
    StepFits(env, Steps(env, s, txs).state, tx);
    assert (txs + [tx])[..|txs|] == txs;
  }

  lemma ReportKept(env: Env, s: BlockState, txs: seq<Tx>, tx: Tx, receipts: seq<Receipt>, r: Receipt, i: nat)
    requires Lawful(env.machine) && i < |txs| && |receipts| == |s.receipts| + |txs| && ReportsRunAt(env, s, txs, receipts, i)
    ensures ReportsRunAt(env, s, txs + [tx], receipts + [r], i)
  {
    assert (txs + [tx])[..i] == txs[..i];
  }

  lemma {:induction false} ReceiptsGrow(env: Env, s: BlockState, txs: seq<Tx>)
    requires Lawful(env.machine) && Steps(env, s, txs).Ok?
    ensures |Steps(env, s, txs).state.receipts| == |s.receipts| + |txs|
  {
    if txs != [] {
      ReceiptsGrow(env, s, txs[..|txs| - 1]);
    }
  }

  // ----- money -----

  /** The message of a transaction that was applied, and the world it met. */
  ghost function StepChange(env: Env, s: BlockState, tx: Tx): int
    requires Lawful(env.machine) && Step(env, s, tx).Ok?
  {
    MachineChange(env, Enter(s.world, tx, |s.receipts|), TransactionToMessage(tx, env.baseFee).value)
  }

  /** What the machine added to the supply over the transactions. */
  ghost function Changes(env: Env, s: BlockState, txs: seq<Tx>): int
    requires Lawful(env.machine) && Steps(env, s, txs).Ok?
  {
    if txs == [] then 0
    else
      var front := txs[..|txs| - 1];
      Changes(env, s, front) + StepChange(env, Steps(env, s, front).state, txs[|txs| - 1])
  }

  /** From `s` to `t` the supply changed by `change` less the gas used at the base fee, and no account
      got overdrawn. */
  ghost predicate Burnt(baseFee: nat, s: BlockState, t: BlockState, change: int) {
    && s.usedGas <= t.usedGas
    && Supply(t.world.balances) == Supply(s.world.balances) + change - (t.usedGas - s.usedGas) * baseFee
    && (Solvent(s.world) ==> Solvent(t.world))
  }

  lemma StepBurns(env: Env, s: BlockState, tx: Tx)
    requires Lawful(env.machine) && !env.noBaseFee && Step(env, s, tx).Ok?
    ensures Burnt(env.baseFee, s, Step(env, s, tx).state, StepChange(env, s, tx))
  {
    var msg := TransactionToMessage(tx, env.baseFee).value;
    var w := Enter(s.world, tx, |s.receipts|);
    SupplyChanges(env, w, s.pool, msg);
    if Solvent(s.world) {
      assert Solvent(w);
      StaysSolvent(env, w, s.pool, msg);
    }
  }

  lemma BurntTransitive(baseFee: nat, s: BlockState, m: BlockState, t: BlockState, x: int, y: int)
    requires Burnt(baseFee, s, m, x) && Burnt(baseFee, m, t, y)
    ensures Burnt(baseFee, s, t, x + y)
  {
    assert (t.usedGas - m.usedGas) * baseFee + (m.usedGas - s.usedGas) * baseFee == (t.usedGas - s.usedGas) * baseFee;
  }

  /** A block changes the supply by the machine's own changes less its gas at the base fee, and
      overdraws no account. */
  lemma {:induction false} BlockBurns(env: Env, s: BlockState, txs: seq<Tx>)
    requires Lawful(env.machine) && !env.noBaseFee && Steps(env, s, txs).Ok?
    ensures Burnt(env.baseFee, s, Steps(env, s, txs).state, Changes(env, s, txs))
  {
    if txs != [] {
      var front, last := txs[..|txs| - 1], txs[|txs| - 1];
      BlockBurns(env, s, front);
      var m := Steps(env, s, front).state;
      StepBurns(env, m, last);
      BurntTransitive(env.baseFee, s, m, Step(env, m, last).state, Changes(env, s, front), StepChange(env, m, last));
    }
  }

  // ----- nonces -----

  lemma StepSpends(env: Env, s: BlockState, tx: Tx)
    requires Lawful(env.machine) && KeepsNonces(env.machine) && Step(env, s, tx).Ok?
    ensures var s' := Step(env, s, tx).state;
      && tx.sender.Some?
      && Nonce(s.world.nonces, tx.sender.value) == tx.nonce < Nonce(s'.world.nonces, tx.sender.value)
      && forall a :: Nonce(s'.world.nonces, a) >= Nonce(s.world.nonces, a)
  {
    var msg := TransactionToMessage(tx, env.baseFee).value;
    var w := Enter(s.world, tx, |s.receipts|);
    NonceSpent(env, w, s.pool, msg);
    var o := Transition(env, w, s.pool, msg);
    forall a ensures Nonce(env.machine.finalise(o.world).nonces, a) >= Nonce(s.world.nonces, a) {
      assert Nonce(o.world.nonces, a) >= Nonce(w.nonces, a);
    }
  }

  /** The nonces around a transaction: its sender's was its own and is left behind, and none is lowered. */
  ghost predicate Spent(before: map<Address, nat>, tx: Tx, after: map<Address, nat>) {
    && tx.sender.Some? && Nonce(before, tx.sender.value) == tx.nonce < Nonce(after, tx.sender.value)
    && forall a :: Nonce(after, a) >= Nonce(before, a)
  }

  lemma LastSpent(env: Env, s: BlockState, txs: seq<Tx>)
    requires Lawful(env.machine) && KeepsNonces(env.machine) && Steps(env, s, txs).Ok? && txs != []
    ensures var front := Steps(env, s, txs[..|txs| - 1]);
      front.Ok? && Spent(front.state.world.nonces, txs[|txs| - 1], Steps(env, s, txs).state.world.nonces)
  {
    StepSpends(env, Steps(env, s, txs[..|txs| - 1]).state, txs[|txs| - 1]);
  }

  /** After a block, each of its transactions is behind its sender's nonce. */
  lemma {:induction false} NonceFloor(env: Env, s: BlockState, txs: seq<Tx>, i: nat)
    requires Lawful(env.machine) && KeepsNonces(env.machine) && Steps(env, s, txs).Ok? && i < |txs|
    ensures txs[i].sender.Some? && Nonce(Steps(env, s, txs).state.world.nonces, txs[i].sender.value) > txs[i].nonce
    decreases |txs|
  {
    LastSpent(env, s, txs);
    if i < |txs| - 1 {
      NonceFloor(env, s, txs[..|txs| - 1], i);
    }
  }

  lemma LastAbove(env: Env, s: BlockState, txs: seq<Tx>, i: nat)
    requires Lawful(env.machine) && KeepsNonces(env.machine) && Steps(env, s, txs).Ok?
    requires i < |txs| - 1 && txs[i].sender == txs[|txs| - 1].sender
    ensures txs[i].nonce < txs[|txs| - 1].nonce
  {
    LastSpent(env, s, txs);
    NonceFloor(env, s, txs[..|txs| - 1], i);
  }

  lemma {:induction false} FrontAscends(env: Env, s: BlockState, txs: seq<Tx>, i: nat, j: nat)
    requires Lawful(env.machine) && KeepsNonces(env.machine) && Steps(env, s, txs).Ok?
    requires i < j < |txs| - 1 && txs[i].sender == txs[j].sender
    ensures txs[i].nonce < txs[j].nonce
    decreases |txs|, 0
  {
    NoncesAscend(env, s, txs[..|txs| - 1], i, j);
  }

  /** In a block that runs, one sender's transactions have ascending nonces; so none occurs twice. */
  lemma {:induction false} NoncesAscend(env: Env, s: BlockState, txs: seq<Tx>, i: nat, j: nat)
    requires Lawful(env.machine) && KeepsNonces(env.machine) && Steps(env, s, txs).Ok?
    requires i < j < |txs| && txs[i].sender == txs[j].sender
    ensures txs[i].nonce < txs[j].nonce
    decreases |txs|
  {
    if j == |txs| - 1 {
      LastAbove(env, s, txs, i);
    } else {
      FrontAscends(env, s, txs, i, j);
    }
  }

  // ----- processing as it runs -----

  /** Applies a transaction whose context is set. On an error the world and the pool may be left with
      the gas bought. */
  method ApplyTransaction(env: Env, gp: GasPool, statedb: StateDB, tx: Tx, usedGas: nat, ghost receipts: seq<Receipt>)
    returns (err: Option<Error>, receipt: Option<Receipt>, usedGas': nat)
    requires Lawful(env.machine) && gp.Valid() && statedb.world.context == TxContext(tx.hash, |receipts|)
    modifies gp, statedb
    ensures gp.Valid()
    ensures match Step(env, BlockState(old(statedb.world), old(gp.gas), usedGas, receipts), tx)
      case Err(e) => err == Some(e) && usedGas' == usedGas
      case Ok(s) => err == None && receipt.Some? && s == BlockState(statedb.world, gp.gas, usedGas', receipts + [receipt.value])
  {
    receipt, usedGas' := None, usedGas;
    var msg := TransactionToMessage(tx, env.baseFee);
    if msg.None? {
      return Some(InvalidSender), None, usedGas;
    }
    var st := new StateTransition(env, msg.value, gp, statedb);
    assert statedb.world == Enter(statedb.world, tx, |receipts|);
    var used, failed;
    err, used, failed := st.TransitionDb();
    if err.Some? {
      return;
    }
    statedb.world := env.machine.finalise(statedb.world);
    usedGas' := usedGas + used;
    var contract := if msg.value.to.None? then Some((msg.value.from, tx.nonce)) else None;
    receipt := Some(Receipt(tx.hash, statedb.world.context.txIndex, failed, used, usedGas', contract));
  }

  /** The next transaction of a block that ran so far. */
  method ProcessNext(env: Env, gp: GasPool, statedb: StateDB, txs: seq<Tx>, i: nat, usedGas: nat, receipts: seq<Receipt>, ghost start: BlockState)
    returns (err: Option<Error>, receipts': seq<Receipt>, usedGas': nat)
    requires Lawful(env.machine) && gp.Valid() && i < |txs| && |receipts| == i
    requires Steps(env, start, txs[..i]) == Ok(BlockState(statedb.world, gp.gas, usedGas, receipts))
    modifies gp, statedb
    ensures gp.Valid()
    ensures err.None? ==> |receipts'| == i + 1
                          && Steps(env, start, txs[..i + 1]) == Ok(BlockState(statedb.world, gp.gas, usedGas', receipts'))
    ensures err.Some? ==> Steps(env, start, txs[..i + 1]) == Err(err.value)
  {
    StepsAt(env, start, txs, i);
    statedb.SetTxContext(txs[i].hash, i);
    var receipt;
    err, receipt, usedGas' := ApplyTransaction(env, gp, statedb, txs[i], usedGas, receipts);
    receipts' := if receipt.Some? then receipts + [receipt.value] else receipts;
  }

  /** Runs a block on a state: the transactions one after another, up to the first error. */
  method Process(env: Env, gasLimit: nat, txs: seq<Tx>, statedb: StateDB)
    returns (err: Option<Error>, receipts: seq<Receipt>, usedGas: nat)
    requires Lawful(env.machine) && gasLimit <= MAX_UINT64
    modifies statedb
    ensures match Steps(env, Initial(old(statedb.world), gasLimit), txs)
      case Err(e) => err == Some(e)
      case Ok(s) => err == None && s.receipts == receipts && s.usedGas == usedGas && s.world == statedb.world
    ensures err.None? ==> usedGas <= gasLimit
  {
    ghost var start := Initial(statedb.world, gasLimit);
    receipts, usedGas, err := [], 0, None;
    var gp := new GasPool();
    var panicked := gp.AddGas(gasLimit);
    assert !panicked;
    for i := 0 to |txs|
      invariant gp.Valid() && fresh(gp) && err.None? && |receipts| == i
      invariant Steps(env, start, txs[..i]) == Ok(BlockState(statedb.world, gp.gas, usedGas, receipts))
    {
      err, receipts, usedGas := ProcessNext(env, gp, statedb, txs, i, usedGas, receipts, start);
      if err.Some? {
        StepsPrefix(env, start, txs, i + 1);
        return;
      }
    }
    assert txs[..|txs|] == txs;
    BlockAccounts(env, old(statedb.world), gasLimit, txs);
  }
}
