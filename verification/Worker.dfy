/** Building a block: transactions are packed greedily, and failed ones are rolled back. */
module Worker {
  import opened Arithmetic
  import opened Wrappers
  import opened Gas
  import opened Ledger
  import opened StateTransition
  import opened StateProcessor
  import opened Ordering

  /** Equal worlds but for the context of the last transaction tried. */
  ghost predicate SameWorld(v: World, w: World) {
    v.(context := w.context) == w
  }

  /** A step starts by setting the context, so the old one does not matter. */
  lemma StepIgnoresContext(env: Env, s: BlockState, t: BlockState, tx: Tx)
    requires Lawful(env.machine) && SameWorld(s.world, t.world)
    requires s.pool == t.pool && s.usedGas == t.usedGas && s.receipts == t.receipts
    ensures Step(env, s, tx) == Step(env, t, tx)
  {
    assert Enter(s.world, tx, |s.receipts|) == Enter(t.world, tx, |t.receipts|);
  }

  /** What running a transaction of the pool there would give; none if it does not fit or is gone. */
  ghost function Attempt(env: Env, s: BlockState, ltx: LazyTx): Option<Result>
    requires Lawful(env.machine)
  {
    if s.pool < ltx.gas || ltx.resolved.None? then None else Some(Step(env, s, ltx.resolved.value))
  }

  ghost predicate Runs(env: Env, s: BlockState, ltx: LazyTx)
    requires Lawful(env.machine)
  {
    Attempt(env, s, ltx).Some? && Attempt(env, s, ltx).value.Ok?
  }

  /** The set moves on in the account of a transaction that ran or had too low a nonce. */
  ghost predicate Keeps(env: Env, s: BlockState, ltx: LazyTx)
    requires Lawful(env.machine)
  {
    Runs(env, s, ltx) || Attempt(env, s, ltx) == Some(Err(NonceTooLow))
  }

  ghost function StateAfter(env: Env, s: BlockState, offers: seq<Offer>): BlockState
    requires Lawful(env.machine)
  {
    if offers == [] then s
    else
      var m, ltx := StateAfter(env, s, offers[..|offers| - 1]), offers[|offers| - 1].top.tx;
      if Runs(env, m, ltx) then Attempt(env, m, ltx).value.state else m
  }

  /** The offered transactions that run, each on the state that those before it leave. */
  ghost function Runnable(env: Env, s: BlockState, offers: seq<Offer>): seq<Tx>
    requires Lawful(env.machine)
  {
    if offers == [] then []
    else
      var front, ltx := offers[..|offers| - 1], offers[|offers| - 1].top.tx;
      if Runs(env, StateAfter(env, s, front), ltx) then Runnable(env, s, front) + [ltx.resolved.value]
      else Runnable(env, s, front)
  }

  /** The set was told after each offer how that transaction fared. */
  ghost predicate Answered(env: Env, s: BlockState, offers: seq<Offer>)
    requires Lawful(env.machine)
  {
    offers == [] ||
    var front, o := offers[..|offers| - 1], offers[|offers| - 1];
    Answered(env, s, front) && (o.keep <==> Keeps(env, StateAfter(env, s, front), o.top.tx))
  }

  /** A pass over a set of transactions: always a best one next, and the set moves on as it fared. */
  ghost predicate Pass(env: Env, s: BlockState, sel: Selection, offers: seq<Offer>)
    requires Lawful(env.machine)
  {
    BestFirst(sel, offers) && Answered(env, s, offers)
  }

  /** The pass ended for want of gas for a transfer or of transactions. */
  ghost predicate Exhausted(env: Env, s: BlockState, sel: Selection, offers: seq<Offer>)
    requires Lawful(env.machine)
  {
    StateAfter(env, s, offers).pool < TX_GAS || After(sel, offers).items == {}
  }

  lemma PassNext(env: Env, s: BlockState, sel: Selection, offers: seq<Offer>, o: Offer, txs0: seq<Tx>)
    requires Lawful(env.machine) && Pass(env, s, sel, offers) && Best(After(sel, offers).items, o.top)
    requires o.keep <==> Keeps(env, StateAfter(env, s, offers), o.top.tx)
    ensures Pass(env, s, sel, offers + [o]) && After(sel, offers + [o]) == Taking(After(sel, offers), o)
    ensures var m := StateAfter(env, s, offers);
      && StateAfter(env, s, offers + [o]) == (if Runs(env, m, o.top.tx) then Attempt(env, m, o.top.tx).value.state else m)
      && txs0 + Runnable(env, s, offers + [o]) ==
           txs0 + Runnable(env, s, offers) + (if Runs(env, m, o.top.tx) then [o.top.tx.resolved.value] else [])
  {
    OfferNext(sel, offers, o);
    assert (offers + [o])[..|offers|] == offers;
  }

  /** Running what a pass found runnable leads to the state that the pass reached. */
  lemma {:induction false} RunnableRuns(env: Env, s: BlockState, offers: seq<Offer>)
    requires Lawful(env.machine)
    ensures Steps(env, s, Runnable(env, s, offers)) == Ok(StateAfter(env, s, offers))
  {
    if offers != [] {
      var front, ltx := offers[..|offers| - 1], offers[|offers| - 1].top.tx;
      RunnableRuns(env, s, front);
      if Runs(env, StateAfter(env, s, front), ltx) {
        StepsNext(env, s, Runnable(env, s, front), ltx.resolved.value);
      }
    }
  }

  ghost function Locals(pending: Lists, locals: seq<Address>): Lists {
    map a <- pending | a in locals :: pending[a]
  }

  ghost function Remotes(pending: Lists, locals: seq<Address>): Lists {
    map a <- pending | a !in locals :: pending[a]
  }

  /** The signal is set after that many reads, if ever, and stays set. */
  type Signal = Option<nat>

  predicate IsSet(signal: Signal, read: nat) {
    signal.Some? && signal.value <= read
  }

  /** The signal is read before each offer, counting reads from `from`, and once more at the end; the
      pass is interrupted by the first read that finds it set. */
  ghost predicate Heeds(signal: Signal, from: nat, offers: nat, interrupted: bool) {
    && (signal.Some? && offers > 0 ==> from + offers - 1 < signal.value)
    && (interrupted <==> signal.Some? && signal.value <= from + offers)
  }

  /** A pass over some lists, or none if there is no list. */
  ghost predicate Fill(env: Env, s: BlockState, lists: Lists, signal: Signal, from: nat, offers: seq<Offer>, interrupted: bool)
    requires Lawful(env.machine)
  {
    if lists == map[] then offers == [] && !interrupted
    else
      var sel := Start(lists, Some(env.baseFee));
      Pass(env, s, sel, offers) && Heeds(signal, from, |offers|, interrupted) && (interrupted || Exhausted(env, s, sel, offers))
  }

  /** Where the next pass reads the signal. */
  function NextRead(lists: Lists, offers: nat): nat {
    if lists == map[] then 0 else offers + 1
  }

  /** The two passes of a fill: the local accounts' lists, then, unless that pass was interrupted, the
      others'. */
  ghost predicate Fills(env: Env, s: BlockState, pending: Lists, locals: seq<Address>, signal: Signal,
                        local: seq<Offer>, remote: seq<Offer>, interrupted: bool)
    requires Lawful(env.machine)
  {
    var mine, rest := Locals(pending, locals), Remotes(pending, locals);
    var stopped := mine != map[] && signal.Some? && signal.value <= |local|;
    && Fill(env, s, mine, signal, 0, local, stopped)
    && if stopped then interrupted && remote == []
       else Fill(env, StateAfter(env, s, local), rest, signal, NextRead(mine, |local|), remote, interrupted)
  }

  class Environment {
    const env: Env
    const gasLimit: nat
    const state: StateDB
    var gasPool: GasPool?
    var usedGas: nat // in the header
    var txs: seq<Tx>
    var receipts: seq<Receipt>
    var tcount: nat
    ghost const parent: World // the state that the block is built on

    /** Processing the transactions so far on the parent's state gives this environment. */
    ghost predicate Replays()
      requires Lawful(env.machine)
      reads this, state, gasPool
    {
      && gasPool != null && gasPool.Valid()
      && var r := Steps(env, Initial(parent, gasLimit), txs);
      && r.Ok? && SameWorld(r.state.world, state.world)
      && r.state.pool == gasPool.gas && r.state.usedGas == usedGas && r.state.receipts == receipts
    }

    ghost predicate Valid()
      reads this, state, gasPool
    {
      && Lawful(env.machine) && gasLimit <= MAX_UINT64
      && tcount == |txs| == |receipts|
      && if gasPool != null then Replays()
         else txs == [] && receipts == [] && usedGas == 0 && SameWorld(parent, state.world)
    }

    /** Where the transactions so far lead from the parent's state. */
    ghost function Reached(): BlockState
      requires Valid()
      reads this, state, gasPool
    {
      Steps(env, Initial(parent, gasLimit), txs).state
    }

    constructor (env: Env, gasLimit: nat, state: StateDB)
      requires Lawful(env.machine) && gasLimit <= MAX_UINT64
      ensures Valid() && this.env == env && this.gasLimit == gasLimit && this.state == state
      ensures parent == state.world && gasPool == null && txs == [] && Reached() == Initial(parent, gasLimit)
    {
      this.env, this.gasLimit, this.state := env, gasLimit, state;
      gasPool, usedGas, txs, receipts, tcount, parent := null, 0, [], [], 0, state.world;
    }

    /** Runs the transaction. If it fails, state and gas pool are as before. */
    method ApplyOne(tx: Tx) returns (err: Option<Error>, receipt: Option<Receipt>)
      requires Lawful(env.machine) && gasPool != null && gasPool.Valid()
      requires state.world.context == TxContext(tx.hash, |receipts|)
      modifies state, gasPool, this`usedGas
      ensures gasPool.Valid()
      ensures match Step(env, BlockState(old(state.world), old(gasPool.gas), old(usedGas), receipts), tx)
        case Err(e) => err == Some(e) && SameWorld(old(state.world), state.world) && gasPool.gas == old(gasPool.gas) && usedGas == old(usedGas)
        case Ok(s) => err == None && receipt.Some? && s == BlockState(state.world, gasPool.gas, usedGas, receipts + [receipt.value])
    {
      var snap := state.Snapshot();
      var gp := gasPool.gas;
      err, receipt, usedGas := ApplyTransaction(env, gasPool, state, tx, usedGas, receipts);
      if err.Some? {
        state.RevertToSnapshot(snap);
        gasPool.SetGas(gp);
      }
    }

    /** Adds the transaction if it runs; otherwise nothing changes but the context. */
    method CommitTransaction(tx: Tx) returns (err: Option<Error>)
      requires Valid() && gasPool != null && state.world.context == TxContext(tx.hash, tcount)
      modifies this`usedGas, this`txs, this`receipts, this`tcount, state, gasPool
      ensures Valid() && gasPool == old(gasPool)
      ensures match Step(env, old(Reached()), tx)
        case Ok(s) => err == None && Reached() == s && txs == old(txs) + [tx]
        case Err(e) => err == Some(e)
      ensures err.Some? ==> txs == old(txs) && receipts == old(receipts) && usedGas == old(usedGas)
                            && SameWorld(old(state.world), state.world) && gasPool.gas == old(gasPool.gas)
    {
      ghost var before := Steps(env, Initial(parent, gasLimit), txs).state;
      StepsNext(env, Initial(parent, gasLimit), txs, tx);
      StepIgnoresContext(env, before, BlockState(state.world, gasPool.gas, usedGas, receipts), tx);
      var receipt;
      err, receipt := ApplyOne(tx);
      if err.Some? {
        return;
      }
      txs := txs + [tx];
      receipts := receipts + [receipt.value];
      tcount := tcount + 1;
    }

    /** The pool that the first pass fills. */
    method EnsurePool()
      requires Valid()
      modifies this`gasPool
      ensures Valid() && gasPool != null && (if old(gasPool) != null then gasPool == old(gasPool) else fresh(gasPool))
      ensures Reached() == old(Reached())
    {
      if gasPool == null {
        var pool := new GasPool();
        var panicked := pool.AddGas(gasLimit);
        assert !panicked;
        gasPool := pool;
      }
    }

    /** Deals with the set's best transaction. It is packed exactly if it runs. The set moves on in its
        account if it was packed or its nonce is too low, and drops the account otherwise. */
    method TryNext(pool: TransactionsByPriceAndNonce) returns (ghost o: Offer)
      requires Valid() && gasPool != null && pool.Valid() && pool.heads != []
      modifies this`usedGas, this`txs, this`receipts, this`tcount, state, gasPool, pool
      ensures Valid() && gasPool == old(gasPool) && pool.Valid() && pool.Pending() < old(pool.Pending())
      ensures Best(old(pool.Now()).items, o.top) && (o.keep <==> Keeps(env, old(Reached()), o.top.tx))
      ensures pool.Now() == Taking(old(pool.Now()), o)
      ensures if Runs(env, old(Reached()), o.top.tx)
              then txs == old(txs) + [o.top.tx.resolved.value] && Reached() == Attempt(env, old(Reached()), o.top.tx).value.state
              else txs == old(txs)
    {
      var ltx := pool.Peek().value;
      var keep := Try(ltx.tx);
      o := Offer(ltx, keep);
      if keep {
        pool.Shift();
      } else {
        pool.Pop();
      }
    }

    /** Packs the transaction if it fits, is still there and runs. */
    method Try(ltx: LazyTx) returns (keep: bool)
      requires Valid() && gasPool != null
      modifies this`usedGas, this`txs, this`receipts, this`tcount, state, gasPool
      ensures Valid() && gasPool == old(gasPool) && (keep <==> Keeps(env, old(Reached()), ltx))
      ensures if Runs(env, old(Reached()), ltx)
              then txs == old(txs) + [ltx.resolved.value] && Reached() == Attempt(env, old(Reached()), ltx).value.state
              else txs == old(txs)
    {
      if gasPool.gas < ltx.gas || ltx.resolved.None? {
        return false;
      }
      var tx := ltx.resolved.value;
      state.SetTxContext(tx.hash, tcount);
      var err := CommitTransaction(tx);
      return err == None || err == Some(NonceTooLow);
    }

    /** Where a pass stands that began with transactions `txs0` at `s` and set `sel`. */
    ghost predicate Stands(pool: TransactionsByPriceAndNonce, txs0: seq<Tx>, s: BlockState, sel: Selection, offers: seq<Offer>)
      requires Valid()
      reads this, state, gasPool, pool
    {
      && Pass(env, s, sel, offers) && pool.Now() == After(sel, offers)
      && Reached() == StateAfter(env, s, offers) && txs == txs0 + Runnable(env, s, offers)
    }

    method PackNext(pool: TransactionsByPriceAndNonce, ghost txs0: seq<Tx>, ghost s: BlockState, ghost sel: Selection, ghost offers: seq<Offer>)
      returns (ghost offers': seq<Offer>)
      requires Valid() && gasPool != null && pool.Valid() && pool.heads != [] && Stands(pool, txs0, s, sel, offers)
      modifies this`usedGas, this`txs, this`receipts, this`tcount, state, gasPool, pool
      ensures Valid() && gasPool == old(gasPool) && pool.Valid() && pool.Pending() < old(pool.Pending())
      ensures |offers'| == |offers| + 1 && Stands(pool, txs0, s, sel, offers')
    {
      ghost var o := TryNext(pool);
      PassNext(env, s, sel, offers, o, txs0);
      offers' := offers + [o];
    }

    /** Packs transactions until the gas or the set runs out, or a read of the signal finds it set. */
    method CommitTransactions(pool: TransactionsByPriceAndNonce, signal: Signal, from: nat)
      returns (interrupted: bool, ghost offers: seq<Offer>, next: nat)
      requires Valid() && pool.Valid()
      modifies this`gasPool, this`usedGas, this`txs, this`receipts, this`tcount, state, gasPool, pool
      ensures Valid() && gasPool != null && (if old(gasPool) != null then gasPool == old(gasPool) else fresh(gasPool))
      ensures pool.Valid() && Stands(pool, old(txs), old(Reached()), old(pool.Now()), offers)
      ensures Heeds(signal, from, |offers|, interrupted) && next == from + |offers| + 1
      ensures interrupted || Exhausted(env, old(Reached()), old(pool.Now()), offers)
    {
      ghost var s, sel := Reached(), pool.Now();
      EnsurePool();
      interrupted, offers, next := false, [], from;
      while true
        invariant Valid() && gasPool != null && (if old(gasPool) != null then gasPool == old(gasPool) else fresh(gasPool))
        invariant pool.Valid() && Stands(pool, old(txs), s, sel, offers)
        invariant next == from + |offers| && (next > from ==> !IsSet(signal, next - 1))
        decreases pool.Pending()
      {
        next := next + 1;
        if IsSet(signal, next - 1) {
          return true, offers, next;
        }
        if gasPool.gas < TX_GAS {
          return;
        }
        if pool.Peek().None? {
          return;
        }
        offers := PackNext(pool, old(txs), s, sel, offers);
      }
    }

    /** Packs the pending transactions, first those of local accounts, then the rest. */
    method FillTransactions(pending: Lists, locals: seq<Address>, signal: Signal)
      returns (interrupted: bool, ghost local: seq<Offer>, ghost remote: seq<Offer>)
      requires Valid() && forall a <- pending :: pending[a] != []
      modifies this`gasPool, this`usedGas, this`txs, this`receipts, this`tcount, state, gasPool
      ensures Valid() && Fills(env, old(Reached()), pending, locals, signal, local, remote, interrupted)
      ensures txs == old(txs) + Runnable(env, old(Reached()), local) + Runnable(env, StateAfter(env, old(Reached()), local), remote)
      ensures if old(gasPool) != null then gasPool == old(gasPool) else gasPool == null || fresh(gasPool)
      ensures gasPool != null ==> gasPool.gas + usedGas == gasLimit && usedGas == TotalGas(receipts)
    {
      interrupted, local, remote := FillBoth(pending, locals, signal);
      if gasPool != null {
        BlockAccounts(env, parent, gasLimit, txs);
      }
    }

    method FillBoth(pending: Lists, locals: seq<Address>, signal: Signal)
      returns (interrupted: bool, ghost local: seq<Offer>, ghost remote: seq<Offer>)
      requires Valid() && forall a <- pending :: pending[a] != []
      modifies this`gasPool, this`usedGas, this`txs, this`receipts, this`tcount, state, gasPool
      ensures Valid() && Fills(env, old(Reached()), pending, locals, signal, local, remote, interrupted)
      ensures txs == old(txs) + Runnable(env, old(Reached()), local) + Runnable(env, StateAfter(env, old(Reached()), local), remote)
      ensures if old(gasPool) != null then gasPool == old(gasPool) else gasPool == null || fresh(gasPool)
    {
      var localTxs, remoteTxs := SplitLocals(pending, locals);
      var next;
      interrupted, local, next := FillFrom(localTxs, signal, 0);
      remote := [];
      if !interrupted {
        interrupted, remote, next := FillFrom(remoteTxs, signal, next);
      }
    }

    /** One of the two passes; without any list there is none. */
    method FillFrom(lists: Lists, signal: Signal, from: nat) returns (interrupted: bool, ghost offers: seq<Offer>, next: nat)
      requires Valid() && forall a <- lists :: lists[a] != []
      modifies this`gasPool, this`usedGas, this`txs, this`receipts, this`tcount, state, gasPool
      ensures Valid() && (if old(gasPool) != null then gasPool == old(gasPool) else gasPool == null || fresh(gasPool))
      ensures Fill(env, old(Reached()), lists, signal, from, offers, interrupted)
      ensures Reached() == StateAfter(env, old(Reached()), offers) && txs == old(txs) + Runnable(env, old(Reached()), offers)
      ensures next == from + NextRead(lists, |offers|)
    {
      interrupted, offers, next := false, [], from;
      if lists != map[] {
        var pool := new TransactionsByPriceAndNonce(lists, Some(env.baseFee));
        interrupted, offers, next := CommitTransactions(pool, signal, from);
      }
    }
  }

  /** Moves the lists of local accounts out of the pending ones. */
  method SplitLocals(pending: Lists, locals: seq<Address>) returns (localTxs: Lists, remoteTxs: Lists)
    requires forall a <- pending :: pending[a] != []
    ensures localTxs == Locals(pending, locals) && remoteTxs == Remotes(pending, locals)
  {
    localTxs, remoteTxs := map[], pending;
    for i := 0 to |locals|
      invariant localTxs == Locals(pending, locals[..i]) && remoteTxs == Remotes(pending, locals[..i])
    {
      var account := locals[i];
      assert locals[..i + 1] == locals[..i] + [account];
      if account in remoteTxs && |remoteTxs[account]| > 0 {
        localTxs := localTxs[account := remoteTxs[account]];
        remoteTxs := remoteTxs - {account};
      }
    }
    assert locals[..|locals|] == locals;
  }

  // ----- fees -----

  function TipOf(tx: Tx, baseFee: nat): int {
    Min(tx.tipCap, tx.feeCap - baseFee)
  }

  function Earned(tx: Tx, r: Receipt, baseFee: nat): int {
    r.gasUsed * TipOf(tx, baseFee)
  }

  /** The gas of each transaction at its effective tip. */
  function Tips(txs: seq<Tx>, receipts: seq<Receipt>, baseFee: nat): int
    requires |txs| == |receipts|
  {
    if txs == [] then 0
    else
      var n := |txs| - 1;
      Tips(txs[..n], receipts[..n], baseFee) + Earned(txs[n], receipts[n], baseFee)
  }

  method TotalFees(txs: seq<Tx>, receipts: seq<Receipt>, baseFee: nat) returns (fees: int)
    requires |txs| == |receipts|
    ensures fees == Tips(txs, receipts, baseFee)
  {
    fees := 0;
    for i := 0 to |txs|
      invariant fees == Tips(txs[..i], receipts[..i], baseFee)
    {
      assert txs[..i + 1][..i] == txs[..i] && receipts[..i + 1][..i] == receipts[..i];
      fees := fees + receipts[i].gasUsed * TipOf(txs[i], baseFee);
    }
    assert txs[..|txs|] == txs && receipts[..|txs|] == receipts;
  }

  /** The balances once the machine has run and the sender has its unused gas back. */
  ghost function BeforeFee(env: Env, s: BlockState, tx: Tx): map<Address, int>
    requires Lawful(env.machine) && Step(env, s, tx).Ok?
  {
    var msg := TransactionToMessage(tx, env.baseFee).value;
    var w := Enter(s.world, tx, |s.receipts|);
    var returned := msg.gasLimit - Transition(env, w, s.pool, msg).usedGas;
    Credit(Executed(env, Bought(w, msg), msg).world, msg.from, returned * msg.gasPrice).balances
  }

  /** What the coinbase's balance gains from there to the end of the transaction. */
  ghost function FeePaid(env: Env, s: BlockState, tx: Tx): int
    requires Lawful(env.machine) && Step(env, s, tx).Ok?
  {
    Balance(Step(env, s, tx).state.world.balances, env.coinbase) - Balance(BeforeFee(env, s, tx), env.coinbase)
  }

  ghost function FeesPaid(env: Env, s: BlockState, txs: seq<Tx>): int
    requires Lawful(env.machine) && Steps(env, s, txs).Ok?
  {
    if txs == [] then 0
    else
      var n := |txs| - 1;
      FeesPaid(env, s, txs[..n]) + FeePaid(env, Steps(env, s, txs[..n]).state, txs[n])
  }

  /** It is the transaction's gas at the effective tip, and no other balance moves. */
  lemma FeeEarned(env: Env, s: BlockState, tx: Tx)
    requires Lawful(env.machine) && !env.noBaseFee && Step(env, s, tx).Ok?
    ensures var s' := Step(env, s, tx).state;
      && |s'.receipts| == |s.receipts| + 1 && s'.receipts[..|s.receipts|] == s.receipts
      && FeePaid(env, s, tx) == Earned(tx, s'.receipts[|s.receipts|], env.baseFee) >= 0
      && forall a :: a != env.coinbase ==> Balance(s'.world.balances, a) == Balance(BeforeFee(env, s, tx), a)
  {
    ProductOrder(Step(env, s, tx).state.receipts[|s.receipts|].gasUsed, 0, TipOf(tx, env.baseFee));
  }

  lemma TipsSnoc(txs: seq<Tx>, receipts: seq<Receipt>, baseFee: nat, front: seq<Receipt>, r: Receipt)
    requires |txs| == |receipts| == |front| + 1 && receipts[..|front|] == front && receipts[|front|] == r
    ensures Tips(txs, receipts, baseFee) == Tips(txs[..|front|], front, baseFee) + Earned(txs[|front|], r, baseFee)
  {
  }

  /** The total that is reported for a block is what the coinbase is paid. */
  lemma {:induction false} FeesReported(env: Env, world: World, gasLimit: nat, txs: seq<Tx>)
    requires Lawful(env.machine) && !env.noBaseFee && Steps(env, Initial(world, gasLimit), txs).Ok?
    ensures var r := Steps(env, Initial(world, gasLimit), txs).state.receipts;
      |r| == |txs| && Tips(txs, r, env.baseFee) == FeesPaid(env, Initial(world, gasLimit), txs) >= 0
  {
    if txs != [] {
      var n := |txs| - 1;
      FeesReported(env, world, gasLimit, txs[..n]);
      var m := Steps(env, Initial(world, gasLimit), txs[..n]).state;
      var s := Step(env, m, txs[n]).state;
      FeeEarned(env, m, txs[n]);
      TipsSnoc(txs, s.receipts, env.baseFee, m.receipts, s.receipts[n]);
    }
  }

  // ----- building and validating -----

  method Build(env: Env, gasLimit: nat, parent: World, pending: Lists, locals: seq<Address>, signal: Signal)
    returns (work: Environment, interrupted: bool, ghost local: seq<Offer>, ghost remote: seq<Offer>)
    requires Lawful(env.machine) && gasLimit <= MAX_UINT64 && forall a <- pending :: pending[a] != []
    ensures work.Valid() && work.env == env && work.gasLimit == gasLimit && work.parent == parent
    ensures var s := Initial(parent, gasLimit);
      && Fills(env, s, pending, locals, signal, local, remote, interrupted)
      && work.txs == Runnable(env, s, local) + Runnable(env, StateAfter(env, s, local), remote)
  {
    var state := new StateDB(parent);
    work := new Environment(env, gasLimit, state);
    interrupted, local, remote := work.FillTransactions(pending, locals, signal);
    assert [] + Runnable(env, Initial(parent, gasLimit), local) == Runnable(env, Initial(parent, gasLimit), local);
  }

  /** Whatever is pending and however far packing gets: processing the packed transactions on the
      parent's state succeeds, with the same receipts, gas used and final state. */
  method BuildThenProcess(env: Env, gasLimit: nat, parent: World, pending: Lists, locals: seq<Address>, signal: Signal)
    returns (work: Environment, err: Option<Error>, receipts: seq<Receipt>, usedGas: nat, statedb: StateDB,
      interrupted: bool, ghost local: seq<Offer>, ghost remote: seq<Offer>)
    requires Lawful(env.machine) && gasLimit <= MAX_UINT64 && forall a <- pending :: pending[a] != []
    ensures err == None && receipts == work.receipts && usedGas == work.usedGas && SameWorld(statedb.world, work.state.world)
    ensures AllFit(work.txs, receipts) && usedGas == TotalGas(receipts) <= gasLimit
    ensures var s := Initial(parent, gasLimit);
      && Fills(env, s, pending, locals, signal, local, remote, interrupted)
      && work.txs == Runnable(env, s, local) + Runnable(env, StateAfter(env, s, local), remote)
  {
    work, interrupted, local, remote := Build(env, gasLimit, parent, pending, locals, signal);
    BlockAccounts(env, parent, gasLimit, work.txs);
    statedb := new StateDB(parent);
    err, receipts, usedGas := Process(env, gasLimit, work.txs, statedb);
  }
}
