/** One message applied to the world: buying gas, running the machine, refunding and paying fees. */
module StateTransition {
  import opened Arithmetic
  import opened Wrappers
  import opened Gas
  import opened Ledger

  const MAX_NONCE: nat := MAX_UINT64
  const TWO_256: nat := 0x1_0000000000000000_0000000000000000_0000000000000000_0000000000000000

  type uint64 = x: int | 0 <= x <= MAX_UINT64
  type Data = d: seq<byte> | |d| <= MAX_UINT64 witness []

  /** A transaction; the sender is missing if its signature is invalid. */
  datatype Tx = Tx(hash: nat, sender: Option<Address>, to: Option<Address>, nonce: uint64, value: nat, gas: uint64,
                   feeCap: nat, tipCap: nat, data: Data, accessList: seq<AccessTuple>)

  datatype Message = Message(from: Address, to: Option<Address>, nonce: uint64, value: nat, gasLimit: uint64,
                             gasPrice: int, feeCap: nat, tipCap: nat, data: Data, accessList: seq<AccessTuple>,
                             skipAccountChecks: bool)

  /** What the machine does with a message and some gas. */
  datatype Execution = Execution(world: World, gasLeft: nat, failed: bool)

  /** The machine and the clean-up after a transaction, as deterministic functions. */
  datatype Machine = Machine(run: (World, Message, nat) -> Execution, finalise: World -> World)

  datatype Env = Env(baseFee: nat, coinbase: Address, noBaseFee: bool, machine: Machine)

  /** The machine returns no more gas than it got and overdraws no account; cleaning up moves no money.
      Neither changes the context. */
  ghost predicate Lawful(m: Machine) {
    && (forall w, msg, gas: nat :: m.run(w, msg, gas).gasLeft <= gas)
    && (forall w, msg, gas: nat :: Solvent(w) ==> Solvent(m.run(w, msg, gas).world))
    && (forall w, msg, gas: nat :: m.run(w, msg, gas).world.context == w.context)
    && (forall w :: m.finalise(w).balances == w.balances && m.finalise(w).context == w.context)
  }

  datatype Error =
    | InvalidSender
    | NonceTooHigh | NonceTooLow | NonceMax | SenderNoEOA
    | FeeCapVeryHigh | TipVeryHigh | TipAboveFeeCap | FeeCapTooLow
    | InsufficientFunds | GasLimitReached
    | GasUintOverflow | IntrinsicGasTooLow | InsufficientFundsForTransfer | MaxInitCodeSizeExceeded

  /** The end of a message: an error, with what it has done so far, or the gas it used. */
  datatype Outcome =
    | Rejected(error: Error, world: World, pool: nat)
    | Accepted(usedGas: nat, failed: bool, world: World, pool: nat)

  function TransactionToMessage(tx: Tx, baseFee: nat): Option<Message> {
    if tx.sender.None? then None
    else Some(Message(tx.sender.value, tx.to, tx.nonce, tx.value, tx.gas, Min(tx.tipCap + baseFee, tx.feeCap),
                      tx.feeCap, tx.tipCap, tx.data, tx.accessList, false))
  }

  function EffectiveTip(msg: Message, baseFee: nat): int {
    Min(msg.tipCap, msg.feeCap - baseFee)
  }

  // ----- the specification -----

  /** The account checks and the fee checks. */
  function CheckError(env: Env, w: World, msg: Message): Option<Error> {
    var nonce := Nonce(w.nonces, msg.from);
    if !msg.skipAccountChecks && nonce < msg.nonce then Some(NonceTooHigh)
    else if !msg.skipAccountChecks && nonce > msg.nonce then Some(NonceTooLow)
    else if !msg.skipAccountChecks && nonce >= MAX_NONCE then Some(NonceMax)
    else if !msg.skipAccountChecks && msg.from in w.code then Some(SenderNoEOA)
    else if FreeOfFees(env, msg) then None
    else if msg.feeCap >= TWO_256 then Some(FeeCapVeryHigh)
    else if msg.tipCap >= TWO_256 then Some(TipVeryHigh)
    else if msg.feeCap < msg.tipCap then Some(TipAboveFeeCap)
    else if msg.feeCap < env.baseFee then Some(FeeCapTooLow)
    else None
  }

  /** A simulated call that sets no fees. */
  predicate FreeOfFees(env: Env, msg: Message) {
    env.noBaseFee && msg.feeCap == 0 && msg.tipCap == 0
  }

  /** Why no gas can be bought. */
  function BuyError(env: Env, w: World, pool: nat, msg: Message): Option<Error> {
    if CheckError(env, w, msg).Some? then CheckError(env, w, msg)
    else if Balance(w.balances, msg.from) < msg.gasLimit * msg.feeCap + msg.value then Some(InsufficientFunds)
    else if pool < msg.gasLimit then Some(GasLimitReached)
    else None
  }

  function Bought(w: World, msg: Message): World {
    Credit(w, msg.from, -(msg.gasLimit * msg.gasPrice))
  }

  function IntrinsicOf(msg: Message): Option<nat> {
    Intrinsic(msg.data, msg.accessList, msg.to.None?)
  }

  /** Why the machine does not run after gas was bought. */
  function RunError(bought: World, msg: Message): Option<Error> {
    if IntrinsicOf(msg).None? then Some(GasUintOverflow)
    else if msg.gasLimit < IntrinsicOf(msg).value then Some(IntrinsicGasTooLow)
    else if msg.value > 0 && Balance(bought.balances, msg.from) < msg.value then Some(InsufficientFundsForTransfer)
    else if msg.to.None? && |msg.data| > MAX_INIT_CODE_SIZE then Some(MaxInitCodeSizeExceeded)
    else None
  }

  /** The world that the machine starts from: a call has its sender's nonce raised, a creation leaves
      that to the machine. */
  function Started(bought: World, msg: Message): World {
    if msg.to.None? then bought
    else bought.(nonces := bought.nonces[msg.from := Nonce(bought.nonces, msg.from) + 1])
  }

  function Executed(env: Env, bought: World, msg: Message): Execution
    requires RunError(bought, msg).None?
  {
    env.machine.run(Started(bought, msg), msg, msg.gasLimit - IntrinsicOf(msg).value)
  }

  /** The gas given back: what is left and the refund, capped to a fifth of what was used. */
  function Returned(limit: nat, left: nat, refund: nat): (r: nat)
    requires left <= limit
    ensures left <= r <= limit
  {
    left + Min((limit - left) / REFUND_QUOTIENT, refund)
  }

  function Fee(env: Env, msg: Message, usedGas: nat): int {
    if FreeOfFees(env, msg) then 0 else usedGas * EffectiveTip(msg, env.baseFee)
  }

  /** The settled world: the sender gets unused gas back at its price and the coinbase gets the tips. */
  function Settled(env: Env, w: World, msg: Message, returned: nat): World {
    var refunded := Credit(w, msg.from, returned * msg.gasPrice);
    if FreeOfFees(env, msg) then refunded
    else Credit(refunded, env.coinbase, (msg.gasLimit - returned) * EffectiveTip(msg, env.baseFee))
  }

  function Transition(env: Env, w: World, pool: nat, msg: Message): Outcome
    requires Lawful(env.machine)
  {
    if BuyError(env, w, pool, msg).Some? then Rejected(BuyError(env, w, pool, msg).value, w, pool)
    else
      var bought := Bought(w, msg);
      if RunError(bought, msg).Some? then Rejected(RunError(bought, msg).value, bought, pool - msg.gasLimit)
      else
        var x := Executed(env, bought, msg);
        assert x.gasLeft <= msg.gasLimit;
        var returned := Returned(msg.gasLimit, x.gasLeft, x.world.refund);
        Accepted(msg.gasLimit - returned, x.failed, Settled(env, x.world, msg, returned), pool - msg.gasLimit + returned)
  }

  // ----- acceptance -----

  /** A message carries what its transaction says, at the most that it pays within both caps. */
  lemma MessageCarries(tx: Tx, baseFee: nat)
    ensures TransactionToMessage(tx, baseFee).Some? <==> tx.sender.Some?
    ensures tx.sender.Some? ==>
      var msg := TransactionToMessage(tx, baseFee).value;
      && msg.from == tx.sender.value && msg.to == tx.to && msg.nonce == tx.nonce && msg.value == tx.value
      && msg.gasLimit == tx.gas && msg.feeCap == tx.feeCap && msg.tipCap == tx.tipCap
      && msg.data == tx.data && msg.accessList == tx.accessList && !msg.skipAccountChecks
      && msg.gasPrice <= tx.feeCap && msg.gasPrice <= baseFee + tx.tipCap
      && (msg.gasPrice == tx.feeCap || msg.gasPrice == baseFee + tx.tipCap)
  {
  }

  /** What each error says of the message and the world it meets. */
  ghost predicate Violated(env: Env, w: World, pool: nat, msg: Message, e: Error) {
    var nonce, charged := Nonce(w.nonces, msg.from), !(env.noBaseFee && msg.feeCap == 0 && msg.tipCap == 0);
    match e
    case InvalidSender => false
    case NonceTooHigh => !msg.skipAccountChecks && msg.nonce > nonce
    case NonceTooLow => !msg.skipAccountChecks && msg.nonce < nonce
    case NonceMax => !msg.skipAccountChecks && nonce >= MAX_UINT64
    case SenderNoEOA => !msg.skipAccountChecks && msg.from in w.code
    case FeeCapVeryHigh => charged && msg.feeCap >= TWO_256
    case TipVeryHigh => charged && msg.tipCap >= TWO_256
    case TipAboveFeeCap => charged && msg.tipCap > msg.feeCap
    case FeeCapTooLow => charged && msg.feeCap < env.baseFee
    case InsufficientFunds => Balance(w.balances, msg.from) < msg.gasLimit * msg.feeCap + msg.value
    case GasLimitReached => msg.gasLimit > pool
    case GasUintOverflow => Intrinsic(msg.data, msg.accessList, msg.to.None?).None?
    case IntrinsicGasTooLow =>
      var g := Intrinsic(msg.data, msg.accessList, msg.to.None?);
      g.Some? && g.value > msg.gasLimit
    case InsufficientFundsForTransfer =>
      msg.value > 0 && Balance(w.balances, msg.from) - msg.gasLimit * msg.gasPrice < msg.value
    case MaxInitCodeSizeExceeded => msg.to.None? && |msg.data| > 49152
  }

  /** The order of the checks. */
  function Rank(e: Error): nat {
    match e
    case InvalidSender => 0
    case NonceTooHigh => 1
    case NonceTooLow => 2
    case NonceMax => 3
    case SenderNoEOA => 4
    case FeeCapVeryHigh => 5
    case TipVeryHigh => 6
    case TipAboveFeeCap => 7
    case FeeCapTooLow => 8
    case InsufficientFunds => 9
    case GasLimitReached => 10
    case GasUintOverflow => 11
    case IntrinsicGasTooLow => 12
    case InsufficientFundsForTransfer => 13
    case MaxInitCodeSizeExceeded => 14
  }

  /** A message is accepted if and only if no error applies; otherwise the first that does is reported. */
  lemma AcceptsExactly(env: Env, w: World, pool: nat, msg: Message)
    requires Lawful(env.machine)
    ensures var o := Transition(env, w, pool, msg);
      && (o.Accepted? <==> forall e: Error :: !Violated(env, w, pool, msg, e))
      && (o.Rejected? ==> Violated(env, w, pool, msg, o.error)
                          && forall e: Error :: Rank(e) < Rank(o.error) ==> !Violated(env, w, pool, msg, e))
  {
    var o := Transition(env, w, pool, msg);
    if o.Rejected? {
      assert Violated(env, w, pool, msg, o.error);
    }
  }

  /** What the machine starts from: the gas is paid for in advance, and a call has used its nonce. */
  ghost predicate Prepaid(w: World, msg: Message, start: World) {
    && (forall a: Address :: PrepaidBy(w, msg, start, a))
    && start.code == w.code && start.refund == w.refund && start.context == w.context && start.rest == w.rest
  }

  ghost predicate PrepaidBy(w: World, msg: Message, start: World, a: Address) {
    && Balance(start.balances, a) == Balance(w.balances, a) - (if a == msg.from then msg.gasLimit * msg.gasPrice else 0)
    && Nonce(start.nonces, a) == Nonce(w.nonces, a) + (if a == msg.from && msg.to.Some? then 1 else 0)
  }

  /** What is paid after the machine: the sender gets back what was not used, the coinbase its tips. */
  ghost predicate PaidOut(env: Env, msg: Message, x: World, usedGas: nat, end: World) {
    (forall a: Address :: PaidTo(env, msg, x, usedGas, end, a)) && end == x.(balances := end.balances)
  }

  ghost predicate PaidTo(env: Env, msg: Message, x: World, usedGas: nat, end: World, a: Address) {
    var charged := !(env.noBaseFee && msg.feeCap == 0 && msg.tipCap == 0);
    Balance(end.balances, a) == Balance(x.balances, a)
      + (if a == msg.from then (msg.gasLimit - usedGas) * msg.gasPrice else 0)
      + (if a == env.coinbase && charged then usedGas * EffectiveTip(msg, env.baseFee) else 0)
  }

  /** The gas used is what the machine used less the refund counter, or less a fifth of it if that is
      less. */
  ghost predicate Refunded(limit: nat, x: Execution, usedGas: nat) {
    var used := limit - x.gasLeft;
    var refund := used - usedGas;
    && 0 <= refund <= x.world.refund && 5 * refund <= used
    && (refund == x.world.refund || 5 * (refund + 1) > used)
  }

  /** An accepted message ran the machine once, on the prepaid world and with its gas less the intrinsic
      gas, and was settled. */
  lemma RunsOnce(env: Env, w: World, pool: nat, msg: Message)
    requires Lawful(env.machine)
    ensures var o := Transition(env, w, pool, msg);
      o.Accepted? ==>
        var start, g := Started(Bought(w, msg), msg), Intrinsic(msg.data, msg.accessList, msg.to.None?);
        && Prepaid(w, msg, start) && g.Some? && g.value <= msg.gasLimit
        && var x := env.machine.run(start, msg, msg.gasLimit - g.value);
        && o.failed == x.failed && Refunded(msg.gasLimit, x, o.usedGas)
        && PaidOut(env, msg, x.world, o.usedGas, o.world)
  {
    var o := Transition(env, w, pool, msg);
    if o.Accepted? {
      StartsPrepaid(w, msg);
      var x := Executed(env, Bought(w, msg), msg);
      RefundExact(msg.gasLimit, x);
      SettlesOut(env, x.world, msg, msg.gasLimit - o.usedGas);
    }
  }

  lemma StartsPrepaid(w: World, msg: Message)
    ensures Prepaid(w, msg, Started(Bought(w, msg), msg))
  {
  }

  lemma RefundExact(limit: nat, x: Execution)
    requires x.gasLeft <= limit
    ensures Refunded(limit, x, limit - Returned(limit, x.gasLeft, x.world.refund))
  {
  }

  lemma SettlesOut(env: Env, x: World, msg: Message, returned: nat)
    requires returned <= msg.gasLimit
    ensures PaidOut(env, msg, x, msg.gasLimit - returned, Settled(env, x, msg, returned))
  {
  }

  // ----- gas -----

  /** The pool loses exactly the gas used, which is within the limit and, for intrinsic gas `g`, at
      least `g` less a fifth of it. */
  lemma GasAccounts(env: Env, w: World, pool: nat, msg: Message)
    requires Lawful(env.machine)
    ensures var o := Transition(env, w, pool, msg);
      o.Accepted? ==>
        && o.pool + o.usedGas == pool
        && o.usedGas <= msg.gasLimit
        && IntrinsicOf(msg).Some?
        && o.usedGas >= IntrinsicOf(msg).value - IntrinsicOf(msg).value / REFUND_QUOTIENT
  {
    var o := Transition(env, w, pool, msg);
    if o.Accepted? {
      var x := Executed(env, Bought(w, msg), msg);
      RefundFloor(IntrinsicOf(msg).value, msg.gasLimit - x.gasLeft);
    }
  }

  lemma RefundFloor(g: nat, used: nat)
    requires g <= used
    ensures g - g / REFUND_QUOTIENT <= used - used / REFUND_QUOTIENT
  {
  }

  /** A rejected message has done nothing, or has bought its gas and no more. */
  lemma RejectedEffect(env: Env, w: World, pool: nat, msg: Message)
    requires Lawful(env.machine)
    ensures var o := Transition(env, w, pool, msg);
      o.Rejected? ==>
        if BuyError(env, w, pool, msg).Some? then o.world == w && o.pool == pool
        else o.pool == pool - msg.gasLimit
             && Supply(o.world.balances) == Supply(w.balances) - msg.gasLimit * msg.gasPrice
             && forall a :: a != msg.from ==> Balance(o.world.balances, a) == Balance(w.balances, a)
  {
    CreditSupply(w, msg.from, -(msg.gasLimit * msg.gasPrice));
  }

  // ----- money -----

  ghost predicate FromTx(msg: Message, baseFee: nat) {
    exists tx: Tx :: TransactionToMessage(tx, baseFee) == Some(msg)
  }

  /** The effective price is the base fee and the effective tip, and never above the fee cap. */
  lemma PriceSplits(msg: Message, baseFee: nat)
    requires FromTx(msg, baseFee)
    ensures msg.gasPrice == baseFee + EffectiveTip(msg, baseFee) && 0 <= msg.gasPrice <= msg.feeCap
  {
  }

  /** What the machine itself adds to the supply or takes from it. */
  ghost function MachineChange(env: Env, w: World, msg: Message): int
    requires RunError(Bought(w, msg), msg).None?
  {
    Supply(Executed(env, Bought(w, msg), msg).world.balances) - Supply(Started(Bought(w, msg), msg).balances)
  }

  /** The price that is burnt: the base fee, except in a simulated call that sets no fees. */
  function BurntPrice(env: Env, msg: Message): nat {
    if FreeOfFees(env, msg) then 0 else env.baseFee
  }

  lemma Distribute(limit: int, returned: int, price: int, tip: int, burnt: int)
    requires price == burnt + tip
    ensures -(limit * price) + returned * price + (limit - returned) * tip == -((limit - returned) * burnt)
  {
    assert (limit - returned) * price == limit * price - returned * price;
    assert (limit - returned) * price == (limit - returned) * burnt + (limit - returned) * tip;
  }

  /** Buying gas, giving some back and paying tips burns the base fee of the gas used. */
  lemma NetFee(env: Env, msg: Message, returned: nat)
    requires FromTx(msg, env.baseFee) && returned <= msg.gasLimit
    ensures -(msg.gasLimit * msg.gasPrice) + returned * msg.gasPrice + Fee(env, msg, msg.gasLimit - returned)
         == -((msg.gasLimit - returned) * BurntPrice(env, msg))
  {
    PriceSplits(msg, env.baseFee);
    if FreeOfFees(env, msg) {
      assert msg.gasPrice == 0;
    } else {
      Distribute(msg.gasLimit, returned, msg.gasPrice, EffectiveTip(msg, env.baseFee), env.baseFee);
    }
  }

  lemma SettledSupply(env: Env, w: World, msg: Message, returned: nat)
    requires returned <= msg.gasLimit
    ensures Supply(Settled(env, w, msg, returned).balances) ==
      Supply(w.balances) + returned * msg.gasPrice + Fee(env, msg, msg.gasLimit - returned)
  {
    CreditSupply(w, msg.from, returned * msg.gasPrice);
    CreditSupply(Credit(w, msg.from, returned * msg.gasPrice), env.coinbase, (msg.gasLimit - returned) * EffectiveTip(msg, env.baseFee));
  }

  /** An accepted transaction changes the supply by the machine's own change less the burnt fee. */
  lemma SupplyChanges(env: Env, w: World, pool: nat, msg: Message)
    requires Lawful(env.machine) && FromTx(msg, env.baseFee)
    ensures var o := Transition(env, w, pool, msg);
      o.Accepted? ==>
        Supply(o.world.balances) == Supply(w.balances) + MachineChange(env, w, msg) - o.usedGas * BurntPrice(env, msg)
  {
    var o := Transition(env, w, pool, msg);
    if o.Accepted? {
      CreditSupply(w, msg.from, -(msg.gasLimit * msg.gasPrice));
      var x := Executed(env, Bought(w, msg), msg);
      var returned := msg.gasLimit - o.usedGas;
      SettledSupply(env, x.world, msg, returned);
      NetFee(env, msg, returned);
    }
  }

  lemma ProductOrder(n: nat, a: int, b: int)
    requires a <= b
    ensures n * a <= n * b
  {
    assert n * b == n * a + n * (b - a);
  }

  /** After buying gas the sender can still pay the value it sends. */
  lemma BoughtCovers(env: Env, w: World, pool: nat, msg: Message)
    requires FromTx(msg, env.baseFee) && BuyError(env, w, pool, msg).None?
    ensures Balance(Bought(w, msg).balances, msg.from) >= msg.value
    ensures Solvent(w) ==> Solvent(Bought(w, msg))
  {
    PriceSplits(msg, env.baseFee);
    ProductOrder(msg.gasLimit, msg.gasPrice, msg.feeCap);
  }

  /** So a transaction is never rejected for the value it transfers. */
  lemma TransferFunded(env: Env, w: World, pool: nat, msg: Message)
    requires Lawful(env.machine) && FromTx(msg, env.baseFee)
    ensures var o := Transition(env, w, pool, msg); !(o.Rejected? && o.error == InsufficientFundsForTransfer)
  {
    if BuyError(env, w, pool, msg).None? {
      BoughtCovers(env, w, pool, msg);
    }
  }

  /** No account is overdrawn, whether the transaction is accepted or not. */
  lemma StaysSolvent(env: Env, w: World, pool: nat, msg: Message)
    requires Lawful(env.machine) && FromTx(msg, env.baseFee) && Solvent(w)
    ensures Solvent(Transition(env, w, pool, msg).world)
  {
    var o := Transition(env, w, pool, msg);
    if BuyError(env, w, pool, msg).None? {
      BoughtCovers(env, w, pool, msg);
      if o.Accepted? {
        PriceSplits(msg, env.baseFee);
        var x := Executed(env, Bought(w, msg), msg);
        assert Solvent(Started(Bought(w, msg), msg));
        assert Solvent(x.world);
        SettledSolvent(env, x.world, msg, msg.gasLimit - o.usedGas);
      }
    }
  }

  lemma SettledSolvent(env: Env, w: World, msg: Message, returned: nat)
    requires Solvent(w) && returned <= msg.gasLimit && msg.gasPrice >= 0
    requires FreeOfFees(env, msg) || EffectiveTip(msg, env.baseFee) >= 0
    ensures Solvent(Settled(env, w, msg, returned))
  {
    ProductOrder(returned, 0, msg.gasPrice);
    if !FreeOfFees(env, msg) {
      ProductOrder(msg.gasLimit - returned, 0, EffectiveTip(msg, env.baseFee));
    }
  }

  // ----- nonces -----

  /** The machine lowers no nonce and raises a creator's, if it can pay what it sends; cleaning up
      lowers none. */
  ghost predicate KeepsNonces(m: Machine) {
    && (forall w, msg, gas: nat, a :: Nonce(m.run(w, msg, gas).world.nonces, a) >= Nonce(w.nonces, a))
    && (forall w: World, msg: Message, gas: nat ::
          msg.to.None? && Balance(w.balances, msg.from) >= msg.value && Nonce(w.nonces, msg.from) < MAX_NONCE ==>
            Nonce(m.run(w, msg, gas).world.nonces, msg.from) > Nonce(w.nonces, msg.from))
    && (forall w, a :: Nonce(m.finalise(w).nonces, a) >= Nonce(w.nonces, a))
  }

  /** An accepted transaction had its sender's nonce and leaves it behind. */
  lemma NonceSpent(env: Env, w: World, pool: nat, msg: Message)
    requires Lawful(env.machine) && KeepsNonces(env.machine) && FromTx(msg, env.baseFee)
    ensures var o := Transition(env, w, pool, msg);
      o.Accepted? ==>
        && Nonce(w.nonces, msg.from) == msg.nonce < Nonce(o.world.nonces, msg.from)
        && forall a :: Nonce(o.world.nonces, a) >= Nonce(w.nonces, a)
  {
    var o := Transition(env, w, pool, msg);
    if o.Accepted? {
      BoughtCovers(env, w, pool, msg);
      var started := Started(Bought(w, msg), msg);
      var x := Executed(env, Bought(w, msg), msg);
      assert o.world.nonces == x.world.nonces;
      forall a ensures Nonce(o.world.nonces, a) >= Nonce(w.nonces, a) {
        assert Nonce(started.nonces, a) >= Nonce(w.nonces, a);
      }
    }
  }

  /** So it cannot be accepted again. */
  lemma NoReplay(env: Env, w: World, pool: nat, msg: Message, pool': nat)
    requires Lawful(env.machine) && KeepsNonces(env.machine) && FromTx(msg, env.baseFee)
    requires Transition(env, w, pool, msg).Accepted?
    ensures var w' := Transition(env, w, pool, msg).world;
      Transition(env, w', pool', msg) == Rejected(NonceTooLow, w', pool')
  {
    NonceSpent(env, w, pool, msg);
  }

  // ----- plain transfers -----

  function Transfer(w: World, from: Address, to: Address, amount: nat): World {
    Credit(Credit(w, from, 0 - amount), to, amount)
  }

  lemma TransferConserves(w: World, from: Address, to: Address, amount: nat)
    ensures Supply(Transfer(w, from, to, amount).balances) == Supply(w.balances)
    ensures Solvent(w) && Balance(w.balances, from) >= amount ==> Solvent(Transfer(w, from, to, amount))
  {
    CreditSupply(w, from, 0 - amount);
    CreditSupply(Credit(w, from, 0 - amount), to, amount);
  }

  /** Moves the value if the sender has it; an empty contract costs its creator a nonce. */
  function RunTransfer(w: World, msg: Message, gas: nat): Execution {
    if Balance(w.balances, msg.from) < msg.value then Execution(w, gas, true)
    else if msg.to.None? then Execution(w.(nonces := w.nonces[msg.from := Nonce(w.nonces, msg.from) + 1]), gas, false)
    else Execution(Transfer(w, msg.from, msg.to.value, msg.value), gas, false)
  }

  /** The machine for accounts without code. */
  function TransferMachine(): Machine {
    Machine((w: World, msg: Message, gas: nat) => RunTransfer(w, msg, gas), (w: World) => w.(refund := 0))
  }

  /** It meets what is assumed of machines, and changes no supply of its own. */
  lemma TransfersAreLawful()
    ensures Lawful(TransferMachine()) && KeepsNonces(TransferMachine())
    ensures forall w: World, msg: Message, gas: nat ::
      Supply(TransferMachine().run(w, msg, gas).world.balances) == Supply(w.balances)
  {
    var m := TransferMachine();
    forall w: World, msg: Message, gas: nat
      ensures Supply(m.run(w, msg, gas).world.balances) == Supply(w.balances)
      ensures Solvent(w) ==> Solvent(m.run(w, msg, gas).world)
    {
      assert m.run(w, msg, gas) == RunTransfer(w, msg, gas);
      if msg.to.Some? {
        TransferConserves(w, msg.from, msg.to.value, msg.value);
      }
    }
  }

  // ----- the transition as it runs -----

  class StateTransition {
    const env: Env
    const msg: Message
    const gp: GasPool
    const state: StateDB
    var gasRemaining: nat
    var initialGas: nat

    constructor (env: Env, msg: Message, gp: GasPool, state: StateDB)
      ensures this.env == env && this.msg == msg && this.gp == gp && this.state == state
      ensures gasRemaining == 0 && initialGas == 0
    {
      this.env, this.msg, this.gp, this.state := env, msg, gp, state;
      gasRemaining, initialGas := 0, 0;
    }

    function GasUsed(): int
      reads this
    {
      initialGas - gasRemaining
    }

    method BuyGas() returns (err: Option<Error>)
      requires gp.Valid() && gasRemaining == 0 && CheckError(env, state.world, msg).None?
      modifies this, gp, state
      ensures gp.Valid() && err == BuyError(env, old(state.world), old(gp.gas), msg)
      ensures err.Some? ==> gp.gas == old(gp.gas) && state.world == old(state.world)
      ensures err.None? ==> gp.gas == old(gp.gas) - msg.gasLimit && state.world == Bought(old(state.world), msg)
      ensures err.None? ==> gasRemaining == initialGas == msg.gasLimit
    {
      var mgval := msg.gasLimit * msg.gasPrice;
      var balanceCheck := msg.gasLimit * msg.feeCap;
      balanceCheck := balanceCheck + msg.value;
      if state.GetBalance(msg.from) < balanceCheck {
        return Some(InsufficientFunds);
      }
      var ok := gp.SubGas(msg.gasLimit);
      if !ok {
        return Some(GasLimitReached);
      }
      gasRemaining := gasRemaining + msg.gasLimit;
      initialGas := msg.gasLimit;
      state.SubBalance(msg.from, mgval);
      return None;
    }

    method CheckAccount() returns (err: Option<Error>)
      ensures err.Some? ==> err == CheckError(env, state.world, msg)
      ensures err.None? <==>
        msg.skipAccountChecks || (Nonce(state.world.nonces, msg.from) == msg.nonce < MAX_NONCE && msg.from !in state.world.code)
    {
      if !msg.skipAccountChecks {
        var nonce := Nonce(state.world.nonces, msg.from);
        if nonce < msg.nonce {
          return Some(NonceTooHigh);
        } else if nonce > msg.nonce {
          return Some(NonceTooLow);
        } else if (nonce + 1) % (MAX_UINT64 + 1) < nonce {
          return Some(NonceMax);
        }
        if msg.from in state.world.code {
          return Some(SenderNoEOA);
        }
      }
      return None;
    }

    method PreCheck() returns (err: Option<Error>)
      requires gp.Valid() && gasRemaining == 0
      modifies this, gp, state
      ensures gp.Valid() && err == BuyError(env, old(state.world), old(gp.gas), msg)
      ensures err.Some? ==> gp.gas == old(gp.gas) && state.world == old(state.world)
      ensures err.None? ==> gp.gas == old(gp.gas) - msg.gasLimit && state.world == Bought(old(state.world), msg)
      ensures err.None? ==> gasRemaining == initialGas == msg.gasLimit
    {
      err := CheckAccount();
      if err.Some? {
        return;
      }
      if !env.noBaseFee || msg.feeCap > 0 || msg.tipCap > 0 {
        if msg.feeCap >= TWO_256 {
          return Some(FeeCapVeryHigh);
        }
        if msg.tipCap >= TWO_256 {
          return Some(TipVeryHigh);
        }
        if msg.feeCap < msg.tipCap {
          return Some(TipAboveFeeCap);
        }
        if msg.feeCap < env.baseFee {
          return Some(FeeCapTooLow);
        }
      }
      err := BuyGas();
    }

    /** The checks between buying gas and running the machine; they use up the intrinsic gas. */
    method PreRun() returns (err: Option<Error>)
      requires gasRemaining == initialGas == msg.gasLimit
      modifies this`gasRemaining
      ensures err == RunError(state.world, msg)
      ensures err.None? ==> gasRemaining == msg.gasLimit - IntrinsicOf(msg).value
    {
      var creation := msg.to.None?;
      var gas := IntrinsicGas(msg.data, msg.accessList, creation);
      if gas.None? {
        return Some(GasUintOverflow);
      }
      if gasRemaining < gas.value {
        return Some(IntrinsicGasTooLow);
      }
      gasRemaining := gasRemaining - gas.value;
      if msg.value > 0 && state.GetBalance(msg.from) < msg.value {
        return Some(InsufficientFundsForTransfer);
      }
      if creation && |msg.data| > MAX_INIT_CODE_SIZE {
        return Some(MaxInitCodeSizeExceeded);
      }
      return None;
    }

    /** Gives the refund and the remaining gas back, to the sender and to the pool; the pool cannot
        overflow because it gave out the whole limit before. */
    method RefundGas() returns (panicked: bool)
      requires gp.Valid() && gasRemaining <= initialGas && gp.gas + initialGas <= MAX_UINT64
      modifies this`gasRemaining, gp, state
      ensures gp.Valid() && !panicked && gasRemaining == Returned(initialGas, old(gasRemaining), old(state.world.refund))
      ensures gp.gas == old(gp.gas) + gasRemaining
      ensures state.world == Credit(old(state.world), msg.from, gasRemaining * msg.gasPrice)
    {
      var refund := Min(GasUsed() / REFUND_QUOTIENT, state.world.refund);
      gasRemaining := gasRemaining + refund;
      state.AddBalance(msg.from, gasRemaining * msg.gasPrice);
      panicked := gp.AddGas(gasRemaining);
    }

    /** Runs the message; the world, the pool and the result are those of `Transition`. */
    method TransitionDb() returns (err: Option<Error>, usedGas: nat, failed: bool)
      requires Lawful(env.machine) && gp.Valid() && gasRemaining == 0
      modifies this, gp, state
      ensures gp.Valid()
      ensures match Transition(env, old(state.world), old(gp.gas), msg)
        case Rejected(e, w, pool) => err == Some(e) && state.world == w && gp.gas == pool
        case Accepted(used, f, w, pool) => err == None && usedGas == used && failed == f && state.world == w && gp.gas == pool
    {
      usedGas, failed := 0, false;
      err := PreCheck();
      if err.Some? {
        return;
      }
      ghost var bought := state.world;
      err := PreRun();
      if err.Some? {
        return;
      }
      if msg.to.Some? {
        state.SetNonce(msg.from, Nonce(state.world.nonces, msg.from) + 1);
      }
      assert state.world == Started(bought, msg);
      var x := env.machine.run(state.world, msg, gasRemaining);
      assert x == Executed(env, bought, msg);
      state.world, gasRemaining, failed := x.world, x.gasLeft, x.failed;
      var panicked := RefundGas();
      assert !panicked;
      usedGas := GasUsed();
      if !FreeOfFees(env, msg) {
        state.AddBalance(env.coinbase, usedGas * EffectiveTip(msg, env.baseFee));
      }
    }
  }
}
