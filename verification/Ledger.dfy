/** The world state that transactions act on, and the total of its balances. */
module Ledger {
  type Address = nat

  /** Hash and index of the transaction being run. */
  datatype TxContext = TxContext(txHash: nat, txIndex: nat)

  /** Balances, nonces, the accounts with code, the refund counter, and all else as one value. */
  datatype World = World(balances: map<Address, int>, nonces: map<Address, nat>, code: set<Address>,
                         refund: nat, context: TxContext, rest: nat)

  function Balance(balances: map<Address, int>, a: Address): int {
    if a in balances then balances[a] else 0
  }

  function Nonce(nonces: map<Address, nat>, a: Address): nat {
    if a in nonces then nonces[a] else 0
  }

  /** The world with `amount`, which may be negative, added to a balance. */
  function Credit(w: World, a: Address, amount: int): World {
    w.(balances := w.balances[a := Balance(w.balances, a) + amount])
  }

  /** No account is overdrawn. */
  ghost predicate Solvent(w: World) {
    forall a <- w.balances :: w.balances[a] >= 0
  }

  /** All balances together. */
  ghost function Supply(balances: map<Address, int>): int
    decreases |balances|
  {
    if balances == map[] then 0
    else
      var a := var x :| x in balances; x;
      balances[a] + Supply(balances - {a})
  }

  /** The order of adding up does not matter. */
  lemma {:induction false} SupplyWithout(balances: map<Address, int>, a: Address)
    requires a in balances
    ensures Supply(balances) == balances[a] + Supply(balances - {a})
    decreases |balances|
  {
    var b :| b in balances && Supply(balances) == balances[b] + Supply(balances - {b});
    if a != b {
      SupplyWithout(balances - {b}, a);
      SupplyWithout(balances - {a}, b);
      assert balances - {a} - {b} == balances - {b} - {a};
    }
  }

  lemma CreditSupply(w: World, a: Address, amount: int)
    ensures Supply(Credit(w, a, amount).balances) == Supply(w.balances) + amount
  {
    var after := Credit(w, a, amount).balances;
    SupplyWithout(after, a);
    if a in w.balances {
      SupplyWithout(w.balances, a);
      assert after - {a} == w.balances - {a};
    } else {
      assert after - {a} == w.balances;
    }
  }

  /** The state database: a mutable world with exact snapshots that leave the context alone. */
  class StateDB {
    var world: World

    constructor (world: World)
      ensures this.world == world
    {
      this.world := world;
    }

    function GetBalance(a: Address): int
      reads this
    {
      Balance(world.balances, a)
    }

    method AddBalance(a: Address, amount: int)
      modifies this
      ensures world == Credit(old(world), a, amount)
    {
      world := world.(balances := world.balances[a := GetBalance(a) + amount]);
    }

    method SubBalance(a: Address, amount: int)
      modifies this
      ensures world == Credit(old(world), a, -amount)
    {
      world := world.(balances := world.balances[a := GetBalance(a) - amount]);
    }

    method SetNonce(a: Address, nonce: nat)
      modifies this
      ensures world == old(world).(nonces := old(world).nonces[a := nonce])
    {
      world := world.(nonces := world.nonces[a := nonce]);
    }

    method SetTxContext(txHash: nat, txIndex: nat)
      modifies this
      ensures world == old(world).(context := TxContext(txHash, txIndex))
    {
      world := world.(context := TxContext(txHash, txIndex));
    }

    function Snapshot(): World
      reads this
    {
      world
    }

    method RevertToSnapshot(snap: World)
      modifies this
      ensures world == snap.(context := old(world).context)
    {
      world := snap.(context := world.context);
    }
  }
}
