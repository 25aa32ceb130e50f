/** The fork search at the start of a block reorganisation: two descending walks that
    meet at the highest common ancestor. */
module Fork {
  import opened Wrappers
  import opened BlockTree

  type TxHash = nat
  type Bodies = map<Hash, seq<TxHash>>

  datatype ChainError = MissingHead | InvalidOldChain | InvalidNewChain | StateMissing | CommitFailed

  /** `oldChain` and `newChain` run from the two heads down to, but without, `common`. */
  datatype ForkPoint = ForkPoint(
    oldChain: seq<Header>, newChain: seq<Header>, common: Header, deletedTxs: seq<TxHash>)

  datatype ForkResult = Found(fork: ForkPoint) | Failed(error: ChainError)

  /** A block is found when its header is stored at that height and its body is present.
      `n` is -1 for the parent of a block at height zero, which is never found. */
  function GetBlock(hs: Headers, bodies: Bodies, h: Hash, n: int): Option<Header> {
    if h in hs && hs[h].number == n && h in bodies then Some(hs[h]) else None
  }

  function Body(bodies: Bodies, h: Hash): seq<TxHash> {
    if h in bodies then bodies[h] else []
  }

  function TxsOf(bodies: Bodies, chain: seq<Header>): seq<TxHash> {
    if |chain| == 0 then []
    else TxsOf(bodies, chain[..|chain| - 1]) + Body(bodies, chain[|chain| - 1].hash)
  }

  lemma {:induction false} InTxsOf(bodies: Bodies, chain: seq<Header>, t: TxHash)
    ensures t in TxsOf(bodies, chain) <==>
            exists i :: 0 <= i < |chain| && t in Body(bodies, chain[i].hash)
  {
    if |chain| > 0 {
      var init := chain[..|chain| - 1];
      InTxsOf(bodies, init, t);
      assert forall i :: 0 <= i < |init| ==> init[i] == chain[i];
    }
  }

  /** Stored blocks, each the parent of the one before it. */
  ghost predicate Descends(hs: Headers, bodies: Bodies, path: seq<Header>) {
    && (forall i :: 0 <= i < |path| ==>
          Stored(hs, path[i]) && path[i].hash in bodies && path[i].number == path[0].number - i)
    && forall i, j {:trigger path[i], path[j]} ::
         0 <= i && j == i + 1 && j < |path| ==> path[j].hash == path[i].parent
  }

  ghost predicate Disjoint(a: seq<Header>, b: seq<Header>) {
    forall i, j :: 0 <= i < |a| && 0 <= j < |b| ==> a[i].hash != b[j].hash
  }

  /** Both walks are parent walks that end in `common` and share no block above it. */
  ghost predicate MeetsAt(hs: Headers, bodies: Bodies, oldHead: Header, newHead: Header, f: ForkPoint) {
    && Descends(hs, bodies, f.oldChain + [f.common])
    && Descends(hs, bodies, f.newChain + [f.common])
    && (f.oldChain + [f.common])[0] == oldHead
    && (f.newChain + [f.common])[0] == newHead
    && Disjoint(f.oldChain, f.newChain)
    && f.deletedTxs == TxsOf(bodies, f.oldChain)
  }

  lemma DescendsOneMore(hs: Headers, bodies: Bodies, chain: seq<Header>, b: Header, next: Header)
    requires Descends(hs, bodies, chain + [b])
    requires GetBlock(hs, bodies, b.parent, b.number - 1) == Some(next)
    requires WellKeyed(hs)
    ensures Descends(hs, bodies, chain + [b] + [next])
    ensures (chain + [b] + [next])[0] == (chain + [b])[0]
  {
    var p := chain + [b];
    var q := p + [next];
    assert p[|chain|] == b;
    forall i | 0 <= i < |q|
      ensures Stored(hs, q[i]) && q[i].hash in bodies && q[i].number == q[0].number - i
    {
      if i < |p| { assert q[i] == p[i]; }
    }
    forall i, j | 0 <= i && j == i + 1 && j < |q|
      ensures q[j].hash == q[i].parent
    {
      assert q[i] == p[i];
      if j < |p| { assert q[j] == p[j]; }
    }
  }

  /** A validated store, closed under parents, with every body present. */
  ghost predicate Complete(hs: Headers, bodies: Bodies) {
    ValidTree(hs) && Rooted(hs) && hs.Keys <= bodies.Keys
  }

  /** Steps from the last block of a walk to its parent. */
  method Step(hs: Headers, bodies: Bodies, chain: seq<Header>, block: Header) returns (next: Option<Header>)
    requires WellKeyed(hs) && Descends(hs, bodies, chain + [block])
    ensures next.Some? ==>
      && next.value.number == block.number - 1
      && Descends(hs, bodies, chain + [block] + [next.value])
      && (chain + [block] + [next.value])[0] == (chain + [block])[0]
    ensures Complete(hs, bodies) && block.number > 0 ==> next.Some?
  {
    next := GetBlock(hs, bodies, block.parent, block.number - 1);
    assert (chain + [block])[|chain|] == block;
    assert Complete(hs, bodies) && block.number > 0 ==> 
      ParentStored(hs, block.hash) && ParentOf(hs, block.hash, block.parent);
    if next.Some? {
      DescendsOneMore(hs, bodies, chain, block, next.value);
    }
  }

  /** Walks a chain down to height `n`, collecting the blocks passed. */
  method Reduce(hs: Headers, bodies: Bodies, top: Header, n: nat)
    returns (chain: seq<Header>, reached: Option<Header>)
    requires WellKeyed(hs) && Descends(hs, bodies, [top]) && n <= top.number
    ensures reached.Some? ==>
      && Descends(hs, bodies, chain + [reached.value])
      && (chain + [reached.value])[0] == top
      && reached.value.number == n
    ensures Complete(hs, bodies) ==> reached.Some?
  {
    var block := top;
    chain := [];
    assert chain + [block] == [top];
    while block.number != n
      invariant Descends(hs, bodies, chain + [block])
      invariant (chain + [block])[0] == top
      invariant n <= block.number
      decreases block.number
    {
      var parent := Step(hs, bodies, chain, block);
      if parent.None? {
        return chain, None;
      }
      chain := chain + [block];
      block := parent.value;
    }
    reached := Some(block);
  }

  /** Every block of a walk lies above its last one. */
  lemma AppendDisjoint(hs: Headers, bodies: Bodies, a: seq<Header>, x: Header, b: seq<Header>, y: Header)
    requires WellKeyed(hs) && Disjoint(a, b)
    requires Descends(hs, bodies, a + [x]) && Descends(hs, bodies, b + [y])
    requires x.number == y.number && x.hash != y.hash
    ensures Disjoint(a + [x], b + [y])
  {
    var p, q := a + [x], b + [y];
    forall i, j | 0 <= i < |p| && 0 <= j < |q| ensures p[i].hash != q[j].hash {
      assert p[|a|] == x && q[|b|] == y;
      if i < |a| && j < |b| {
        assert p[i] == a[i] && q[j] == b[j];
      }
    }
  }

  /** The walks of a reorganisation: reduce the longer chain to the height of the shorter
      one, then step both until they meet. */
  method FindFork(hs: Headers, bodies: Bodies, oldHead: Header, newHead: Header) returns (r: ForkResult)
    requires WellKeyed(hs) && Descends(hs, bodies, [newHead])
    requires Stored(hs, oldHead)
    ensures r.Found? ==> MeetsAt(hs, bodies, oldHead, newHead, r.fork)
    ensures Complete(hs, bodies) ==> r.Found?
  {
    var found := GetBlock(hs, bodies, oldHead.hash, oldHead.number);
    if found.None? {
      return Failed(MissingHead);
    }
    var oldBlock, newBlock := found.value, newHead;
    var oldChain, newChain := [], [];
    assert oldChain + [oldBlock] == [oldHead] && newChain + [newBlock] == [newHead];
    if oldBlock.number > newBlock.number {
      var chain, reached := Reduce(hs, bodies, oldBlock, newBlock.number);
      if reached.None? {
        return Failed(InvalidOldChain);
      }
      oldChain, oldBlock := chain, reached.value;
    } else {
      var chain, reached := Reduce(hs, bodies, newBlock, oldBlock.number);
      if reached.None? {
        return Failed(InvalidNewChain);
      }
      newChain, newBlock := chain, reached.value;
    }
    while oldBlock.hash != newBlock.hash
      invariant Descends(hs, bodies, oldChain + [oldBlock]) && Descends(hs, bodies, newChain + [newBlock])
      invariant (oldChain + [oldBlock])[0] == oldHead && (newChain + [newBlock])[0] == newHead
      invariant oldBlock.number == newBlock.number
      invariant Disjoint(oldChain, newChain)
      decreases oldBlock.number
    {
      assert Stored(hs, oldBlock) by { assert (oldChain + [oldBlock])[|oldChain|] == oldBlock; }
      assert Stored(hs, newBlock) by { assert (newChain + [newBlock])[|newChain|] == newBlock; }
      assert oldBlock.number == 0 ==> IsRoot(hs, oldBlock.hash) && IsRoot(hs, newBlock.hash);
      AppendDisjoint(hs, bodies, oldChain, oldBlock, newChain, newBlock);
      var oldParent := Step(hs, bodies, oldChain, oldBlock);
      if oldParent.None? {
        return Failed(InvalidOldChain);
      }
      var newParent := Step(hs, bodies, newChain, newBlock);
      if newParent.None? {
        return Failed(InvalidNewChain);
      }
      oldChain, newChain := oldChain + [oldBlock], newChain + [newBlock];
      oldBlock, newBlock := oldParent.value, newParent.value;
    }
    assert (oldChain + [oldBlock])[|oldChain|] == oldBlock && (newChain + [newBlock])[|newChain|] == newBlock;
    r := Found(ForkPoint(oldChain, newChain, oldBlock, TxsOf(bodies, oldChain)));
  }
}
