/** What a block reorganisation does to the number-to-hash index and to the transaction
    lookup index. */
module Reorg {
  import opened Arithmetic
  import opened Wrappers
  import opened BlockTree
  import opened Fork
  import opened Logs

  type Lookup = map<TxHash, nat>

  /** `t` is looked up at height `n` exactly when the indexed block at `n` carries it. */
  ghost predicate LookupExact(bodies: Bodies, idx: Index, lookup: Lookup, top: nat) {
    && (forall t <- lookup :: lookup[t] <= top && Carries(bodies, idx, lookup[t], t))
    && forall t: TxHash, n: nat :: n <= top && Carries(bodies, idx, n, t) ==> t in lookup && lookup[t] == n
  }

  ghost predicate Carries(bodies: Bodies, idx: Index, n: nat, t: TxHash) {
    n in idx && idx[n] in bodies && t in bodies[idx[n]]
  }

  /** No transaction occurs at two heights of the chain below and at `head`. */
  ghost predicate NoRepeats(hs: Headers, bodies: Bodies, head: Header) {
    forall t: TxHash, m: nat, n: nat ::
      (m <= head.number && n <= head.number &&
       OnChain(hs, bodies, head, m, t) && OnChain(hs, bodies, head, n, t)) ==> m == n
  }

  ghost predicate OnChain(hs: Headers, bodies: Bodies, head: Header, n: nat, t: TxHash)
    requires n <= head.number
  {
    AncestorAt(hs, head, n).Some? && var h := AncestorAt(hs, head, n).value.hash; h in bodies && t in bodies[h]
  }

  lemma OnChainIsCarried(hs: Headers, bodies: Bodies, idx: Index, head: Header, n: nat, t: TxHash)
    requires WellKeyed(hs) && Canonical(hs, idx, head) && n <= head.number
    ensures OnChain(hs, bodies, head, n, t) <==> Carries(bodies, idx, n, t)
  {
    LinkedWalk(hs, idx, head.number, head.number - n);
  }

  /** The index after the walk of `fork` has been applied: old below the fork, new above. */
  ghost predicate Switched(idx: Index, idx': Index, fork: ForkPoint, lo: nat)
    requires lo <= |fork.newChain|
  {
    var c := fork.common.number;
    && (forall n: nat :: n in idx' <==> n in idx || c < n <= c + |fork.newChain| - lo)
    && (forall n: nat :: n in idx && !(c < n <= c + |fork.newChain| - lo) ==> idx'[n] == idx[n])
    && forall n: nat :: c < n <= c + |fork.newChain| - lo ==> idx'[n] == fork.newChain[c + |fork.newChain| - n].hash
  }

  lemma SwitchOneMore(idx: Index, before: Index, fork: ForkPoint, i: nat)
    requires i < |fork.newChain| && Switched(idx, before, fork, i + 1)
    requires fork.newChain[i].number == fork.common.number + |fork.newChain| - i
    ensures Switched(idx, before[fork.newChain[i].number := fork.newChain[i].hash], fork, i)
  {
  }

  /** The lookup index after the bodies of `chain[lo..]` were entered over `was`. */
  ghost predicate Entered(bodies: Bodies, was: Lookup, lookup: Lookup, chain: seq<Header>, lo: nat) {
    forall t: TxHash :: EnteredAt(bodies, was, lookup, chain, lo, t)
  }

  ghost predicate EnteredAt(bodies: Bodies, was: Lookup, lookup: Lookup, chain: seq<Header>, lo: nat, t: TxHash) {
    if t in TxsFrom(bodies, chain, lo)
    then t in lookup && exists i :: lo <= i < |chain| && t in Body(bodies, chain[i].hash) && lookup[t] == chain[i].number
    else (t in lookup <==> t in was) && (t in was ==> lookup[t] == was[t])
  }

  function TxSet(txs: seq<TxHash>): set<TxHash> {
    set t | t in txs
  }

  function TxsFrom(bodies: Bodies, chain: seq<Header>, lo: nat): (s: set<TxHash>)
    ensures forall t :: t in s <==> exists i :: lo <= i < |chain| && t in Body(bodies, chain[i].hash)
  {
    set i, t | lo <= i < |chain| && t in Body(bodies, chain[i].hash) :: t
  }

  /** The block a reorganisation leaves as the top of the index; the head itself is left to
      the caller, unless it was already on the old chain. */
  ghost function Base(fork: ForkPoint): Header {
    if |fork.newChain| > 1 then fork.newChain[1] else fork.common
  }

  lemma TxsFromNext(bodies: Bodies, chain: seq<Header>, i: nat)
    requires i < |chain|
    ensures TxsFrom(bodies, chain, i) ==
            TxsFrom(bodies, chain, i + 1) + (set t | t in Body(bodies, chain[i].hash))
  {
  }

  lemma EnterOneMore(bodies: Bodies, was: Lookup, before: Lookup, after: Lookup, chain: seq<Header>, i: nat)
    requires i < |chain| && Entered(bodies, was, before, chain, i + 1)
    requires after == before + (map t | t in Body(bodies, chain[i].hash) :: chain[i].number)
    ensures Entered(bodies, was, after, chain, i)
  {
    forall t: TxHash ensures EnteredAt(bodies, was, after, chain, i, t) {
      EnterTx(bodies, was, before, after, chain, i, t);
    }
  }

  lemma EnterTx(bodies: Bodies, was: Lookup, before: Lookup, after: Lookup, chain: seq<Header>, i: nat, t: TxHash)
    requires i < |chain| && EnteredAt(bodies, was, before, chain, i + 1, t)
    requires after == before + (map t | t in Body(bodies, chain[i].hash) :: chain[i].number)
    ensures EnteredAt(bodies, was, after, chain, i, t)
  {
    TxsFromNext(bodies, chain, i);
    if t in Body(bodies, chain[i].hash) {
      assert after[t] == chain[i].number;
    } else if t in TxsFrom(bodies, chain, i + 1) {
      var k :| i + 1 <= k < |chain| && t in Body(bodies, chain[k].hash) && before[t] == chain[k].number;
      assert after[t] == chain[k].number;
    }
  }

  lemma {:induction false} PathOnIndex(hs: Headers, bodies: Bodies, idx: Index, head: Header, path: seq<Header>, i: nat)
    requires Canonical(hs, idx, head) && Descends(hs, bodies, path)
    requires i < |path| && path[0] == head
    ensures path[i].number <= head.number && idx[path[i].number] == path[i].hash
  {
    if i > 0 {
      PathOnIndex(hs, bodies, idx, head, path, i - 1);
      assert path[i].hash == path[i - 1].parent;
      assert hs[idx[path[i - 1].number]].parent == idx[path[i].number];
    }
  }

  /** Where the two walks lie: the old one on the old index, the new one above the fork. */
  lemma ForkHeights(hs: Headers, bodies: Bodies, idx: Index, oldHead: Header, newHead: Header, fork: ForkPoint)
    requires WellKeyed(hs) && Canonical(hs, idx, oldHead) && MeetsAt(hs, bodies, oldHead, newHead, fork)
    ensures fork.common.number <= oldHead.number && idx[fork.common.number] == fork.common.hash
    ensures |fork.oldChain| == oldHead.number - fork.common.number
    ensures |fork.newChain| == newHead.number - fork.common.number
    ensures forall i :: 0 <= i < |fork.oldChain| ==>
      fork.oldChain[i].number == oldHead.number - i && idx[oldHead.number - i] == fork.oldChain[i].hash
    ensures Climbs(hs, fork.newChain, fork.common)
    ensures newHead == if |fork.newChain| > 0 then fork.newChain[0] else fork.common
  {
    var p := fork.oldChain + [fork.common];
    var q := fork.newChain + [fork.common];
    assert p[|fork.oldChain|] == fork.common && q[|fork.newChain|] == fork.common;
    PathOnIndex(hs, bodies, idx, oldHead, p, |fork.oldChain|);
    forall i | 0 <= i < |fork.oldChain|
      ensures fork.oldChain[i].number == oldHead.number - i && idx[oldHead.number - i] == fork.oldChain[i].hash
    {
      assert p[i] == fork.oldChain[i];
      PathOnIndex(hs, bodies, idx, oldHead, p, i);
    }
    assert forall i :: 0 <= i < |fork.newChain| ==> q[i] == fork.newChain[i];
  }

  /** The chain climbs from `common`, last element first. */
  ghost predicate Climbs(hs: Headers, chain: seq<Header>, common: Header) {
    && Stored(hs, common)
    && (forall i :: 0 <= i < |chain| ==> chain[i].number == common.number + |chain| - i && Stored(hs, chain[i]))
    && (forall i, j {:trigger chain[i], chain[j]} ::
          0 <= i && j == i + 1 && j < |chain| ==> chain[j].hash == chain[i].parent)
    && (|chain| > 0 ==> chain[|chain| - 1].parent == common.hash)
  }

  /** Old index up to the fork, new chain above it. */
  lemma Splice(hs: Headers, idx0: Index, idx2: Index, common: Header, chain: seq<Header>, lo: nat)
    requires WellKeyed(hs) && LinkedUpTo(hs, idx0, common.number) && idx0[common.number] == common.hash
    requires Climbs(hs, chain, common) && lo <= |chain|
    requires AgreesUpTo(idx0, idx2, common.number)
    requires forall n: nat :: common.number < n <= common.number + |chain| - lo ==>
      n in idx2 && idx2[n] == chain[common.number + |chain| - n].hash
    ensures LinkedUpTo(hs, idx2, common.number + |chain| - lo)
  {
    var c := common.number;
    forall i: nat, j: nat | j == i + 1 && j <= c + |chain| - lo
      ensures hs[idx2[j]].parent == idx2[i]
    {
      if i > c {
        assert chain[c + |chain| - i].hash == chain[c + |chain| - j].parent;
      } else if j <= c {
        assert idx2[i] == idx0[i] && idx2[j] == idx0[j];
      } else {
        assert idx2[j] == chain[|chain| - 1].hash;
      }
    }
  }

  lemma SwitchedIsCanonical(hs: Headers, oldHead: Header, fork: ForkPoint, idx0: Index, idx1: Index, idx2: Index)
    requires WellKeyed(hs) && Canonical(hs, idx0, oldHead) && fork.common.number <= oldHead.number
    requires idx0[fork.common.number] == fork.common.hash && Climbs(hs, fork.newChain, fork.common)
    requires if |fork.newChain| > 0 then Switched(idx0, idx1, fork, 1) else idx1 == idx0
    requires forall n: nat :: n in idx2 <==> n <= Base(fork).number
    requires forall n: nat :: n <= Base(fork).number && n in idx1 ==> idx2[n] == idx1[n]
    ensures Canonical(hs, idx2, Base(fork))
    ensures AgreesUpTo(idx0, idx2, fork.common.number)
  {
    var lo := if |fork.newChain| > 0 then 1 else 0;
    assert Base(fork).number == fork.common.number + |fork.newChain| - lo;
    Splice(hs, idx0, idx2, fork.common, fork.newChain, lo);
  }

  lemma ReorgIndex(hs: Headers, bodies: Bodies, oldHead: Header, newHead: Header, fork: ForkPoint,
                   idx0: Index, idx1: Index, idx2: Index)
    requires WellKeyed(hs) && Canonical(hs, idx0, oldHead) && MeetsAt(hs, bodies, oldHead, newHead, fork)
    requires if |fork.newChain| > 0 then Switched(idx0, idx1, fork, 1) else idx1 == idx0
    requires forall n: nat :: n in idx2 <==> n <= Base(fork).number
    requires forall n: nat :: n <= Base(fork).number && n in idx1 ==> idx2[n] == idx1[n]
    ensures Canonical(hs, idx2, Base(fork))
    ensures AgreesUpTo(idx0, idx2, fork.common.number)
  {
    ForkHeights(hs, bodies, idx0, oldHead, newHead, fork);
    SwitchedIsCanonical(hs, oldHead, fork, idx0, idx1, idx2);
  }

  ghost predicate AgreesUpTo(a: Index, b: Index, top: nat) {
    forall n: nat :: n <= top ==> n in a && n in b && a[n] == b[n]
  }

  ghost predicate NoRepeatsUpTo(bodies: Bodies, idx: Index, top: nat) {
    forall t: TxHash, m: nat, n: nat ::
      (m <= top && n <= top && Carries(bodies, idx, m, t) && Carries(bodies, idx, n, t)) ==> m == n
  }

  lemma NoRepeatsOnIndex(hs: Headers, bodies: Bodies, idx: Index, head: Header)
    requires WellKeyed(hs) && Canonical(hs, idx, head)
    ensures NoRepeats(hs, bodies, head) <==> NoRepeatsUpTo(bodies, idx, head.number)
  {
    forall t: TxHash, n: nat | n <= head.number
      ensures OnChain(hs, bodies, head, n, t) <==> Carries(bodies, idx, n, t)
    {
      OnChainIsCarried(hs, bodies, idx, head, n, t);
    }
  }

  /** The facts about a finished reorganisation that the lookup argument needs: `c` is the
      fork height, `dropped` and `added` the transactions above it on either side. */
  ghost predicate Moved(bodies: Bodies, idx0: Index, oldTop: nat, idx2: Index, newTop: nat, c: nat,
                        dropped: set<TxHash>, added: set<TxHash>)
  {
    && c <= oldTop && c <= newTop
    && AgreesUpTo(idx0, idx2, c)
    && (forall t: TxHash :: t in dropped <==> exists n: nat :: c < n <= oldTop && Carries(bodies, idx0, n, t))
    && (forall t: TxHash :: t in added <==> exists n: nat :: c < n <= newTop && Carries(bodies, idx2, n, t))
  }

  /** Entering the new chain's transactions and then deleting the dropped ones that were not
      entered again keeps the lookup index exact. */
  lemma LookupMoves(bodies: Bodies, idx0: Index, oldTop: nat, idx2: Index, newTop: nat, c: nat,
                    dropped: set<TxHash>, added: set<TxHash>, lookup0: Lookup, lookup1: Lookup)
    requires Moved(bodies, idx0, oldTop, idx2, newTop, c, dropped, added)
    requires LookupExact(bodies, idx0, lookup0, oldTop)
    requires forall t: TxHash :: t in added ==>
      t in lookup1 && c < lookup1[t] <= newTop && Carries(bodies, idx2, lookup1[t], t)
    requires forall t: TxHash :: t !in added ==>
      (t in lookup1 <==> t in lookup0) && (t in lookup0 ==> lookup1[t] == lookup0[t])
    requires NoRepeatsUpTo(bodies, idx2, newTop)
    ensures LookupExact(bodies, idx2, lookup1 - (dropped - added), newTop)
  {
    var lookup2 := lookup1 - (dropped - added);
    forall t <- lookup2 ensures lookup2[t] <= newTop && Carries(bodies, idx2, lookup2[t], t) {
      if t !in added {
        assert lookup2[t] == lookup0[t] && Carries(bodies, idx0, lookup0[t], t);
        assert lookup0[t] <= c;
      }
    }
    forall t: TxHash, n: nat | n <= newTop && Carries(bodies, idx2, n, t)
      ensures t in lookup2 && lookup2[t] == n
    {
      if n <= c {
        assert Carries(bodies, idx0, n, t);
        assert t !in added;
        assert t !in dropped;
      }
    }
  }

  /** Entering the head's own transactions completes the index exactly when no transaction
      occurs twice on its chain. */
  lemma LookupHead(hs: Headers, bodies: Bodies, idx: Index, head: Header, idx0: Index, lookup0: Lookup, base: Header)
    requires WellKeyed(hs) && Canonical(hs, idx, head)
    requires head.number <= base.number + 1 && base.number <= head.number
    requires AgreesUpTo(idx0, idx, base.number)
    requires NoRepeatsUpTo(bodies, idx0, base.number) ==> LookupExact(bodies, idx0, lookup0, base.number)
    ensures LookupExact(bodies, idx, lookup0 + (map t | t in Body(bodies, head.hash) :: head.number), head.number)
            <==> NoRepeats(hs, bodies, head)
  {
    var lookup := lookup0 + (map t | t in Body(bodies, head.hash) :: head.number);
    NoRepeatsOnIndex(hs, bodies, idx, head);
    if NoRepeatsUpTo(bodies, idx, head.number) {
      assert forall t: TxHash, n: nat :: n <= base.number ==>
        (Carries(bodies, idx0, n, t) <==> Carries(bodies, idx, n, t));
      forall t <- lookup ensures lookup[t] <= head.number && Carries(bodies, idx, lookup[t], t) {
      }
      forall t: TxHash, n: nat | n <= head.number && Carries(bodies, idx, n, t)
        ensures t in lookup && lookup[t] == n
      {
        if t in Body(bodies, head.hash) {
          assert Carries(bodies, idx, head.number, t);
        }
      }
    }
  }

  lemma ReorgMoves(hs: Headers, bodies: Bodies, oldHead: Header, newHead: Header, fork: ForkPoint,
                   idx0: Index, idx2: Index)
    requires WellKeyed(hs) && Canonical(hs, idx0, oldHead) && MeetsAt(hs, bodies, oldHead, newHead, fork)
    requires Canonical(hs, idx2, Base(fork)) && AgreesUpTo(idx0, idx2, fork.common.number)
    ensures Moved(bodies, idx0, oldHead.number, idx2, Base(fork).number, fork.common.number,
                  TxSet(fork.deletedTxs), TxsFrom(bodies, fork.newChain, 1))
    ensures forall i :: 1 <= i < |fork.newChain| ==>
      fork.common.number < fork.newChain[i].number <= Base(fork).number
      && idx2[fork.newChain[i].number] == fork.newChain[i].hash
  {
    ForkHeights(hs, bodies, idx0, oldHead, newHead, fork);
    NewChainOnIndex(hs, bodies, oldHead, newHead, fork, idx2);
    var c := fork.common.number;
    var dropped, added := TxSet(fork.deletedTxs), TxsFrom(bodies, fork.newChain, 1);
    forall t: TxHash ensures t in dropped <==> exists n: nat :: c < n <= oldHead.number && Carries(bodies, idx0, n, t) {
      DroppedTx(hs, bodies, oldHead, newHead, fork, idx0, t);
    }
    forall t: TxHash ensures t in added <==> exists n: nat :: c < n <= Base(fork).number && Carries(bodies, idx2, n, t) {
      AddedTx(hs, bodies, oldHead, newHead, fork, idx0, idx2, t);
    }
  }

  lemma DroppedTx(hs: Headers, bodies: Bodies, oldHead: Header, newHead: Header, fork: ForkPoint, idx: Index, t: TxHash)
    requires WellKeyed(hs) && Canonical(hs, idx, oldHead) && MeetsAt(hs, bodies, oldHead, newHead, fork)
    ensures t in TxSet(fork.deletedTxs) <==>
            exists n: nat :: fork.common.number < n <= oldHead.number && Carries(bodies, idx, n, t)
  {
    ForkHeights(hs, bodies, idx, oldHead, newHead, fork);
    InTxsOf(bodies, fork.oldChain, t);
    if n: nat :| fork.common.number < n <= oldHead.number && Carries(bodies, idx, n, t) {
      assert idx[n] == fork.oldChain[oldHead.number - n].hash;
    }
    if i :| 0 <= i < |fork.oldChain| && t in Body(bodies, fork.oldChain[i].hash) {
      assert Carries(bodies, idx, oldHead.number - i, t);
    }
  }

  lemma AddedTx(hs: Headers, bodies: Bodies, oldHead: Header, newHead: Header, fork: ForkPoint,
                idx0: Index, idx: Index, t: TxHash)
    requires WellKeyed(hs) && Canonical(hs, idx0, oldHead) && MeetsAt(hs, bodies, oldHead, newHead, fork)
    requires Canonical(hs, idx, Base(fork))
    ensures t in TxsFrom(bodies, fork.newChain, 1) <==>
            exists n: nat :: fork.common.number < n <= Base(fork).number && Carries(bodies, idx, n, t)
  {
    ForkHeights(hs, bodies, idx0, oldHead, newHead, fork);
    NewChainOnIndex(hs, bodies, oldHead, newHead, fork, idx);
    if n: nat :| fork.common.number < n <= Base(fork).number && Carries(bodies, idx, n, t) {
      assert idx[n] == fork.newChain[newHead.number - n].hash;
    }
    if i :| 1 <= i < |fork.newChain| && t in Body(bodies, fork.newChain[i].hash) {
      assert Carries(bodies, idx, fork.newChain[i].number, t);
    }
  }

  lemma NewChainOnIndex(hs: Headers, bodies: Bodies, oldHead: Header, newHead: Header, fork: ForkPoint, idx: Index)
    requires WellKeyed(hs) && MeetsAt(hs, bodies, oldHead, newHead, fork) && Canonical(hs, idx, Base(fork))
    ensures forall i :: 1 <= i < |fork.newChain| ==>
      fork.newChain[i].number == newHead.number - i && fork.newChain[i].number <= Base(fork).number
      && idx[newHead.number - i] == fork.newChain[i].hash
  {
    var q := fork.newChain + [fork.common];
    forall i | 1 <= i < |fork.newChain|
      ensures fork.newChain[i].number == newHead.number - i && fork.newChain[i].number <= Base(fork).number
      ensures idx[newHead.number - i] == fork.newChain[i].hash
    {
      var tail := q[1..];
      assert forall k :: 0 <= k < |tail| ==> tail[k] == q[k + 1];
      assert Descends(hs, bodies, tail);
      PathOnIndex(hs, bodies, idx, Base(fork), tail, i - 1);
    }
  }

  lemma HeadEntered(hs: Headers, idx: Index, base: Header, head: Header)
    requires Canonical(hs, idx, base) && Stored(hs, head)
    requires base == head || (head.parent == base.hash && head.number == base.number + 1)
    ensures Canonical(hs, idx[head.number := head.hash], head)
    ensures AgreesUpTo(idx, idx[head.number := head.hash], base.number)
  {
    if base == head {
      assert idx[head.number := head.hash] == idx;
    } else {
      CanonicalExtends(hs, idx, base, head);
    }
  }

  /** The head is already on the index exactly when it was canonical before. */
  lemma HeadWasCanonical(hs: Headers, bodies: Bodies, oldHead: Header, newHead: Header, fork: ForkPoint, idx: Index)
    requires WellKeyed(hs) && Canonical(hs, idx, oldHead) && MeetsAt(hs, bodies, oldHead, newHead, fork)
    ensures OnIndex(idx, newHead) <==> |fork.newChain| == 0
    ensures Base(fork) == newHead <==> |fork.newChain| == 0
    ensures Base(fork) == newHead || (newHead.parent == Base(fork).hash && newHead.number == Base(fork).number + 1)
    ensures fork.common.number <= oldHead.number && fork.common.number <= Base(fork).number <= newHead.number
    ensures |fork.newChain| == 0 ==> fork.common.number == newHead.number
  {
    ForkHeights(hs, bodies, idx, oldHead, newHead, fork);
    if |fork.newChain| > 0 && newHead.number <= oldHead.number {
      assert fork.oldChain[oldHead.number - newHead.number].hash != fork.newChain[0].hash;
    }
  }

  lemma DroppedLogs(hs: Headers, bodies: Bodies, receipts: Receipts, oldHead: Header, newHead: Header,
                    fork: ForkPoint, idx: Index)
    requires WellKeyed(hs) && Canonical(hs, idx, oldHead) && MeetsAt(hs, bodies, oldHead, newHead, fork)
    ensures Ascending(receipts, fork.oldChain, 0) ==
            Segment(receipts, idx, fork.common.number + 1, oldHead.number + 1)
  {
    ForkHeights(hs, bodies, idx, oldHead, newHead, fork);
    AscendingIsSegment(receipts, fork.oldChain, 0, idx, fork.common.number + 1);
  }

  lemma DroppedHashes(hs: Headers, bodies: Bodies, oldHead: Header, newHead: Header, fork: ForkPoint, idx: Index)
    requires WellKeyed(hs) && Canonical(hs, idx, oldHead) && MeetsAt(hs, bodies, oldHead, newHead, fork)
    ensures Upward(fork.oldChain, 0) == HashesUp(idx, fork.common.number + 1, oldHead.number + 1)
  {
    ForkHeights(hs, bodies, idx, oldHead, newHead, fork);
    UpwardIsHashes(fork.oldChain, 0, idx, fork.common.number + 1);
  }

  /** The entry of a height once the head is in. */
  function EntryAt(idx: Index, head: Header, n: nat): Option<Hash> {
    if n == head.number then Some(head.hash) else if n in idx then Some(idx[n]) else None
  }

  /** The chains part right above the common block. */
  lemma ForkParts(hs: Headers, bodies: Bodies, oldHead: Header, newHead: Header, fork: ForkPoint, idx0: Index, idx2: Index)
    requires WellKeyed(hs) && Canonical(hs, idx0, oldHead) && MeetsAt(hs, bodies, oldHead, newHead, fork)
    requires Canonical(hs, idx2, Base(fork))
    ensures fork.common.number < oldHead.number ==>
      EntryAt(idx2, newHead, fork.common.number + 1) != Some(idx0[fork.common.number + 1])
  {
    ForkHeights(hs, bodies, idx0, oldHead, newHead, fork);
    NewChainOnIndex(hs, bodies, oldHead, newHead, fork, idx2);
    var c, o, n := fork.common.number, |fork.oldChain| - 1, |fork.newChain| - 1;
    if o >= 0 {
      assert idx0[c + 1] == fork.oldChain[o].hash;
      if n >= 0 {
        assert fork.oldChain[o].hash != fork.newChain[n].hash;
        assert EntryAt(idx2, newHead, c + 1) == Some(fork.newChain[n].hash);
      }
    }
  }

  lemma RebornLogs(hs: Headers, bodies: Bodies, receipts: Receipts, oldHead: Header, newHead: Header,
                   fork: ForkPoint, idx: Index)
    requires WellKeyed(hs) && MeetsAt(hs, bodies, oldHead, newHead, fork) && Canonical(hs, idx, Base(fork))
    ensures Ascending(receipts, fork.newChain, 1) ==
            Segment(receipts, idx, fork.common.number + 1, Base(fork).number + 1)
  {
    NewChainOnIndex(hs, bodies, oldHead, newHead, fork, idx);
    var q := fork.newChain + [fork.common];
    assert q[|fork.newChain|] == fork.common;
    if |fork.newChain| > 0 {
      AscendingIsSegment(receipts, fork.newChain, 1, idx, fork.common.number + 1);
      assert |fork.newChain| > 1 ==> q[1] == Base(fork);
    }
  }

  /** The lookup index after a whole reorganisation. */
  lemma ReorgLookup(hs: Headers, bodies: Bodies, oldHead: Header, newHead: Header, fork: ForkPoint,
                    idx0: Index, idx2: Index, lookup0: Lookup, lookup1: Lookup)
    requires WellKeyed(hs) && Canonical(hs, idx0, oldHead) && MeetsAt(hs, bodies, oldHead, newHead, fork)
    requires Canonical(hs, idx2, Base(fork)) && AgreesUpTo(idx0, idx2, fork.common.number)
    requires LookupExact(bodies, idx0, lookup0, oldHead.number)
    requires Entered(bodies, lookup0, lookup1, fork.newChain, 1)
    requires NoRepeatsUpTo(bodies, idx2, Base(fork).number)
    ensures LookupExact(bodies, idx2, lookup1 - (TxSet(fork.deletedTxs) - TxsFrom(bodies, fork.newChain, 1)),
                        Base(fork).number)
  {
    ReorgMoves(hs, bodies, oldHead, newHead, fork, idx0, idx2);
    var added := TxsFrom(bodies, fork.newChain, 1);
    forall t: TxHash | t in added
      ensures t in lookup1 && fork.common.number < lookup1[t] <= Base(fork).number && Carries(bodies, idx2, lookup1[t], t)
    {
      assert EnteredAt(bodies, lookup0, lookup1, fork.newChain, 1, t);
      var i :| 1 <= i < |fork.newChain| && t in Body(bodies, fork.newChain[i].hash) && lookup1[t] == fork.newChain[i].number;
    }
    forall t: TxHash | t !in added
      ensures (t in lookup1 <==> t in lookup0) && (t in lookup0 ==> lookup1[t] == lookup0[t])
    {
      assert EnteredAt(bodies, lookup0, lookup1, fork.newChain, 1, t);
    }
    LookupMoves(bodies, idx0, oldHead.number, idx2, Base(fork).number, fork.common.number,
                TxSet(fork.deletedTxs), added, lookup0, lookup1);
  }

  /** Which heights the index holds once the new chain is in it. */
  lemma InsertedHeights(hs: Headers, bodies: Bodies, oldHead: Header, newHead: Header, fork: ForkPoint, idx0: Index, idx1: Index)
    requires WellKeyed(hs) && Canonical(hs, idx0, oldHead) && MeetsAt(hs, bodies, oldHead, newHead, fork)
    requires if |fork.newChain| > 0 then Switched(idx0, idx1, fork, 1) else idx1 == idx0
    ensures forall n: nat :: n in idx1 <==> n <= Max(Base(fork).number, oldHead.number)
  {
    ForkHeights(hs, bodies, idx0, oldHead, newHead, fork);
  }

  /** Both indexes after a whole reorganisation. */
  lemma ReorgBoth(hs: Headers, bodies: Bodies, oldHead: Header, newHead: Header, fork: ForkPoint,
                  idx0: Index, idx1: Index, idx2: Index, lookup0: Lookup, lookup1: Lookup)
    requires WellKeyed(hs) && Canonical(hs, idx0, oldHead) && MeetsAt(hs, bodies, oldHead, newHead, fork)
    requires if |fork.newChain| > 0 then Switched(idx0, idx1, fork, 1) else idx1 == idx0
    requires Entered(bodies, lookup0, lookup1, fork.newChain, 1)
    requires forall n: nat :: n in idx2 <==> n <= Base(fork).number
    requires forall n: nat :: n <= Base(fork).number && n in idx1 ==> idx2[n] == idx1[n]
    ensures Canonical(hs, idx2, Base(fork)) && AgreesUpTo(idx0, idx2, fork.common.number)
    ensures LookupExact(bodies, idx0, lookup0, oldHead.number) && NoRepeatsUpTo(bodies, idx2, Base(fork).number) ==>
      LookupExact(bodies, idx2, lookup1 - (TxSet(fork.deletedTxs) - TxsFrom(bodies, fork.newChain, 1)), Base(fork).number)
  {
    ReorgIndex(hs, bodies, oldHead, newHead, fork, idx0, idx1, idx2);
    if LookupExact(bodies, idx0, lookup0, oldHead.number) && NoRepeatsUpTo(bodies, idx2, Base(fork).number) {
      ReorgLookup(hs, bodies, oldHead, newHead, fork, idx0, idx2, lookup0, lookup1);
    }
  }

  lemma {:induction false} AncestorKept(hs: Headers, hs': Headers, h: Hash, k: nat)
    requires forall g <- hs :: g in hs' && hs'[g] == hs[g]
    requires Ancestor(hs, h, k).Some?
    ensures Ancestor(hs', h, k) == Ancestor(hs, h, k)
    decreases k
  {
    if k > 0 {
      AncestorKept(hs, hs', hs[h].parent, k - 1);
    }
  }

  /** A chain that repeats no transaction in a larger store repeats none in a smaller one. */
  lemma NoRepeatsBefore(hs: Headers, bodies: Bodies, hs': Headers, bodies': Bodies, head: Header)
    requires WellKeyed(hs) && forall g <- hs :: g in hs' && hs'[g] == hs[g] && Body(bodies', g) == Body(bodies, g)
    requires NoRepeats(hs', bodies', head)
    ensures NoRepeats(hs, bodies, head)
  {
    forall t: TxHash, n: nat | n <= head.number && OnChain(hs, bodies, head, n, t)
      ensures OnChain(hs', bodies', head, n, t)
    {
      AncestorKept(hs, hs', head.hash, head.number - n);
      AncestorStored(hs, head.hash, head.number - n);
    }
  }

  /** Storing the body of a block that was not stored changes no canonical body. */
  lemma LookupKept(hs: Headers, bodies: Bodies, idx: Index, head: Header, lookup: Lookup, h: Hash, txs: seq<TxHash>)
    requires Canonical(hs, idx, head) && LookupExact(bodies, idx, lookup, head.number)
    requires h in hs ==> h in bodies && bodies[h] == txs
    ensures LookupExact(bodies[h := txs], idx, lookup, head.number)
  {
    var bodies' := bodies[h := txs];
    forall n: nat, t: TxHash | n <= head.number
      ensures Carries(bodies, idx, n, t) <==> Carries(bodies', idx, n, t)
    {
      assert idx[n] in hs;
    }
    assert LookupExact(bodies', idx, lookup, head.number);
  }

  /** Storing a further block, or the same block again, disturbs nothing canonical. */
  lemma BlockStored(hs: Headers, bodies: Bodies, receipts: Receipts, idx: Index, lookup: Lookup, head: Header,
                    block: Header, txs: seq<TxHash>, logs: seq<Log>)
    requires Complete(hs, bodies) && Canonical(hs, idx, head) && block.hash != ZERO_HASH
    requires block.parent in hs && hs[block.parent].number + 1 == block.number
    requires block.hash in hs ==>
      hs[block.hash] == block && block.hash in bodies && bodies[block.hash] == txs && LogsOf(receipts, block.hash) == logs
    ensures Complete(hs[block.hash := block], bodies[block.hash := txs])
    ensures Canonical(hs[block.hash := block], idx, head)
    ensures Segment(receipts, idx, 0, head.number + 1) ==
            Segment(receipts[block.hash := logs], idx, 0, head.number + 1)
    ensures LookupExact(bodies, idx, lookup, head.number) ==> LookupExact(bodies[block.hash := txs], idx, lookup, head.number)
  {
    if LookupExact(bodies, idx, lookup, head.number) {
      LookupKept(hs, bodies, idx, head, lookup, block.hash, txs);
    }
    TreeGrows(hs, block);
    CanonicalGrows(hs, hs[block.hash := block], idx, head);
    SegmentKept(receipts, receipts[block.hash := logs], idx, head.number + 1);
  }
}
