/** Maintenance of the canonical chain: the number-to-hash index, the transaction lookup
    index, the head markers and the log feeds, as blocks become the head. */
module BlockChain {
  import opened Arithmetic
  import opened Wrappers
  import opened BlockTree
  import opened Fork
  import opened Logs
  import opened Reorg

  /** `kept` is the height up to which the old and the new canonical chain agree. */
  datatype Status = Done(kept: nat) | Failure(error: ChainError)

  datatype Operation =
    | Import(block: Header, txs: seq<TxHash>, logs: seq<Log>, committed: bool)
    | Canonicalise(block: Header, stateReady: bool)
    | Known(block: Header)

  /** The blocks, the index and the head at one moment. */
  datatype View = View(headers: Headers, bodies: Bodies, receipts: Receipts, canonical: Index, head: Header)

  predicate Has(v: View, block: Header) {
    Stored(v.headers, block) && block.hash in v.bodies
  }

  /** A block whose content matches what is stored under its hash, if anything, and which sits
      on a stored parent. */
  predicate Fits(v: View, block: Header, txs: seq<TxHash>, logs: seq<Log>) {
    && block.hash != ZERO_HASH
    && block.parent in v.headers && v.headers[block.parent].number + 1 == block.number
    && (block.hash in v.headers ==>
          v.headers[block.hash] == block && block.hash in v.bodies && v.bodies[block.hash] == txs
          && LogsOf(v.receipts, block.hash) == logs)
  }

  /** The operation makes its block the head. */
  predicate Takes(v: View, op: Operation) {
    match op
    case Import(block, txs, logs, committed) => Fits(v, block, txs, logs) && committed
    case Canonicalise(block, stateReady) => Has(v, block) && stateReady
    case Known(block) => Has(v, block)
  }

  /** The blocks once the operation has stored its block, which it does even if the state is not
      committed. */
  function StoredBy(v: View, op: Operation): View {
    if op.Import? && Fits(v, op.block, op.txs, op.logs)
    then v.(headers := v.headers[op.block.hash := op.block], bodies := v.bodies[op.block.hash := op.txs],
            receipts := v.receipts[op.block.hash := op.logs])
    else v
  }

  /** The operation brings its head's logs to a listener exactly once. */
  predicate Once(v: View, op: Operation) {
    LogsOf(StoredBy(v, op).receipts, op.block.hash) == [] || (op.Known? <==> OnIndex(v.canonical, op.block))
  }

  ghost function LogsIn(v: View): seq<Log>
    requires Canonical(v.headers, v.canonical, v.head)
  {
    Segment(v.receipts, v.canonical, 0, v.head.number + 1)
  }

  /** What was sent on the feeds so far: removed logs, new logs, and blocks that left the chain. */
  datatype Feeds = Feeds(removed: seq<seq<Log>>, sent: seq<seq<Log>>, side: seq<Hash>)

  /** The two chains agree up to `kept` and no further. */
  ghost predicate PartAt(was: View, now: View, kept: nat)
    requires Canonical(was.headers, was.canonical, was.head) && Canonical(now.headers, now.canonical, now.head)
  {
    && kept <= was.head.number && kept <= now.head.number && AgreesUpTo(was.canonical, now.canonical, kept)
    && (kept < was.head.number && kept < now.head.number ==> was.canonical[kept + 1] != now.canonical[kept + 1])
  }

  /** The head moved, the old and the new chain parting above `kept`; the old blocks above it and the logs
      that lie there on either side, all but those of the new head, were sent. */
  ghost predicate Moves(was: View, now: View, kept: nat, f0: Feeds, f: Feeds)
    requires Canonical(was.headers, was.canonical, was.head) && Canonical(now.headers, now.canonical, now.head)
  {
    && PartAt(was, now, kept)
    && (kept == now.head.number <==> OnIndex(was.canonical, now.head))
    && Sent(f0.removed, f.removed, Segment(now.receipts, was.canonical, kept + 1, was.head.number + 1))
    && Sent(f0.sent, f.sent, Segment(now.receipts, now.canonical, kept + 1, now.head.number))
    && f.side == f0.side + HashesUp(was.canonical, kept + 1, was.head.number + 1)
  }

  /** The index ends at the parent of `block`, or at `block` itself if it was canonical, and the logs
      above `kept` on either side were sent. */
  ghost predicate Prepared(was: View, idx: Index, base: Header, block: Header, kept: nat, f0: Feeds, f: Feeds)
    requires Canonical(was.headers, was.canonical, was.head) && Canonical(was.headers, idx, base)
  {
    && (base == block || (block.parent == base.hash && block.number == base.number + 1))
    && (base == block <==> OnIndex(was.canonical, block))
    && kept <= was.head.number && kept <= base.number
    && (base == block ==> kept == block.number)
    && AgreesUpTo(was.canonical, idx, kept)
    && (kept < was.head.number ==> EntryAt(idx, block, kept + 1) != Some(was.canonical[kept + 1]))
    && Sent(f0.removed, f.removed, Segment(was.receipts, was.canonical, kept + 1, was.head.number + 1))
    && Sent(f0.sent, f.sent, Segment(was.receipts, idx, kept + 1, base.number + 1))
    && f.side == f0.side + HashesUp(was.canonical, kept + 1, was.head.number + 1)
  }

  /** Entering the head then moves it. */
  lemma PreparedMoves(was: View, now: View, idx: Index, base: Header, kept: nat, f0: Feeds, f: Feeds)
    requires Canonical(was.headers, was.canonical, was.head) && Canonical(was.headers, idx, base)
    requires Canonical(now.headers, now.canonical, now.head) && now.receipts == was.receipts
    requires Prepared(was, idx, base, now.head, kept, f0, f)
    requires AgreesUpTo(idx, now.canonical, base.number)
    ensures Moves(was, now, kept, f0, f)
  {
    SegmentAgrees(was.receipts, idx, now.canonical, kept + 1, now.head.number);
  }

  /** What the feeds carried when the head moved: the blocks above `kept` in order, well-sized batches of logs
      with the head's own ones, if any, last; and whether a listener that follows the logs ends up right. */
  ghost predicate Announced(was: View, now: View, kept: nat, f0: Feeds, f: Feeds, headLogs: seq<Log>, once: bool)
    requires Canonical(was.headers, was.canonical, was.head) && Canonical(now.headers, now.canonical, now.head)
  {
    && PartAt(was, now, kept) && f.side == f0.side + HashesUp(was.canonical, kept + 1, was.head.number + 1)
    && Batched(f0.removed, f.removed, []) && Batched(f0.sent, f.sent, headLogs)
    && (Replays(LogsIn(was), Flatten(f.removed[|f0.removed|..]), Flatten(f.sent[|f0.sent|..]), LogsIn(now)) <==> once)
  }

  /** Storing the block first makes no difference to that. */
  lemma AnnouncedSince(v: View, was: View, now: View, kept: nat, f0: Feeds, f: Feeds, headLogs: seq<Log>, once: bool)
    requires Canonical(v.headers, v.canonical, v.head) && Canonical(was.headers, was.canonical, was.head)
    requires Canonical(now.headers, now.canonical, now.head) && Announced(was, now, kept, f0, f, headLogs, once)
    requires v.canonical == was.canonical && v.head == was.head && LogsIn(v) == LogsIn(was)
    ensures Announced(v, now, kept, f0, f, headLogs, once)
  {
  }

  /** Announcing the new head's logs too completes the stream, exactly unless they were sent before. */
  lemma SwitchStream(was: View, now: View, kept: nat, f0: Feeds, f: Feeds)
    requires Canonical(was.headers, was.canonical, was.head) && Canonical(now.headers, now.canonical, now.head)
    requires was.receipts == now.receipts && Moves(was, now, kept, f0, f)
    ensures var logs := LogsOf(now.receipts, now.head.hash);
      Announced(was, now, kept, f0, f.(sent := WithHead(f.sent, logs)), logs, !OnIndex(was.canonical, now.head) || logs == [])
  {
    assert now.canonical[now.head.number] == now.head.hash;
    HeadStream(now.receipts, was.canonical, was.head.number, now.canonical, now.head.number, kept,
               f0.removed, f.removed, f0.sent, f.sent);
    BatchedWithHead(f0.sent, f.sent, LogsOf(now.receipts, now.head.hash));
  }

  /** Without them it is complete exactly if they were sent before or there are none. */
  lemma AdoptStream(was: View, now: View, kept: nat, f0: Feeds, f: Feeds)
    requires Canonical(was.headers, was.canonical, was.head) && Canonical(now.headers, now.canonical, now.head)
    requires was.receipts == now.receipts && Moves(was, now, kept, f0, f)
    ensures Announced(was, now, kept, f0, f, [], OnIndex(was.canonical, now.head) || LogsOf(now.receipts, now.head.hash) == [])
  {
    assert now.canonical[now.head.number] == now.head.hash;
    QuietFeeds(now.receipts, was.canonical, was.head.number, now.canonical, now.head.number, kept,
               f0.removed, f.removed, f0.sent, f.sent);
  }

  /** One operation of a run and what it sent on the feeds; `kept` is where the chains part. */
  datatype Moment = Moment(before: View, op: Operation, kept: nat, removed: seq<Log>, added: seq<Log>, side: seq<Hash>, after: View)

  /** The record of an operation between two moments. */
  ghost function Recorded(before: View, op: Operation, r: Status, f0: Feeds, f: Feeds, after: View): Moment
    requires |f0.removed| <= |f.removed| && |f0.sent| <= |f.sent| && |f0.side| <= |f.side|
  {
    Moment(before, op, if r.Done? then r.kept else 0, Flatten(f.removed[|f0.removed|..]), Flatten(f.sent[|f0.sent|..]),
           f.side[|f0.side|..], after)
  }

  lemma TailOf(feed: seq<Hash>, side: seq<Hash>)
    ensures (feed + side)[|feed|..] == side
  {
  }

  lemma SideContinues(feed: seq<Hash>, a: seq<Hash>, b: seq<Hash>)
    ensures feed + a + b == feed + (a + b)
  {
  }

  /** What the operation does: it stores its block; if it takes, that block is the head with its
      ancestor index, and the logs sent turn the old chain's into the new one's exactly if the head's
      reach the listener once; otherwise nothing else changes. */
  ghost predicate Happens(m: Moment) {
    && Canonical(m.before.headers, m.before.canonical, m.before.head)
    && Canonical(m.after.headers, m.after.canonical, m.after.head)
    && m.after == StoredBy(m.before, m.op).(canonical := m.after.canonical, head := m.after.head)
    && if Takes(m.before, m.op)
       then m.after.head == m.op.block && PartAt(m.before, m.after, m.kept)
            && m.side == HashesUp(m.before.canonical, m.kept + 1, m.before.head.number + 1)
            && (Replays(LogsIn(m.before), m.removed, m.added, LogsIn(m.after)) <==> Once(m.before, m.op))
       else m.after.canonical == m.before.canonical && m.after.head == m.before.head
            && LogsIn(m.after) == LogsIn(m.before) && m.removed == [] && m.added == [] && m.side == []
  }

  /** The record of an operation that takes. */
  lemma TakenHappens(before: View, op: Operation, r: Status, f0: Feeds, f: Feeds, headLogs: seq<Log>, after: View)
    requires Canonical(before.headers, before.canonical, before.head) && Canonical(after.headers, after.canonical, after.head)
    requires after == StoredBy(before, op).(canonical := after.canonical, head := op.block)
    requires Takes(before, op) && r.Done? && Announced(before, after, r.kept, f0, f, headLogs, Once(before, op))
    ensures var m := Recorded(before, op, r, f0, f, after);
      Happens(m) && f.side == f0.side + m.side
  {
    TailOf(f0.side, HashesUp(before.canonical, r.kept + 1, before.head.number + 1));
  }

  /** And of one that does not. */
  lemma SkippedHappens(before: View, op: Operation, r: Status, f: Feeds, after: View)
    requires Canonical(before.headers, before.canonical, before.head) && Canonical(after.headers, after.canonical, after.head)
    requires after == StoredBy(before, op).(canonical := before.canonical, head := before.head)
    requires !Takes(before, op) && LogsIn(after) == LogsIn(before)
    ensures Happens(Recorded(before, op, r, f, f, after))
  {
    assert f.removed[|f.removed|..] == [] && f.sent[|f.sent|..] == [] && f.side[|f.side|..] == [];
  }

  /** The operations of a run, each from where the last one ended. */
  ghost predicate Trace(start: View, ops: seq<Operation>, trace: seq<Moment>, end: View) {
    && |trace| == |ops|
    && if |trace| == 0 then end == start
       else
         var n := |trace| - 1;
         trace[n].op == ops[n] && Happens(trace[n]) && trace[n].after == end && Trace(start, ops[..n], trace[..n], trace[n].before)
  }

  /** What a listener holds that starts with `held` and follows the feeds. */
  ghost function Listened(held: seq<Log>, trace: seq<Moment>): seq<Log> {
    if |trace| == 0 then held
    else
      var last := trace[|trace| - 1];
      Listen(Listened(held, trace[..|trace| - 1]), last.removed, last.added)
  }

  ghost function RemovedIn(trace: seq<Moment>): seq<Log> {
    if |trace| == 0 then [] else RemovedIn(trace[..|trace| - 1]) + trace[|trace| - 1].removed
  }

  ghost function AddedIn(trace: seq<Moment>): seq<Log> {
    if |trace| == 0 then [] else AddedIn(trace[..|trace| - 1]) + trace[|trace| - 1].added
  }

  ghost function SideIn(trace: seq<Moment>): seq<Hash> {
    if |trace| == 0 then [] else SideIn(trace[..|trace| - 1]) + trace[|trace| - 1].side
  }

  predicate ReachesOnce(m: Moment) {
    Takes(m.before, m.op) ==> Once(m.before, m.op)
  }

  /** Every new head's logs reached the listener exactly once. */
  ghost predicate AllOnce(trace: seq<Moment>) {
    forall i :: 0 <= i < |trace| ==> ReachesOnce(trace[i])
  }

  lemma TraceGrows(start: View, ops: seq<Operation>, i: nat, trace: seq<Moment>, m: Moment)
    requires i < |ops| && Trace(start, ops[..i], trace, m.before) && Happens(m) && m.op == ops[i]
    ensures Trace(start, ops[..i + 1], trace + [m], m.after)
  {
    assert (trace + [m])[..|trace|] == trace && ops[..i + 1][..i] == ops[..i];
  }

  lemma FeedsGrow(trace: seq<Moment>, m: Moment)
    ensures RemovedIn(trace + [m]) == RemovedIn(trace) + m.removed && AddedIn(trace + [m]) == AddedIn(trace) + m.added
    ensures SideIn(trace + [m]) == SideIn(trace) + m.side
  {
    assert (trace + [m])[..|trace|] == trace;
  }

  lemma MomentFollows(m: Moment)
    requires Happens(m) && ReachesOnce(m)
    ensures Listen(LogsIn(m.before), m.removed, m.added) == LogsIn(m.after)
  {
    if Takes(m.before, m.op) {
      ReplaysConserves(LogsIn(m.before), m.removed, m.added, LogsIn(m.after));
    }
  }

  /** A listener that every new head's logs reached once holds the logs of the chain. */
  lemma {:induction false} ListenerFollows(start: View, ops: seq<Operation>, trace: seq<Moment>, end: View)
    requires Canonical(start.headers, start.canonical, start.head) && Trace(start, ops, trace, end) && AllOnce(trace)
    ensures Canonical(end.headers, end.canonical, end.head) && Listened(LogsIn(start), trace) == LogsIn(end)
    decreases |trace|
  {
    if |trace| > 0 {
      var n := |trace| - 1;
      ListenerFollows(start, ops[..n], trace[..n], trace[n].before);
      MomentFollows(trace[n]);
    }
  }

  /** No stored block's chain repeats a transaction. */
  ghost predicate NoneRepeats(hs: Headers, bodies: Bodies) {
    forall b :: Stored(hs, b) ==> NoRepeats(hs, bodies, b)
  }

  lemma NoneRepeatedBefore(v: View, op: Operation)
    requires WellKeyed(v.headers) && NoneRepeats(StoredBy(v, op).headers, StoredBy(v, op).bodies)
    ensures NoneRepeats(v.headers, v.bodies)
  {
    var w := StoredBy(v, op);
    forall b | Stored(v.headers, b) ensures NoRepeats(v.headers, v.bodies, b) {
      assert Stored(w.headers, b);
      NoRepeatsBefore(v.headers, v.bodies, w.headers, w.bodies, b);
    }
  }

  class BlockChain {
    // database: blocks
    var headers: Headers
    var bodies: Bodies
    var receipts: Receipts
    // database: indexes and markers
    var canonical: Index
    var txLookup: Lookup
    var headHeaderHash: Hash
    var headFastBlockHash: Hash
    var headBlockHash: Hash
    // in-memory markers
    var currentHeader: Header
    var currentSnapBlock: Header
    var currentBlock: Header
    // feeds, as the values sent so far
    var removedLogsFeed: seq<seq<Log>>
    var logsFeed: seq<seq<Log>>
    var chainSideFeed: seq<Hash>

    /** A chain that holds only its genesis block, which has neither transactions nor logs. */
    constructor (genesis: Header)
      requires genesis.number == 0 && genesis.parent == ZERO_HASH && genesis.hash != ZERO_HASH
      ensures Steady() && Complete(headers, bodies) && TxsIndexed()
      ensures Now() == View(map[genesis.hash := genesis], map[genesis.hash := []], map[genesis.hash := []],
                            map[0 := genesis.hash], genesis)
    {
      headers, bodies, receipts := map[genesis.hash := genesis], map[genesis.hash := []], map[genesis.hash := []];
      canonical, txLookup := map[0 := genesis.hash], map[];
      headHeaderHash, headFastBlockHash, headBlockHash := genesis.hash, genesis.hash, genesis.hash;
      currentHeader, currentSnapBlock, currentBlock := genesis, genesis, genesis;
      removedLogsFeed, logsFeed, chainSideFeed := [], [], [];
    }

    ghost function Out(): Feeds
      reads this`removedLogsFeed, this`logsFeed, this`chainSideFeed
    {
      Feeds(removedLogsFeed, logsFeed, chainSideFeed)
    }

    ghost predicate MarkersAt(head: Header)
      reads this`currentBlock, this`currentHeader, this`currentSnapBlock, this`headBlockHash, this`headHeaderHash, this`headFastBlockHash
    {
      && currentBlock == head && currentHeader == head && currentSnapBlock == head
      && headBlockHash == head.hash && headHeaderHash == head.hash && headFastBlockHash == head.hash
    }

    /** The steady state: header head and block head agree and the index is their chain. */
    ghost predicate Steady()
      reads this`headers, this`canonical, this`currentBlock, this`currentHeader, this`currentSnapBlock, this`headBlockHash, this`headHeaderHash, this`headFastBlockHash
    {
      && ValidTree(headers)
      && Canonical(headers, canonical, currentBlock)
      && MarkersAt(currentBlock)
    }

    ghost predicate StoredBlock(block: Header)
      reads this`headers, this`bodies
    {
      Stored(headers, block) && block.hash in bodies
    }

    ghost predicate TxsIndexed()
      reads this`bodies, this`canonical, this`txLookup, this`currentBlock
    {
      LookupExact(bodies, canonical, txLookup, currentBlock.number)
    }

    /** All logs of the canonical chain, in chain order. */
    ghost function ChainLogs(): seq<Log>
      reads this`headers, this`receipts, this`canonical, this`currentBlock
      requires Canonical(headers, canonical, currentBlock)
    {
      Segment(receipts, canonical, 0, currentBlock.number + 1)
    }

    /** Makes `block` the head: one batch of index and marker writes, then the in-memory markers. */
    method WriteHeadBlock(block: Header)
      modifies this`canonical, this`txLookup, this`headHeaderHash, this`headFastBlockHash, this`headBlockHash,
               this`currentHeader, this`currentSnapBlock, this`currentBlock
      ensures canonical == old(canonical)[block.number := block.hash]
      ensures txLookup == old(txLookup) + (map t | t in Body(bodies, block.hash) :: block.number)
      ensures MarkersAt(block)
    {
      headHeaderHash, headFastBlockHash := block.hash, block.hash;
      canonical := canonical[block.number := block.hash];
      txLookup := txLookup + (map t | t in Body(bodies, block.hash) :: block.number);
      headBlockHash := block.hash;
      currentHeader, currentSnapBlock, currentBlock := block, block, block;
    }

    /** Inserts the new chain, lowest block first and without its head. */
    method InsertNewChain(fork: ForkPoint) returns (addedTxs: set<TxHash>)
      requires forall i :: 0 <= i < |fork.newChain| ==>
        fork.newChain[i].number == fork.common.number + |fork.newChain| - i
      modifies this`canonical, this`txLookup, this`headHeaderHash, this`headFastBlockHash, this`headBlockHash,
               this`currentHeader, this`currentSnapBlock, this`currentBlock
      ensures |fork.newChain| > 0 ==> Switched(old(canonical), canonical, fork, 1)
      ensures |fork.newChain| == 0 ==> canonical == old(canonical)
      ensures Entered(bodies, old(txLookup), txLookup, fork.newChain, 1)
      ensures addedTxs == TxsFrom(bodies, fork.newChain, 1)
    {
      addedTxs := {};
      var i := |fork.newChain|;
      while i > 1
        invariant 0 <= i <= |fork.newChain|
        invariant i >= 1 || |fork.newChain| == 0
        invariant Switched(old(canonical), canonical, fork, i)
        invariant Entered(bodies, old(txLookup), txLookup, fork.newChain, i)
        invariant addedTxs == TxsFrom(bodies, fork.newChain, i)
      {
        i := i - 1;
        var block := fork.newChain[i];
        ghost var beforeIndex, before := canonical, txLookup;
        WriteHeadBlock(block);
        SwitchOneMore(old(canonical), beforeIndex, fork, i);
        EnterOneMore(bodies, old(txLookup), before, txLookup, fork.newChain, i);
        TxsFromNext(bodies, fork.newChain, i);
        addedTxs := addedTxs + (set t | t in Body(bodies, block.hash));
      }
      if |fork.newChain| == 0 {
        forall t: TxHash ensures EnteredAt(bodies, old(txLookup), txLookup, fork.newChain, 1, t) {
          assert EnteredAt(bodies, old(txLookup), txLookup, fork.newChain, 0, t);
        }
      }
    }

    /** Deletes stale lookup entries and every index entry above `number`, in one batch. The
        scan reads the index as it was before the batch. */
    method DeleteStale(number: nat, stale: set<TxHash>, ghost top: nat)
      requires number <= top && forall n: nat :: n in canonical <==> n <= top
      modifies this`canonical, this`txLookup
      ensures txLookup == old(txLookup) - stale
      ensures forall n: nat :: n in canonical <==> n <= number
      ensures forall n: nat :: n <= number ==> canonical[n] == old(canonical)[n]
    {
      var deleted: set<nat> := {};
      var i := number + 1;
      while i in canonical
        invariant number < i <= top + 1
        invariant forall n: nat :: n in deleted <==> number < n < i
        decreases top + 1 - i
      {
        deleted := deleted + {i};
        i := i + 1;
      }
      txLookup := txLookup - stale;
      canonical := canonical - deleted;
    }

    /** Applies a found fork to both indexes. */
    method MoveIndexes(oldHead: Header, newHead: Header, fork: ForkPoint)
      requires WellKeyed(headers) && Canonical(headers, canonical, oldHead)
      requires MeetsAt(headers, bodies, oldHead, newHead, fork)
      modifies this`canonical, this`txLookup, this`headHeaderHash, this`headFastBlockHash, this`headBlockHash,
               this`currentHeader, this`currentSnapBlock, this`currentBlock
      ensures Canonical(headers, canonical, Base(fork))
      ensures AgreesUpTo(old(canonical), canonical, fork.common.number)
      ensures LookupExact(bodies, old(canonical), old(txLookup), oldHead.number)
              && NoRepeatsUpTo(bodies, canonical, Base(fork).number)
              ==> LookupExact(bodies, canonical, txLookup, Base(fork).number)
    {
      ForkHeights(headers, bodies, canonical, oldHead, newHead, fork);
      var addedTxs := InsertNewChain(fork);
      ghost var inserted, entered := canonical, txLookup;
      InsertedHeights(headers, bodies, oldHead, newHead, fork, old(canonical), canonical);
      var number := if |fork.newChain| > 1 then fork.newChain[1].number else fork.common.number;
      DeleteStale(number, TxSet(fork.deletedTxs) - addedTxs, Max(number, oldHead.number));
      ReorgBoth(headers, bodies, oldHead, newHead, fork, old(canonical), inserted, canonical, old(txLookup), entered);
    }

    /** Announces dropped blocks and their logs, then the logs of the new chain below its head. */
    method EmitReorgEvents(fork: ForkPoint)
      modifies this`removedLogsFeed, this`logsFeed, this`chainSideFeed
      ensures Sent(old(removedLogsFeed), removedLogsFeed, Ascending(receipts, fork.oldChain, 0))
      ensures Sent(old(logsFeed), logsFeed, Ascending(receipts, fork.newChain, 1))
      ensures chainSideFeed == old(chainSideFeed) + Upward(fork.oldChain, 0)
    {
      for i := |fork.oldChain| downto 0
        invariant removedLogsFeed == old(removedLogsFeed) && logsFeed == old(logsFeed)
        invariant chainSideFeed == old(chainSideFeed) + Upward(fork.oldChain, i)
      {
        chainSideFeed := chainSideFeed + [fork.oldChain[i].hash];
      }
      var removed := Batch(receipts, fork.oldChain, 0);
      removedLogsFeed := removedLogsFeed + removed;
      assert removedLogsFeed[|old(removedLogsFeed)|..] == removed;
      var reborn := Batch(receipts, fork.newChain, 1);
      logsFeed := logsFeed + reborn;
      assert logsFeed[|old(logsFeed)|..] == reborn;
    }

    /** The announcements in terms of the old and the new index. */
    method AnnounceFork(oldHead: Header, newHead: Header, fork: ForkPoint, ghost was: Index)
      requires WellKeyed(headers) && MeetsAt(headers, bodies, oldHead, newHead, fork)
      requires Canonical(headers, was, oldHead) && Canonical(headers, canonical, Base(fork))
      modifies this`removedLogsFeed, this`logsFeed, this`chainSideFeed
      ensures Sent(old(removedLogsFeed), removedLogsFeed,
                   Segment(receipts, was, fork.common.number + 1, oldHead.number + 1))
      ensures Sent(old(logsFeed), logsFeed,
                   Segment(receipts, canonical, fork.common.number + 1, Base(fork).number + 1))
      ensures fork.common.number <= oldHead.number
      ensures chainSideFeed == old(chainSideFeed) + HashesUp(was, fork.common.number + 1, oldHead.number + 1)
    {
      ForkHeights(headers, bodies, was, oldHead, newHead, fork);
      DroppedHashes(headers, bodies, oldHead, newHead, fork, was);
      DroppedLogs(headers, bodies, receipts, oldHead, newHead, fork, was);
      RebornLogs(headers, bodies, receipts, oldHead, newHead, fork, canonical);
      EmitReorgEvents(fork);
    }

    /** Everything a reorganisation does once the fork is known. */
    method ApplyFork(oldHead: Header, newHead: Header, fork: ForkPoint)
      requires Steady() && oldHead == currentBlock && MeetsAt(headers, bodies, oldHead, newHead, fork)
      modifies this
      ensures headers == old(headers) && bodies == old(bodies) && receipts == old(receipts)
      ensures fork.common.number <= oldHead.number && fork.common.number <= Base(fork).number
      ensures Canonical(headers, canonical, Base(fork))
      ensures AgreesUpTo(old(canonical), canonical, fork.common.number)
      ensures old(TxsIndexed()) && NoRepeatsUpTo(bodies, canonical, Base(fork).number) ==>
        LookupExact(bodies, canonical, txLookup, Base(fork).number)
      ensures Sent(old(removedLogsFeed), removedLogsFeed,
                   Segment(receipts, old(canonical), fork.common.number + 1, oldHead.number + 1))
      ensures Sent(old(logsFeed), logsFeed,
                   Segment(receipts, canonical, fork.common.number + 1, Base(fork).number + 1))
      ensures chainSideFeed == old(chainSideFeed) + HashesUp(old(canonical), fork.common.number + 1, oldHead.number + 1)
      ensures fork.common.number < oldHead.number ==>
        EntryAt(canonical, newHead, fork.common.number + 1) != Some(old(canonical)[fork.common.number + 1])
    {
      MoveIndexes(oldHead, newHead, fork);
      HeadWasCanonical(headers, bodies, oldHead, newHead, fork, old(canonical));
      ForkParts(headers, bodies, oldHead, newHead, fork, old(canonical), canonical);
      AnnounceFork(oldHead, newHead, fork, old(canonical));
    }

    /** Moves the indexes from the chain of the current head to that of `newHead`, whose own
        entries are left to the caller. All failures come before the first write. */
    method Reorg(oldHead: Header, newHead: Header) returns (r: ForkResult)
      requires Steady() && oldHead == currentBlock && StoredBlock(newHead)
      modifies this
      ensures headers == old(headers) && bodies == old(bodies) && receipts == old(receipts)
      ensures r.Failed? ==> unchanged(this)
      ensures Complete(headers, bodies) ==> r.Found?
      ensures r.Found? ==>
        && MeetsAt(headers, bodies, oldHead, newHead, r.fork)
        && r.fork.common.number <= oldHead.number && r.fork.common.number <= Base(r.fork).number
        && Canonical(headers, canonical, Base(r.fork))
        && AgreesUpTo(old(canonical), canonical, r.fork.common.number)
        && (old(TxsIndexed()) && NoRepeatsUpTo(bodies, canonical, Base(r.fork).number) ==>
              LookupExact(bodies, canonical, txLookup, Base(r.fork).number))
        && Sent(old(removedLogsFeed), removedLogsFeed,
                Segment(receipts, old(canonical), r.fork.common.number + 1, oldHead.number + 1))
        && Sent(old(logsFeed), logsFeed,
                Segment(receipts, canonical, r.fork.common.number + 1, Base(r.fork).number + 1))
        && chainSideFeed == old(chainSideFeed) + HashesUp(old(canonical), r.fork.common.number + 1, oldHead.number + 1)
        && (r.fork.common.number < oldHead.number ==>
              EntryAt(canonical, newHead, r.fork.common.number + 1) != Some(old(canonical)[r.fork.common.number + 1]))
    {
      r := FindFork(headers, bodies, oldHead, newHead);
      if r.Found? {
        ApplyFork(oldHead, newHead, r.fork);
      }
    }

    /** Reorganises unless `block` extends the current head. `base` is the top of the index
        afterwards: the parent of `block`, or `block` itself when it was already canonical. */
    method PrepareHead(block: Header) returns (r: Status, ghost base: Header)
      requires Steady() && StoredBlock(block)
      modifies this
      ensures headers == old(headers) && bodies == old(bodies) && receipts == old(receipts)
      ensures r.Failure? ==> unchanged(this)
      ensures Complete(headers, bodies) ==> r.Done?
      ensures r.Done? ==>
        && Canonical(headers, canonical, base)
        && (old(TxsIndexed()) && NoRepeatsUpTo(bodies, canonical, base.number) ==>
              LookupExact(bodies, canonical, txLookup, base.number))
        && Prepared(old(Now()), canonical, base, block, r.kept, old(Out()), Out())
    {
      var current := currentBlock;
      if block.parent == current.hash {
        assert ParentOf(headers, block.hash, current.hash);
        return Done(current.number), current;
      }
      var found := Reorg(current, block);
      if found.Failed? {
        return Failure(found.error), current;
      }
      HeadWasCanonical(headers, bodies, current, block, found.fork, old(canonical));
      return Done(found.fork.common.number), Base(found.fork);
    }

    /** Enters the head on top of an index that ends at its parent, or at itself. */
    method EnterHead(block: Header, ghost base: Header, ghost indexed: bool)
      requires ValidTree(headers) && Canonical(headers, canonical, base) && Stored(headers, block)
      requires base == block || (block.parent == base.hash && block.number == base.number + 1)
      requires indexed && NoRepeatsUpTo(bodies, canonical, base.number) ==> LookupExact(bodies, canonical, txLookup, base.number)
      modifies this`canonical, this`txLookup, this`headHeaderHash, this`headFastBlockHash, this`headBlockHash,
               this`currentHeader, this`currentSnapBlock, this`currentBlock
      ensures Steady() && currentBlock == block && AgreesUpTo(old(canonical), canonical, base.number)
      ensures indexed ==> (TxsIndexed() <==> NoRepeats(headers, bodies, block))
    {
      ghost var idx, lookup := canonical, txLookup;
      WriteHeadBlock(block);
      HeadEntered(headers, idx, base, block);
      if indexed {
        LookupHead(headers, bodies, canonical, block, idx, lookup, base);
      }
    }

    /** Makes a stored block the head. */
    method WriteKnownBlock(block: Header) returns (r: Status)
      requires Steady() && StoredBlock(block)
      modifies this
      ensures headers == old(headers) && bodies == old(bodies) && receipts == old(receipts)
      ensures Steady()
      ensures r.Failure? ==> unchanged(this)
      ensures Complete(headers, bodies) ==> r.Done?
      ensures r.Done? ==> currentBlock == block
      ensures r.Done? && old(TxsIndexed()) ==> (TxsIndexed() <==> NoRepeats(headers, bodies, block))
      ensures r.Done? ==> Moves(old(Now()), Now(), r.kept, old(Out()), Out())
    {
      ghost var base;
      r, base := PrepareHead(block);
      if r.Failure? {
        return;
      }
      ghost var idx := canonical;
      EnterHead(block, base, old(TxsIndexed()));
      PreparedMoves(old(Now()), Now(), idx, base, r.kept, old(Out()), Out());
    }

    /** Announces the head's own logs. */
    method EmitHeadLogs(head: Header)
      modifies this`logsFeed
      ensures logsFeed == WithHead(old(logsFeed), LogsOf(receipts, head.hash))
    {
      var logs := LogsOf(receipts, head.hash);
      if |logs| > 0 {
        logsFeed := logsFeed + [logs];
      }
    }

    /** Sets a stored block as head and announces what changed: the removed and reborn batches of
        `WriteKnownBlock`, then the head's own logs. */
    method SwitchHead(head: Header) returns (r: Status)
      requires Steady() && StoredBlock(head)
      modifies this
      ensures headers == old(headers) && bodies == old(bodies) && receipts == old(receipts)
      ensures Steady()
      ensures r.Failure? ==> unchanged(this)
      ensures Complete(headers, bodies) ==> r.Done?
      ensures r.Done? ==> currentBlock == head
      ensures r.Done? && old(TxsIndexed()) ==> (TxsIndexed() <==> NoRepeats(headers, bodies, head))
      ensures r.Done? ==> Announced(old(Now()), Now(), r.kept, old(Out()), Out(), LogsOf(receipts, head.hash),
                                    !OnIndex(old(canonical), head) || LogsOf(receipts, head.hash) == [])
    {
      r := WriteKnownBlock(head);
      if r.Failure? {
        return;
      }
      SwitchStream(old(Now()), Now(), r.kept, old(Out()), Out());
      EmitHeadLogs(head);
    }

    /** Sets a stored block as canonical head. `stateReady` is whether its state is present or
        was recovered by re-executing its ancestors. */
    method SetCanonical(head: Header, stateReady: bool) returns (r: Status)
      requires Steady() && StoredBlock(head)
      modifies this
      ensures headers == old(headers) && bodies == old(bodies) && receipts == old(receipts)
      ensures Steady()
      ensures r.Failure? ==> unchanged(this)
      ensures Complete(headers, bodies) && stateReady ==> r.Done?
      ensures r.Done? ==> stateReady
      ensures r.Done? ==> currentBlock == head
      ensures r.Done? && old(TxsIndexed()) ==> (TxsIndexed() <==> NoRepeats(headers, bodies, head))
      ensures r.Done? ==> Announced(old(Now()), Now(), r.kept, old(Out()), Out(), LogsOf(receipts, head.hash),
                                    !OnIndex(old(canonical), head) || LogsOf(receipts, head.hash) == [])
    {
      if !stateReady {
        return Failure(StateMissing);
      }
      r := SwitchHead(head);
    }

    ghost function Now(): View
      reads this
    {
      View(headers, bodies, receipts, canonical, currentBlock)
    }

    predicate Acceptable(block: Header, txs: seq<TxHash>, logs: seq<Log>)
      reads this
    {
      Fits(View(headers, bodies, receipts, canonical, currentBlock), block, txs, logs)
    }

    /** Stores a block with its body and receipts. */
    method WriteBlock(block: Header, txs: seq<TxHash>, logs: seq<Log>)
      requires Steady() && Complete(headers, bodies) && Acceptable(block, txs, logs)
      modifies this`headers, this`bodies, this`receipts
      ensures Steady() && Complete(headers, bodies) && StoredBlock(block)
      ensures headers == old(headers)[block.hash := block] && bodies == old(bodies)[block.hash := txs]
      ensures receipts == old(receipts)[block.hash := logs]
      ensures LogsOf(receipts, block.hash) == logs
      ensures old(TxsIndexed()) ==> TxsIndexed()
      ensures ChainLogs() == old(ChainLogs())
    {
      BlockStored(headers, bodies, receipts, canonical, txLookup, currentBlock, block, txs, logs);
      PutBlock(block, txs, logs);
    }

    method PutBlock(block: Header, txs: seq<TxHash>, logs: seq<Log>)
      modifies this`headers, this`bodies, this`receipts
      ensures headers == old(headers)[block.hash := block] && bodies == old(bodies)[block.hash := txs]
      ensures receipts == old(receipts)[block.hash := logs]
    {
      headers := headers[block.hash := block];
      bodies := bodies[block.hash := txs];
      receipts := receipts[block.hash := logs];
    }

    /** Stores a block and makes it the head. `committed` is whether its state was committed. */
    method WriteBlockAndSetHead(block: Header, txs: seq<TxHash>, logs: seq<Log>, committed: bool) returns (r: Status)
      requires Steady() && Complete(headers, bodies) && Acceptable(block, txs, logs)
      modifies this
      ensures headers == old(headers)[block.hash := block] && bodies == old(bodies)[block.hash := txs]
      ensures receipts == old(receipts)[block.hash := logs]
      ensures Steady() && Complete(headers, bodies)
      ensures r.Done? <==> committed
      ensures currentBlock == if committed then block else old(currentBlock)
      ensures LogsOf(receipts, block.hash) == logs
      ensures r.Failure? ==> unchanged(`canonical) && unchanged(`txLookup) && unchanged(`removedLogsFeed) && unchanged(`logsFeed) && unchanged(`chainSideFeed)
      ensures r.Failure? ==> ChainLogs() == old(ChainLogs()) && (old(TxsIndexed()) ==> TxsIndexed())
      ensures r.Done? && old(TxsIndexed()) ==> (TxsIndexed() <==> NoRepeats(headers, bodies, block))
      ensures r.Done? ==> Announced(old(Now()), Now(), r.kept, old(Out()), Out(), logs,
                                    !OnIndex(old(canonical), block) || logs == [])
    {
      WriteBlock(block, txs, logs);
      if !committed {
        return Failure(CommitFailed);
      }
      ghost var stored := Now();
      r := SwitchHead(block);
      AnnouncedSince(old(Now()), stored, Now(), r.kept, old(Out()), Out(), logs, !OnIndex(old(canonical), block) || logs == []);
    }

    /** `WriteKnownBlock` as a listener on the log feeds sees it: the head's own logs are not announced. */
    method AdoptKnown(block: Header) returns (r: Status)
      requires Steady() && StoredBlock(block)
      modifies this
      ensures headers == old(headers) && bodies == old(bodies) && receipts == old(receipts)
      ensures Steady()
      ensures r.Failure? ==> unchanged(this)
      ensures Complete(headers, bodies) ==> r.Done?
      ensures r.Done? ==> currentBlock == block
      ensures r.Done? && old(TxsIndexed()) ==> (TxsIndexed() <==> NoRepeats(headers, bodies, block))
      ensures r.Done? ==> Announced(old(Now()), Now(), r.kept, old(Out()), Out(), [],
                                    OnIndex(old(canonical), block) || LogsOf(receipts, block.hash) == [])
    {
      r := WriteKnownBlock(block);
      if r.Done? {
        AdoptStream(old(Now()), Now(), r.kept, old(Out()), Out());
      }
    }

    method ApplyImport(block: Header, txs: seq<TxHash>, logs: seq<Log>, committed: bool) returns (ghost m: Moment)
      requires Steady() && Complete(headers, bodies)
      modifies this
      ensures Steady() && Complete(headers, bodies)
      ensures m.before == old(Now()) && m.op == Import(block, txs, logs, committed) && m.after == Now() && Happens(m)
      ensures old(removedLogsFeed) <= removedLogsFeed && m.removed == Flatten(removedLogsFeed[|old(removedLogsFeed)|..])
      ensures old(logsFeed) <= logsFeed && m.added == Flatten(logsFeed[|old(logsFeed)|..])
      ensures chainSideFeed == old(chainSideFeed) + m.side
      ensures old(TxsIndexed()) ==> (TxsIndexed() <==> !Takes(m.before, m.op) || NoRepeats(headers, bodies, block))
    {
      ghost var before, out := Now(), Out();
      var r := Failure(CommitFailed);
      if Acceptable(block, txs, logs) {
        r := WriteBlockAndSetHead(block, txs, logs, committed);
      }
      ghost var op := Import(block, txs, logs, committed);
      if r.Done? {
        TakenHappens(before, op, r, out, Out(), logs, Now());
      } else {
        SkippedHappens(before, op, r, out, Now());
      }
      m := Recorded(before, op, r, out, Out(), Now());
    }

    method ApplyStored(op: Operation) returns (ghost m: Moment)
      requires Steady() && Complete(headers, bodies) && !op.Import?
      modifies this
      ensures Steady() && Complete(headers, bodies)
      ensures m.before == old(Now()) && m.op == op && m.after == Now() && Happens(m)
      ensures old(removedLogsFeed) <= removedLogsFeed && m.removed == Flatten(removedLogsFeed[|old(removedLogsFeed)|..])
      ensures old(logsFeed) <= logsFeed && m.added == Flatten(logsFeed[|old(logsFeed)|..])
      ensures chainSideFeed == old(chainSideFeed) + m.side
      ensures old(TxsIndexed()) ==> (TxsIndexed() <==> !Takes(m.before, m.op) || NoRepeats(headers, bodies, op.block))
    {
      ghost var before, out := Now(), Out();
      var r := Failure(StateMissing);
      if Stored(headers, op.block) && op.block.hash in bodies {
        if op.Canonicalise? {
          r := SetCanonical(op.block, op.stateReady);
        } else {
          r := AdoptKnown(op.block);
        }
      }
      if r.Done? {
        TakenHappens(before, op, r, out, Out(), if op.Known? then [] else LogsOf(receipts, op.block.hash), Now());
      } else {
        SkippedHappens(before, op, r, out, Now());
      }
      m := Recorded(before, op, r, out, Out(), Now());
    }

    /** One operation, with what a listener on the log feeds receives. */
    method Apply(op: Operation) returns (ghost m: Moment)
      requires Steady() && Complete(headers, bodies)
      modifies this
      ensures Steady() && Complete(headers, bodies)
      ensures m.before == old(Now()) && m.op == op && m.after == Now() && Happens(m)
      ensures old(removedLogsFeed) <= removedLogsFeed && m.removed == Flatten(removedLogsFeed[|old(removedLogsFeed)|..])
      ensures old(logsFeed) <= logsFeed && m.added == Flatten(logsFeed[|old(logsFeed)|..])
      ensures chainSideFeed == old(chainSideFeed) + m.side
      ensures old(TxsIndexed()) ==> (TxsIndexed() <==> !Takes(m.before, m.op) || NoRepeats(headers, bodies, op.block))
    {
      match op {
        case Import(block, txs, logs, committed) => m := ApplyImport(block, txs, logs, committed);
        case _ => m := ApplyStored(op);
      }
    }

    /** Any sequence of operations. `trace` is what they did one after another and what they sent. The
        index is the parent walk of the head. A listener that starts with the chain's logs and follows
        the two log feeds still holds them at the end, if every new head's logs reached it exactly once.
        The lookup index stays exact, if no stored chain repeats a transaction. */
    method Run(ops: seq<Operation>) returns (ghost trace: seq<Moment>)
      requires Steady() && Complete(headers, bodies)
      modifies this
      ensures Steady() && Complete(headers, bodies)
      ensures AncestorIndex(headers, canonical, currentBlock)
      ensures Trace(old(Now()), ops, trace, Now())
      ensures old(removedLogsFeed) <= removedLogsFeed && RemovedIn(trace) == Flatten(removedLogsFeed[|old(removedLogsFeed)|..])
      ensures old(logsFeed) <= logsFeed && AddedIn(trace) == Flatten(logsFeed[|old(logsFeed)|..])
      ensures chainSideFeed == old(chainSideFeed) + SideIn(trace)
      ensures AllOnce(trace) ==> Listened(old(ChainLogs()), trace) == ChainLogs()
      ensures old(TxsIndexed()) && NoneRepeats(headers, bodies) ==> TxsIndexed()
    {
      ghost var start := Now();
      trace := RunAll(ops, |ops|);
      assert ops[..|ops|] == ops;
      CanonicalIsAncestorIndex(headers, canonical, currentBlock);
      if AllOnce(trace) {
        ListenerFollows(start, ops, trace, Now());
      }
    }

    method RunAll(ops: seq<Operation>, n: nat) returns (ghost trace: seq<Moment>)
      requires n <= |ops| && Steady() && Complete(headers, bodies)
      modifies this
      ensures Progress(old(Now()), ops[..n], trace, old(Out()), old(TxsIndexed()))
    {
      if n == 0 {
        Begins();
        return [];
      }
      trace := RunAll(ops, n - 1);
      trace := ApplyNext(ops, n - 1, old(Now()), trace, old(Out()), old(TxsIndexed()));
    }

    /** Where a run stands that began at `start`, with these feeds and the lookup index exact or not. */
    ghost predicate Progress(start: View, ops: seq<Operation>, trace: seq<Moment>, f0: Feeds, indexed: bool)
      reads this
    {
      && Steady() && Complete(headers, bodies) && Trace(start, ops, trace, Now())
      && f0.removed <= removedLogsFeed && RemovedIn(trace) == Flatten(removedLogsFeed[|f0.removed|..])
      && f0.sent <= logsFeed && AddedIn(trace) == Flatten(logsFeed[|f0.sent|..])
      && chainSideFeed == f0.side + SideIn(trace)
      && (indexed && NoneRepeats(headers, bodies) ==> TxsIndexed())
    }

    lemma Begins()
      requires Steady() && Complete(headers, bodies)
      ensures Progress(Now(), [], [], Out(), TxsIndexed())
    {
      assert removedLogsFeed[|removedLogsFeed|..] == [] && logsFeed[|logsFeed|..] == [];
    }

    /** One more operation of a run. */
    method ApplyNext(ops: seq<Operation>, i: nat, ghost start: View, ghost trace: seq<Moment>,
                     ghost f0: Feeds, ghost indexed: bool) returns (ghost trace': seq<Moment>)
      requires i < |ops| && Progress(start, ops[..i], trace, f0, indexed)
      modifies this
      ensures Progress(start, ops[..i + 1], trace', f0, indexed)
    {
      ghost var m := Apply(ops[i]);
      TraceGrows(start, ops, i, trace, m);
      FeedsGrow(trace, m);
      SideContinues(f0.side, SideIn(trace), m.side);
      FeedContinues(f0.removed, old(removedLogsFeed), removedLogsFeed);
      FeedContinues(f0.sent, old(logsFeed), logsFeed);
      if NoneRepeats(headers, bodies) {
        NoneRepeatedBefore(m.before, ops[i]);
      }
      trace' := trace + [m];
    }
  }

  /** A run that announces logs twice: setting a head that is canonical already and has logs. */
  method AnnouncesTwice() returns (chain: BlockChain, ghost m: Moment)
    ensures fresh(chain) && Happens(m) && m.after == chain.Now()
    ensures m.op.Canonicalise? && Takes(m.before, m.op) && m.before.head == m.op.block
    ensures !Replays(LogsIn(m.before), m.removed, m.added, LogsIn(m.after))
  {
    var block := Header(2, 1, 1, 0, 0);
    chain := new BlockChain(Header(1, 0, 0, 0, 0));
    var _ := chain.WriteBlockAndSetHead(block, [5], [7], true);
    m := chain.Apply(Canonicalise(block, true));
  }

  /** A run that does not announce the head's logs: after two siblings, adopting the first one, whose
      block and state are known, again. */
  method AnnouncesNothing() returns (chain: BlockChain, ghost m: Moment)
    ensures fresh(chain) && Happens(m) && m.after == chain.Now()
    ensures m.op.Known? && Takes(m.before, m.op) && !OnIndex(m.before.canonical, m.op.block)
    ensures !Replays(LogsIn(m.before), m.removed, m.added, LogsIn(m.after))
  {
    var a, b := Header(2, 1, 1, 0, 0), Header(3, 1, 1, 0, 0);
    chain := ImportSiblings(a, b, [7]);
    m := chain.Apply(Known(a));
  }

  /** Two committed children of the genesis block, the second one being the head. */
  method ImportSiblings(a: Header, b: Header, logs: seq<Log>) returns (chain: BlockChain)
    requires a.number == b.number == 1 && a.parent == b.parent == 1 && a.hash != b.hash
    requires a.hash > 1 && b.hash > 1
    ensures fresh(chain) && chain.Steady() && Complete(chain.headers, chain.bodies) && chain.currentBlock == b
    ensures Has(chain.Now(), a) && LogsOf(chain.receipts, a.hash) == logs
  {
    chain := ImportFirst(a, logs);
    var _ := chain.WriteBlockAndSetHead(b, [6], [], true);
  }

  method ImportFirst(a: Header, logs: seq<Log>) returns (chain: BlockChain)
    requires a.number == 1 && a.parent == 1 && a.hash > 1
    ensures fresh(chain) && chain.Steady() && Complete(chain.headers, chain.bodies)
    ensures chain.headers == map[1 := Header(1, 0, 0, 0, 0), a.hash := a]
    ensures chain.bodies == map[1 := [], a.hash := [5]] && chain.receipts == map[1 := [], a.hash := logs]
  {
    chain := new BlockChain(Header(1, 0, 0, 0, 0));
    var _ := chain.WriteBlockAndSetHead(a, [5], logs, true);
  }
}
