/** The log stream a reorganisation emits: batches of removed and of reborn logs. */
module Logs {
  import opened BlockTree

  type Log = nat
  type Receipts = map<Hash, seq<Log>>

  const BATCH_LIMIT := 512

  function LogsOf(receipts: Receipts, h: Hash): seq<Log> {
    if h in receipts then receipts[h] else []
  }

  /** The logs of the indexed blocks at heights `lo` to `hi`, exclusive, in chain order. */
  ghost function Segment(receipts: Receipts, idx: Index, lo: nat, hi: nat): seq<Log>
    requires forall n: nat :: lo <= n < hi ==> n in idx
    decreases hi
  {
    if lo >= hi then [] else Segment(receipts, idx, lo, hi - 1) + LogsOf(receipts, idx[hi - 1])
  }

  ghost function Flatten(batches: seq<seq<Log>>): seq<Log> {
    if |batches| == 0 then []
    else Flatten(batches[..|batches| - 1]) + batches[|batches| - 1]
  }

  lemma FlattenSnoc(batches: seq<seq<Log>>, b: seq<Log>)
    ensures Flatten(batches + [b]) == Flatten(batches) + b
  {
    assert (batches + [b])[..|batches|] == batches;
  }

  lemma {:induction false} FlattenAppend(a: seq<seq<Log>>, b: seq<seq<Log>>)
    ensures Flatten(a + b) == Flatten(a) + Flatten(b)
  {
    if |b| == 0 {
      assert a + b == a;
    } else {
      var n := |b| - 1;
      FlattenAppend(a, b[..n]);
      assert a + b == (a + b[..n]) + [b[n]];
      FlattenSnoc(a + b[..n], b[n]);
      Regroup(Flatten(a), Flatten(b[..n]), b[n]);
    }
  }

  /** What a feed carried since `f0` is what it carried up to `f1` and then since. */
  lemma FeedContinues(f0: seq<seq<Log>>, f1: seq<seq<Log>>, f2: seq<seq<Log>>)
    requires f0 <= f1 <= f2
    ensures f0 <= f2 && Flatten(f2[|f0|..]) == Flatten(f1[|f0|..]) + Flatten(f2[|f1|..])
  {
    assert f2[|f0|..] == f1[|f0|..] + f2[|f1|..];
    FlattenAppend(f1[|f0|..], f2[|f1|..]);
  }

  /** No empty batch, and only the last may hold 512 logs or fewer. */
  ghost predicate WellBatched(batches: seq<seq<Log>>) {
    forall i :: 0 <= i < |batches| ==>
      |batches[i]| > (if i < |batches| - 1 then 512 else 0)
  }

  ghost predicate Full(batches: seq<seq<Log>>) {
    forall i :: 0 <= i < |batches| ==> |batches[i]| > BATCH_LIMIT
  }

  /** Full batches and a rest that together hold the logs. */
  ghost predicate Collected(batches: seq<seq<Log>>, pending: seq<Log>, logs: seq<Log>) {
    Full(batches) && |pending| <= BATCH_LIMIT && Flatten(batches) + pending == logs
  }

  lemma LastBatch(batches: seq<seq<Log>>, pending: seq<Log>)
    requires Full(batches)
    ensures var all := if |pending| > 0 then batches + [pending] else batches;
      WellBatched(all) && Flatten(all) == Flatten(batches) + pending
  {
    if |pending| > 0 {
      FlattenSnoc(batches, pending);
    } else {
      assert Flatten(batches) + pending == Flatten(batches);
    }
  }

  /** `after` is `before` followed by batches that together carry `logs`. */
  ghost predicate Sent(before: seq<seq<Log>>, after: seq<seq<Log>>, logs: seq<Log>) {
    before <= after && WellBatched(after[|before|..]) && Flatten(after[|before|..]) == logs
  }

  /** The logs of a descending chain from its last block up to position `lo`. */
  function Ascending(receipts: Receipts, chain: seq<Header>, lo: nat): seq<Log>
    decreases |chain| - lo
  {
    if lo >= |chain| then []
    else Ascending(receipts, chain, lo + 1) + LogsOf(receipts, chain[lo].hash)
  }

  /** The hashes of a descending chain from its last block up to position `lo`. */
  ghost function Upward(chain: seq<Header>, lo: nat): seq<Hash>
    decreases |chain| - lo
  {
    if lo >= |chain| then [] else Upward(chain, lo + 1) + [chain[lo].hash]
  }

  /** Takes one block's logs into the pending batch and sends it once it is over the limit. */
  method Collect(batches: seq<seq<Log>>, pending: seq<Log>, logs: seq<Log>, ghost before: seq<Log>)
    returns (batches': seq<seq<Log>>, pending': seq<Log>)
    requires Collected(batches, pending, before)
    ensures Collected(batches', pending', before + logs)
  {
    Regroup(Flatten(batches), pending, logs);
    batches', pending' := batches, pending + logs;
    if |pending'| > BATCH_LIMIT {
      FlattenSnoc(batches', pending');
      batches', pending' := batches' + [pending'], [];
    }
  }

  /** Collects the logs of `chain`, last block first, stopping at position `lo`, and cuts
      them into batches of just over `BATCH_LIMIT`. */
  method Batch(receipts: Receipts, chain: seq<Header>, lo: nat) returns (batches: seq<seq<Log>>)
    ensures Flatten(batches) == Ascending(receipts, chain, lo)
    ensures WellBatched(batches)
  {
    batches := [];
    var pending: seq<Log> := [];
    var i := |chain|;
    while i > lo
      invariant i <= |chain|
      invariant i < lo ==> i == |chain|
      invariant Collected(batches, pending, Ascending(receipts, chain, i))
    {
      i := i - 1;
      batches, pending := Collect(batches, pending, LogsOf(receipts, chain[i].hash), Ascending(receipts, chain, i + 1));
    }
    LastBatch(batches, pending);
    if |pending| > 0 {
      batches := batches + [pending];
    }
  }

  lemma Regroup(a: seq<Log>, b: seq<Log>, c: seq<Log>)
    ensures a + b + c == a + (b + c)
  {
  }

  lemma {:induction false} SegmentSplits(receipts: Receipts, idx: Index, lo: nat, mid: nat, hi: nat)
    requires lo <= mid <= hi
    requires forall n: nat :: lo <= n < hi ==> n in idx
    ensures Segment(receipts, idx, lo, hi) == Segment(receipts, idx, lo, mid) + Segment(receipts, idx, mid, hi)
    decreases hi
  {
    if mid < hi {
      SegmentSplits(receipts, idx, lo, mid, hi - 1);
      Regroup(Segment(receipts, idx, lo, mid), Segment(receipts, idx, mid, hi - 1), LogsOf(receipts, idx[hi - 1]));
    }
  }

  lemma {:induction false} SegmentAgrees(receipts: Receipts, a: Index, b: Index, lo: nat, hi: nat)
    requires forall n: nat :: lo <= n < hi ==> n in a && n in b && a[n] == b[n]
    ensures Segment(receipts, a, lo, hi) == Segment(receipts, b, lo, hi)
    decreases hi
  {
    if lo < hi {
      SegmentAgrees(receipts, a, b, lo, hi - 1);
    }
  }

  lemma {:induction false} SegmentKept(receipts: Receipts, receipts': Receipts, idx: Index, hi: nat)
    requires forall n: nat :: n < hi ==> n in idx && LogsOf(receipts, idx[n]) == LogsOf(receipts', idx[n])
    ensures Segment(receipts, idx, 0, hi) == Segment(receipts', idx, 0, hi)
    decreases hi
  {
    if hi > 0 {
      SegmentKept(receipts, receipts', idx, hi - 1);
    }
  }

  /** A descending chain's collected logs are the chain-order logs of its heights. */
  lemma {:induction false} AscendingIsSegment(
    receipts: Receipts, chain: seq<Header>, lo: nat, idx: Index, base: nat)
    requires lo <= |chain|
    requires forall i :: lo <= i < |chain| ==>
      base + |chain| - 1 - i in idx && idx[base + |chain| - 1 - i] == chain[i].hash
    requires forall n: nat :: base <= n < base + |chain| - lo ==> n in idx
    ensures Ascending(receipts, chain, lo) == Segment(receipts, idx, base, base + |chain| - lo)
    decreases |chain| - lo
  {
    if lo < |chain| {
      AscendingIsSegment(receipts, chain, lo + 1, idx, base);
    }
  }

  /** The hashes of a chain from height `lo` up to, but without, `hi`. */
  ghost function HashesUp(idx: Index, lo: nat, hi: nat): seq<Hash>
    requires forall n: nat :: lo <= n < hi ==> n in idx
    decreases hi
  {
    if lo >= hi then [] else HashesUp(idx, lo, hi - 1) + [idx[hi - 1]]
  }

  lemma {:induction false} UpwardIsHashes(chain: seq<Header>, lo: nat, idx: Index, base: nat)
    requires lo <= |chain|
    requires forall i :: lo <= i < |chain| ==>
      base + |chain| - 1 - i in idx && idx[base + |chain| - 1 - i] == chain[i].hash
    requires forall n: nat :: base <= n < base + |chain| - lo ==> n in idx
    ensures Upward(chain, lo) == HashesUp(idx, base, base + |chain| - lo)
    decreases |chain| - lo
  {
    if lo < |chain| {
      UpwardIsHashes(chain, lo + 1, idx, base);
    }
  }

  function WithHead(feed: seq<seq<Log>>, logs: seq<Log>): seq<seq<Log>> {
    if |logs| > 0 then feed + [logs] else feed
  }

  lemma SentWithHead(before: seq<seq<Log>>, mid: seq<seq<Log>>, sent: seq<Log>, logs: seq<Log>)
    requires Sent(before, mid, sent)
    ensures before <= WithHead(mid, logs)
    ensures Flatten(WithHead(mid, logs)[|before|..]) == sent + logs
  {
    if |logs| > 0 {
      FlattenSnoc(mid[|before|..], logs);
      assert (mid + [logs])[|before|..] == mid[|before|..] + [logs];
    }
  }

  /** What was added to the feed is well batched, but for the head's logs, which come last and in one
      batch of their own. */
  ghost predicate Batched(before: seq<seq<Log>>, after: seq<seq<Log>>, logs: seq<Log>) {
    && before <= after
    && var added := after[|before|..];
       if logs == [] then WellBatched(added)
       else |added| > 0 && added[|added| - 1] == logs && WellBatched(added[..|added| - 1])
  }

  lemma BatchedWithHead(before: seq<seq<Log>>, mid: seq<seq<Log>>, logs: seq<Log>)
    requires before <= mid && WellBatched(mid[|before|..])
    ensures Batched(before, WithHead(mid, logs), logs)
  {
    if |logs| > 0 {
      assert (mid + [logs])[|before|..] == mid[|before|..] + [logs];
      assert (mid[|before|..] + [logs])[..|mid| - |before|] == mid[|before|..];
    }
  }

  /** A listener that holds `before`, drops `removed` from its end and appends `added` holds `after`. */
  ghost predicate Replays(before: seq<Log>, removed: seq<Log>, added: seq<Log>, after: seq<Log>) {
    && |removed| <= |before|
    && before[|before| - |removed|..] == removed
    && after == before[..|before| - |removed|] + added
  }

  /** The listener's step. */
  function Listen(held: seq<Log>, removed: seq<Log>, added: seq<Log>): seq<Log> {
    (if |removed| <= |held| then held[..|held| - |removed|] else []) + added
  }

  lemma ReplaysConserves(before: seq<Log>, removed: seq<Log>, added: seq<Log>, after: seq<Log>)
    requires Replays(before, removed, added, after)
    ensures Listen(before, removed, added) == after
    ensures multiset(before) - multiset(removed) + multiset(added) == multiset(after)
  {
    assert before == before[..|before| - |removed|] + removed;
  }

  /** Dropping the old segment above the fork and appending the new one turns the old chain's
      logs into the new chain's, unless the head was already canonical and its logs, which are
      sent again, are not empty. */
  lemma LogStream(receipts: Receipts, idx0: Index, top0: nat, idx: Index, top: nat, kept: nat)
    requires kept <= top0 && kept <= top
    requires forall n: nat :: n <= top0 ==> n in idx0
    requires forall n: nat :: n <= top ==> n in idx
    requires forall n: nat :: n <= kept ==> idx0[n] == idx[n]
    ensures Replays(Segment(receipts, idx0, 0, top0 + 1),
                    Segment(receipts, idx0, kept + 1, top0 + 1),
                    Segment(receipts, idx, kept + 1, top) + LogsOf(receipts, idx[top]),
                    Segment(receipts, idx, 0, top + 1))
            <==> kept < top || LogsOf(receipts, idx[top]) == []
  {
    SegmentSplits(receipts, idx0, 0, kept + 1, top0 + 1);
    SegmentSplits(receipts, idx, 0, kept + 1, top + 1);
    SegmentAgrees(receipts, idx0, idx, 0, kept + 1);
    var prefix := Segment(receipts, idx, 0, kept + 1);
    var before := Segment(receipts, idx0, 0, top0 + 1);
    var removed := Segment(receipts, idx0, kept + 1, top0 + 1);
    assert before[|before| - |removed|..] == removed && before[..|before| - |removed|] == prefix;
    if kept == top {
      var head := LogsOf(receipts, idx[top]);
      assert Segment(receipts, idx, kept + 1, top) + head == head;
      assert |prefix + head| == |prefix| + |head|;
    }
  }

  /** The stream as a listener on the two feeds sees it when the head moves from `idx0[top0]` to
      `idx[top]`, the two chains agreeing up to `kept`. */
  lemma HeadStream(receipts: Receipts, idx0: Index, top0: nat, idx: Index, top: nat, kept: nat,
                   removed0: seq<seq<Log>>, removed: seq<seq<Log>>, sent0: seq<seq<Log>>, sent: seq<seq<Log>>)
    requires kept <= top0 && kept <= top
    requires forall n: nat :: n <= top0 ==> n in idx0
    requires forall n: nat :: n <= top ==> n in idx
    requires forall n: nat :: n <= kept ==> idx0[n] == idx[n]
    requires Sent(removed0, removed, Segment(receipts, idx0, kept + 1, top0 + 1))
    requires Sent(sent0, sent, Segment(receipts, idx, kept + 1, top))
    ensures sent0 <= WithHead(sent, LogsOf(receipts, idx[top]))
    ensures Replays(Segment(receipts, idx0, 0, top0 + 1),
                    Flatten(removed[|removed0|..]),
                    Flatten(WithHead(sent, LogsOf(receipts, idx[top]))[|sent0|..]),
                    Segment(receipts, idx, 0, top + 1))
            <==> kept < top || LogsOf(receipts, idx[top]) == []
  {
    SentWithHead(sent0, sent, Segment(receipts, idx, kept + 1, top), LogsOf(receipts, idx[top]));
    LogStream(receipts, idx0, top0, idx, top, kept);
  }

  /** The same when the head's own logs are not announced: the stream is then complete only if
      the head was already canonical or carries no logs. */
  lemma QuietStream(receipts: Receipts, idx0: Index, top0: nat, idx: Index, top: nat, kept: nat)
    requires kept <= top0 && kept <= top
    requires forall n: nat :: n <= top0 ==> n in idx0
    requires forall n: nat :: n <= top ==> n in idx
    requires forall n: nat :: n <= kept ==> idx0[n] == idx[n]
    ensures Replays(Segment(receipts, idx0, 0, top0 + 1),
                    Segment(receipts, idx0, kept + 1, top0 + 1),
                    Segment(receipts, idx, kept + 1, top),
                    Segment(receipts, idx, 0, top + 1))
            <==> kept == top || LogsOf(receipts, idx[top]) == []
  {
    LogStream(receipts, idx0, top0, idx, top, kept);
    var head := LogsOf(receipts, idx[top]);
    var added := Segment(receipts, idx, kept + 1, top);
    assert head == [] ==> added + head == added;
    if kept == top {
      SegmentSplits(receipts, idx0, 0, kept + 1, top0 + 1);
      SegmentAgrees(receipts, idx0, idx, 0, kept + 1);
      var before, removed := Segment(receipts, idx0, 0, top0 + 1), Segment(receipts, idx0, kept + 1, top0 + 1);
      assert before[|before| - |removed|..] == removed;
    } else {
      assert |added + head| == |added| + |head|;
    }
  }

  /** The same for the batches on the two feeds. */
  lemma QuietFeeds(receipts: Receipts, idx0: Index, top0: nat, idx: Index, top: nat, kept: nat,
                   removed0: seq<seq<Log>>, removed: seq<seq<Log>>, sent0: seq<seq<Log>>, sent: seq<seq<Log>>)
    requires kept <= top0 && kept <= top
    requires forall n: nat :: n <= top0 ==> n in idx0
    requires forall n: nat :: n <= top ==> n in idx
    requires forall n: nat :: n <= kept ==> idx0[n] == idx[n]
    requires Sent(removed0, removed, Segment(receipts, idx0, kept + 1, top0 + 1))
    requires Sent(sent0, sent, Segment(receipts, idx, kept + 1, top))
    ensures removed0 <= removed && sent0 <= sent
    ensures Replays(Segment(receipts, idx0, 0, top0 + 1), Flatten(removed[|removed0|..]), Flatten(sent[|sent0|..]),
                    Segment(receipts, idx, 0, top + 1))
            <==> kept == top || LogsOf(receipts, idx[top]) == []
  {
    QuietStream(receipts, idx0, top0, idx, top, kept);
  }
}
