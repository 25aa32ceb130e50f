/** Transactions by price and nonce: a binary heap with the next transaction of each account. */
module Ordering {
  import opened Arithmetic
  import opened Wrappers
  import opened Ledger
  import opened StateTransition

  /** A transaction of the pool; it may no longer be there when it is resolved. */
  datatype LazyTx = LazyTx(hash: nat, time: int, feeCap: nat, tipCap: nat, gas: nat, resolved: Option<Tx>)

  datatype Wrapped = Wrapped(tx: LazyTx, from: Address, fees: int)

  /** The tip that a transaction pays on top of the base fee, if it can pay that. */
  function WithMinerFee(tx: LazyTx, from: Address, baseFee: Option<nat>): Option<Wrapped> {
    if baseFee.None? then Some(Wrapped(tx, from, tx.tipCap))
    else if tx.feeCap < baseFee.value then None
    else Some(Wrapped(tx, from, Min(tx.tipCap, tx.feeCap - baseFee.value)))
  }

  /** A transaction is taken exactly if its fee cap covers the base fee, and its fees are the most that
      it can pay on top of that within both caps. */
  lemma MinerFeeIsMost(tx: LazyTx, from: Address, baseFee: nat)
    ensures WithMinerFee(tx, from, Some(baseFee)).Some? <==> baseFee <= tx.feeCap
    ensures WithMinerFee(tx, from, Some(baseFee)).Some? ==>
      var w := WithMinerFee(tx, from, Some(baseFee)).value;
      && w.tx == tx && w.from == from && 0 <= w.fees
      && w.fees <= tx.tipCap && w.fees + baseFee <= tx.feeCap
      && (w.fees == tx.tipCap || w.fees + baseFee == tx.feeCap)
    ensures WithMinerFee(tx, from, None) == Some(Wrapped(tx, from, tx.tipCap))
  {
  }

  /** Higher fees come first, then earlier times. */
  predicate Less(a: Wrapped, b: Wrapped) {
    if a.fees == b.fees then a.tx.time < b.tx.time else a.fees > b.fees
  }

  // ----- the heap -----

  /** In the first `n` entries, no child at or below `lo` comes before its parent. */
  ghost predicate HeapFrom(h: seq<Wrapped>, lo: int, n: int) {
    forall p, c :: lo <= p && 0 <= p && IsChild(p, c) && c < n <= |h| ==> !Less(h[c], h[p])
  }

  predicate IsChild(p: int, c: int) {
    c == 2 * p + 1 || c == 2 * p + 2
  }

  function Parent(c: int): int
    requires c > 0
    ensures IsChild(Parent(c), c) && 0 <= Parent(c) < c
  {
    (c - 1) / 2
  }

  /** The top of a heap is a best entry. */
  lemma {:induction false} TopIsBest(h: seq<Wrapped>, k: nat)
    requires HeapFrom(h, 0, |h|) && k < |h|
    ensures !Less(h[k], h[0])
  {
    if k > 0 {
      assert IsChild(Parent(k), k);
      TopIsBest(h, Parent(k));
    }
  }

  /** The accounts of a heap are distinct. */
  ghost predicate Distinct(h: seq<Wrapped>) {
    forall i, j :: 0 <= i < j < |h| ==> h[i].from != h[j].from
  }

  function Items(h: seq<Wrapped>): set<Wrapped> {
    set w <- h
  }

  function Swap(h: seq<Wrapped>, i: nat, j: nat): seq<Wrapped>
    requires i < |h| && j < |h|
  {
    h[i := h[j]][j := h[i]]
  }

  lemma SwapKeeps(h: seq<Wrapped>, i: nat, j: nat)
    requires i < |h| && j < |h|
    ensures Items(Swap(h, i, j)) == Items(h)
    ensures Distinct(h) ==> Distinct(Swap(h, i, j))
  {
    var h' := Swap(h, i, j);
    assert h'[i] == h[j] && h'[j] == h[i];
    forall w | w in h ensures w in h' {
      var k :| 0 <= k < |h| && h[k] == w;
      assert h'[if k == i then j else if k == j then i else k] == w;
    }
  }

  /** All edges are right but those from `i` down, and what is below `i` fits under its parent. */
  ghost predicate Sinking(h: seq<Wrapped>, lo: int, n: int, i: int) {
    && (forall p, c :: lo <= p && p != i && 0 <= p && IsChild(p, c) && c < n <= |h| ==> !Less(h[c], h[p]))
    && (forall p, c :: lo <= p && 0 <= p && IsChild(p, i) && IsChild(i, c) && c < n <= |h| ==> !Less(h[c], h[p]))
  }

  lemma SinkStep(h: seq<Wrapped>, lo: nat, n: nat, i: nat, j: nat)
    requires n <= |h| && lo <= i && Sinking(h, lo, n, i) && IsChild(i, j) && j < n && Less(h[j], h[i])
    requires forall c :: IsChild(i, c) && c < n ==> !Less(h[c], h[j])
    ensures Sinking(Swap(h, i, j), lo, n, j)
  {
  }

  lemma SinkDone(h: seq<Wrapped>, lo: nat, n: nat, i: nat)
    requires n <= |h| && Sinking(h, lo, n, i) && forall c :: IsChild(i, c) && c < n ==> !Less(h[c], h[i])
    ensures HeapFrom(h, lo, n)
  {
  }

  /** Moves the entry at `i0` down to its place among the first `n`. */
  method Down(h0: seq<Wrapped>, i0: nat, n: nat) returns (h: seq<Wrapped>, moved: bool)
    requires i0 < n <= |h0| && HeapFrom(h0, i0 + 1, n)
    ensures |h| == |h0| && h[n..] == h0[n..] && HeapFrom(h, i0, n)
    ensures Items(h) == Items(h0) && (Distinct(h0) ==> Distinct(h))
    ensures !moved ==> h == h0
  {
    h := h0;
    var i := i0;
    while true
      invariant i0 <= i < n <= |h| && |h| == |h0| && h[n..] == h0[n..]
      invariant Sinking(h, i0, n, i)
      invariant Items(h) == Items(h0) && (Distinct(h0) ==> Distinct(h))
      invariant i == i0 ==> h == h0
      decreases n - i
    {
      var j1 := 2 * i + 1;
      if j1 >= n {
        break;
      }
      var j := j1;
      if j1 + 1 < n && Less(h[j1 + 1], h[j1]) {
        j := j1 + 1;
      }
      if !Less(h[j], h[i]) {
        break;
      }
      SinkStep(h, i0, n, i, j);
      SwapKeeps(h, i, j);
      h := Swap(h, i, j);
      i := j;
    }
    SinkDone(h, i0, n, i);
    moved := i > i0;
  }

  /** Makes a heap of any list. */
  method Init(h0: seq<Wrapped>) returns (h: seq<Wrapped>)
    ensures |h| == |h0| && HeapFrom(h, 0, |h|) && Items(h) == Items(h0) && (Distinct(h0) ==> Distinct(h))
  {
    h := h0;
    var n := |h|;
    var i := n / 2 - 1;
    while i >= 0
      invariant -1 <= i < n && |h| == n && HeapFrom(h, i + 1, n)
      invariant Items(h) == Items(h0) && (Distinct(h0) ==> Distinct(h))
      decreases i
    {
      var moved;
      h, moved := Down(h, i, n);
      i := i - 1;
    }
  }

  /** Restores the heap after its top has changed. The upward pass of a fix does nothing at the top. */
  method FixTop(h0: seq<Wrapped>) returns (h: seq<Wrapped>)
    requires h0 != [] && HeapFrom(h0, 1, |h0|)
    ensures |h| == |h0| && HeapFrom(h, 0, |h|) && Items(h) == Items(h0) && (Distinct(h0) ==> Distinct(h))
  {
    var moved;
    h, moved := Down(h0, 0, |h0|);
  }

  lemma WithoutLast(h: seq<Wrapped>)
    requires h != [] && Distinct(h)
    ensures var n := |h| - 1; Items(h[..n]) == Items(h) - {h[n]} && Distinct(h[..n])
  {
    var n := |h| - 1;
    assert h == h[..n] + [h[n]];
    forall w | w in h[..n] ensures w != h[n] {
      var k :| 0 <= k < n && h[..n][k] == w;
      assert h[k].from != h[n].from;
    }
  }

  lemma HeapShortened(h: seq<Wrapped>, lo: int, n: nat)
    requires n <= |h| && HeapFrom(h, lo, n)
    ensures HeapFrom(h[..n], lo, n)
  {
  }

  /** Removes the top. */
  method PopTop(h0: seq<Wrapped>) returns (h: seq<Wrapped>, top: Wrapped)
    requires h0 != [] && HeapFrom(h0, 0, |h0|) && Distinct(h0)
    ensures top == h0[0] && |h| == |h0| - 1 && HeapFrom(h, 0, |h|) && Distinct(h)
    ensures Items(h) == Items(h0) - {top}
  {
    var n := |h0| - 1;
    SwapKeeps(h0, 0, n);
    h := Swap(h0, 0, n);
    if n > 0 {
      var moved;
      h, moved := Down(h, 0, n);
    }
    top := h[n];
    assert h[n..][0] == h0[0];
    WithoutLast(h);
    HeapShortened(h, 0, n);
    h := h[..n];
  }

  // ----- the transaction set -----

  type Lists = map<Address, seq<LazyTx>>

  /** An account and the position of one of its transactions. */
  datatype Taken = Taken(from: Address, index: nat)

  /** How many transactions of the account were taken. */
  ghost function Count(taken: seq<Taken>, from: Address): nat {
    if taken == [] then 0
    else Count(taken[..|taken| - 1], from) + if taken[|taken| - 1].from == from then 1 else 0
  }

  /** Each account's transactions were taken in order from its first, each at most once. */
  ghost predicate InOrder(taken: seq<Taken>) {
    forall i :: 0 <= i < |taken| ==> taken[i].index == Count(taken[..i], taken[i].from)
  }

  /** The head is its account's next transaction with the tip it pays, and the rest of the list follows. */
  ghost predicate IsNext(orig: Lists, txs: Lists, taken: seq<Taken>, baseFee: Option<nat>, w: Wrapped) {
    && w.from in orig && w.from in txs
    && var k := Count(taken, w.from);
    && k < |orig[w.from]|
    && WithMinerFee(orig[w.from][k], w.from, baseFee) == Some(w)
    && txs[w.from] == orig[w.from][k + 1..]
  }

  lemma TakeOne(taken: seq<Taken>, from: Address)
    requires InOrder(taken)
    ensures InOrder(taken + [Taken(from, Count(taken, from))])
    ensures forall a :: Count(taken + [Taken(from, Count(taken, from))], a) == Count(taken, a) + if a == from then 1 else 0
  {
    var next := taken + [Taken(from, Count(taken, from))];
    assert next[..|taken|] == taken;
    forall i | 0 <= i < |taken| ensures next[..i] == taken[..i] {
    }
  }

  ghost predicate OnePerAccount(items: set<Wrapped>) {
    forall v, w :: v in items && w in items && v.from == w.from ==> v == w
  }

  lemma DistinctItems(h: seq<Wrapped>)
    requires Distinct(h)
    ensures OnePerAccount(Items(h))
  {
    forall v, w | v in Items(h) && w in Items(h) && v.from == w.from ensures v == w {
      var i :| 0 <= i < |h| && h[i] == v;
      var j :| 0 <= j < |h| && h[j] == w;
      assert i == j;
    }
  }

  ghost predicate AllNext(orig: Lists, txs: Lists, taken: seq<Taken>, baseFee: Option<nat>, items: set<Wrapped>) {
    forall w <- items :: IsNext(orig, txs, taken, baseFee, w)
  }

  /** The transactions that may still be offered. */
  ghost function PendingIn(orig: Lists, taken: seq<Taken>, items: set<Wrapped>): set<Taken> {
    set w, k | w in items && w.from in orig && Count(taken, w.from) <= k < |orig[w.from]| :: Taken(w.from, k)
  }

  function Next(taken: seq<Taken>, from: Address, index: nat): seq<Taken> {
    taken + [Taken(from, index)]
  }

  /** Taking the top's transaction does not touch the heads of other accounts. */
  lemma OthersNext(orig: Lists, txs: Lists, txs': Lists, taken: seq<Taken>, baseFee: Option<nat>, items: set<Wrapped>, top: Wrapped)
    requires InOrder(taken) && AllNext(orig, txs, taken, baseFee, items) && OnePerAccount(items) && top in items
    requires forall a :: a in txs && a != top.from ==> a in txs' && txs'[a] == txs[a]
    ensures AllNext(orig, txs', Next(taken, top.from, Count(taken, top.from)), baseFee, items - {top})
  {
    TakeOne(taken, top.from);
    forall w <- items - {top} ensures IsNext(orig, txs', Next(taken, top.from, Count(taken, top.from)), baseFee, w) {
      assert IsNext(orig, txs, taken, baseFee, w) && w.from != top.from;
    }
  }

  /** Taking the top's transaction leaves less to do. */
  lemma PendingShrinks(orig: Lists, taken: seq<Taken>, items: set<Wrapped>, items': set<Wrapped>, top: Wrapped)
    requires InOrder(taken) && top in items && top.from in orig && Count(taken, top.from) < |orig[top.from]|
    requires forall w <- items' :: w.from == top.from || w in items
    ensures PendingIn(orig, Next(taken, top.from, Count(taken, top.from)), items') < PendingIn(orig, taken, items)
  {
    var k := Count(taken, top.from);
    var taken' := Next(taken, top.from, k);
    TakeOne(taken, top.from);
    forall t | t in PendingIn(orig, taken', items') ensures t in PendingIn(orig, taken, items) && t != Taken(top.from, k) {
      var w :| w in items' && w.from in orig && w.from == t.from && Count(taken', w.from) <= t.index < |orig[w.from]|;
      assert (if w.from == top.from then top else w) in items;
    }
    assert Taken(top.from, k) in PendingIn(orig, taken, items);
  }

  /** No account is forgotten: if its first transaction can pay, that was taken or is a head. */
  ghost predicate NoneForgotten(orig: Lists, taken: seq<Taken>, baseFee: Option<nat>, items: set<Wrapped>) {
    forall a <- orig :: orig[a] != [] && WithMinerFee(orig[a][0], a, baseFee).Some? && Count(taken, a) == 0 ==>
      WithMinerFee(orig[a][0], a, baseFee).value in items
  }

  lemma StillRemembered(orig: Lists, taken: seq<Taken>, baseFee: Option<nat>, items: set<Wrapped>, items': set<Wrapped>, top: Wrapped)
    requires InOrder(taken) && NoneForgotten(orig, taken, baseFee, items) && items - {top} <= items'
    ensures NoneForgotten(orig, Next(taken, top.from, Count(taken, top.from)), baseFee, items')
  {
    TakeOne(taken, top.from);
  }

  /** Dropping the top leaves the other heads next and less to do. */
  lemma PopKeeps(orig: Lists, txs: Lists, taken: seq<Taken>, baseFee: Option<nat>, items: set<Wrapped>, top: Wrapped)
    requires InOrder(taken) && AllNext(orig, txs, taken, baseFee, items) && OnePerAccount(items) && top in items
    ensures var taken' := Next(taken, top.from, Count(taken, top.from));
      && InOrder(taken')
      && AllNext(orig, txs, taken', baseFee, items - {top})
      && PendingIn(orig, taken', items - {top}) < PendingIn(orig, taken, items)
  {
    TakeOne(taken, top.from);
    assert IsNext(orig, txs, taken, baseFee, top);
    OthersNext(orig, txs, txs, taken, baseFee, items, top);
    PendingShrinks(orig, taken, items, items - {top}, top);
  }

  /** Replacing the top by its account's next transaction does the same. */
  lemma ShiftKeeps(orig: Lists, txs: Lists, taken: seq<Taken>, baseFee: Option<nat>, items: set<Wrapped>, top: Wrapped, next: Wrapped)
    requires InOrder(taken) && AllNext(orig, txs, taken, baseFee, items) && OnePerAccount(items) && top in items
    requires top.from in txs && txs[top.from] != [] && WithMinerFee(txs[top.from][0], top.from, baseFee) == Some(next)
    ensures var taken' := Next(taken, top.from, Count(taken, top.from));
      && InOrder(taken')
      && AllNext(orig, txs[top.from := txs[top.from][1..]], taken', baseFee, items - {top} + {next})
      && PendingIn(orig, taken', items - {top} + {next}) < PendingIn(orig, taken, items)
  {
    TakeOne(taken, top.from);
    var txs' := txs[top.from := txs[top.from][1..]];
    assert IsNext(orig, txs, taken, baseFee, top);
    assert IsNext(orig, txs', Next(taken, top.from, Count(taken, top.from)), baseFee, next);
    OthersNext(orig, txs, txs', taken, baseFee, items, top);
    PendingShrinks(orig, taken, items, items - {top} + {next}, top);
  }

  /** What has been taken and what is on offer. */
  datatype Selection = Selection(orig: Lists, baseFee: Option<nat>, taken: seq<Taken>, items: set<Wrapped>)

  /** A transaction that was offered, and whether to move on in its account or to drop the account. */
  datatype Offer = Offer(top: Wrapped, keep: bool)

  /** The transaction that takes the place of a kept one: its account's next, if that can pay. */
  ghost function Successor(s: Selection, top: Wrapped): Option<Wrapped> {
    var k := Count(s.taken, top.from) + 1;
    if top.from in s.orig && k < |s.orig[top.from]| then WithMinerFee(s.orig[top.from][k], top.from, s.baseFee) else None
  }

  ghost function Taking(s: Selection, o: Offer): Selection {
    var rest := s.items - {o.top};
    var next := Successor(s, o.top);
    s.(taken := Next(s.taken, o.top.from, Count(s.taken, o.top.from)),
       items := if o.keep && next.Some? then rest + {next.value} else rest)
  }

  ghost function After(s: Selection, offers: seq<Offer>): Selection {
    if offers == [] then s else Taking(After(s, offers[..|offers| - 1]), offers[|offers| - 1])
  }

  /** None pays higher fees, and none that pays as much was seen earlier. */
  ghost predicate Best(items: set<Wrapped>, w: Wrapped) {
    w in items && forall v <- items :: v.fees < w.fees || (v.fees == w.fees && w.tx.time <= v.tx.time)
  }

  /** Each offered transaction was a best one of those on offer at that moment. */
  ghost predicate BestFirst(s: Selection, offers: seq<Offer>) {
    offers == [] ||
    (BestFirst(s, offers[..|offers| - 1]) && Best(After(s, offers[..|offers| - 1]).items, offers[|offers| - 1].top))
  }

  lemma OfferNext(s: Selection, offers: seq<Offer>, o: Offer)
    ensures After(s, offers + [o]) == Taking(After(s, offers), o)
    ensures BestFirst(s, offers + [o]) <==> BestFirst(s, offers) && Best(After(s, offers).items, o.top)
  {
    assert (offers + [o])[..|offers|] == offers;
  }

  /** The start: every account's first transaction is on offer, if it can pay. */
  ghost function Start(lists: Lists, baseFee: Option<nat>): Selection {
    Selection(lists, baseFee, [], set a <- lists | lists[a] != [] && WithMinerFee(lists[a][0], a, baseFee).Some? ::
                                    WithMinerFee(lists[a][0], a, baseFee).value)
  }

  /** Once nothing is on offer, every account that could pay for its first transaction has been tried. */
  lemma {:induction false} AllTried(lists: Lists, baseFee: Option<nat>, offers: seq<Offer>, a: Address)
    requires After(Start(lists, baseFee), offers).items == {}
    requires a in lists && lists[a] != [] && WithMinerFee(lists[a][0], a, baseFee).Some?
    ensures exists i :: 0 <= i < |offers| && offers[i].top.from == a
  {
    var w := WithMinerFee(lists[a][0], a, baseFee).value;
    assert w in Start(lists, baseFee).items;
    Leaves(Start(lists, baseFee), offers, w);
  }

  /** What was on offer stays so until it is dealt with. */
  lemma {:induction false} Leaves(s: Selection, offers: seq<Offer>, w: Wrapped)
    requires w in s.items && w !in After(s, offers).items
    ensures exists i :: 0 <= i < |offers| && offers[i].top == w
  {
    var n := |offers| - 1;
    if w !in After(s, offers[..n]).items {
      Leaves(s, offers[..n], w);
      var i :| 0 <= i < n && offers[..n][i].top == w;
      assert offers[i].top == w;
    } else {
      assert offers[n].top == w;
    }
  }

  /** Every account whose first transaction can pay the base fee is among the items, and no other. */
  ghost predicate FirstOnes(orig: Lists, baseFee: Option<nat>, items: set<Wrapped>, accounts: set<Address>) {
    && (forall w <- items :: w.from in accounts && w.from in orig && orig[w.from] != []
                             && WithMinerFee(orig[w.from][0], w.from, baseFee) == Some(w))
    && (forall a <- accounts :: a in orig && orig[a] != [] && WithMinerFee(orig[a][0], a, baseFee).Some? ==>
          WithMinerFee(orig[a][0], a, baseFee).value in items)
  }

  lemma AppendHead(orig: Lists, baseFee: Option<nat>, heads: seq<Wrapped>, accounts: set<Address>, w: Wrapped)
    requires FirstOnes(orig, baseFee, Items(heads), accounts) && Distinct(heads) && w.from !in accounts
    requires w.from in orig && orig[w.from] != [] && WithMinerFee(orig[w.from][0], w.from, baseFee) == Some(w)
    ensures FirstOnes(orig, baseFee, Items(heads + [w]), accounts + {w.from}) && Distinct(heads + [w])
  {
    assert Items(heads + [w]) == Items(heads) + {w};
    forall i | 0 <= i < |heads| ensures heads[i].from != w.from {
      assert heads[i] in Items(heads);
    }
  }

  lemma FirstItems(lists: Lists, baseFee: Option<nat>, items: set<Wrapped>)
    requires FirstOnes(lists, baseFee, items, lists.Keys)
    ensures items == Start(lists, baseFee).items
  {
    forall w | w in Start(lists, baseFee).items ensures w in items {
      var a :| a in lists && lists[a] != [] && WithMinerFee(lists[a][0], a, baseFee) == Some(w);
      assert a in lists.Keys;
    }
  }

  /** Takes the first transaction of each account, in any order of accounts; accounts that cannot pay
      are deleted. */
  method Heads(orig: Lists, baseFee: Option<nat>) returns (heads: seq<Wrapped>, txs: Lists)
    requires forall a <- orig :: orig[a] != []
    ensures Distinct(heads) && FirstOnes(orig, baseFee, Items(heads), orig.Keys)
    ensures AllNext(orig, txs, [], baseFee, Items(heads))
  {
    heads, txs := [], orig;
    var todo := orig.Keys;
    while todo != {}
      invariant todo <= orig.Keys
      invariant Distinct(heads) && FirstOnes(orig, baseFee, Items(heads), orig.Keys - todo)
      invariant forall a <- todo :: a in txs && txs[a] == orig[a]
      invariant forall w <- Items(heads) :: w.from in txs && txs[w.from] == orig[w.from][1..]
      decreases todo
    {
      var from :| from in todo;
      var wrapped := WithMinerFee(orig[from][0], from, baseFee);
      if wrapped.None? {
        txs := txs - {from};
      } else {
        AppendHead(orig, baseFee, heads, orig.Keys - todo, wrapped.value);
        heads := heads + [wrapped.value];
        txs := txs[from := txs[from][1..]];
      }
      assert orig.Keys - todo + {from} == orig.Keys - (todo - {from});
      todo := todo - {from};
    }
    assert orig.Keys - {} == orig.Keys;
  }

  /** The offered transaction is the one at that position of its account's list. */
  ghost predicate Names(orig: Lists, baseFee: Option<nat>, t: Taken, o: Offer) {
    t.from in orig && t.index < |orig[t.from]| && WithMinerFee(orig[t.from][t.index], t.from, baseFee) == Some(o.top)
  }

  ghost predicate AllNamed(orig: Lists, baseFee: Option<nat>, ts: seq<Taken>, offers: seq<Offer>) {
    |ts| == |offers| && forall i :: 0 <= i < |offers| ==> Names(orig, baseFee, ts[i], offers[i])
  }

  ghost predicate Decides(keep: seq<bool>, offers: seq<Offer>) {
    |offers| <= |keep| && forall i :: 0 <= i < |offers| ==> offers[i].keep == keep[i]
  }

  lemma OneMore(orig: Lists, baseFee: Option<nat>, ts: seq<Taken>, n: nat, t: Taken, offers: seq<Offer>, o: Offer, keep: seq<bool>)
    requires n <= |ts| && AllNamed(orig, baseFee, ts[n..], offers) && Names(orig, baseFee, t, o)
    requires Decides(keep, offers) && |offers| < |keep| && o.keep == keep[|offers|]
    ensures AllNamed(orig, baseFee, (ts + [t])[n..], offers + [o]) && Decides(keep, offers + [o])
  {
    assert (ts + [t])[n..] == ts[n..] + [t];
  }

  class TransactionsByPriceAndNonce {
    var txs: Lists
    var heads: seq<Wrapped>
    const baseFee: Option<nat>
    ghost const orig: Lists // the lists at the start
    ghost var taken: seq<Taken> // what was offered and dealt with, in order

    ghost predicate Valid()
      reads this
    {
      && HeapFrom(heads, 0, |heads|) && Distinct(heads)
      && InOrder(taken) && AllNext(orig, txs, taken, baseFee, Items(heads))
      && NoneForgotten(orig, taken, baseFee, Items(heads))
    }

    constructor (lists: Lists, baseFee: Option<nat>)
      requires forall a <- lists :: lists[a] != []
      ensures Valid() && taken == [] && orig == lists && this.baseFee == baseFee
      ensures Now() == Start(lists, baseFee)
    {
      var hs, rest := Heads(lists, baseFee);
      FirstItems(lists, baseFee, Items(hs));
      hs := Init(hs);
      heads, txs := hs, rest;
      this.baseFee, orig, taken := baseFee, lists, [];
    }

    ghost function Now(): Selection
      reads this
    {
      Selection(orig, baseFee, taken, Items(heads))
    }

    /** The transactions that may still be offered. */
    ghost function Pending(): set<Taken>
      reads this
    {
      PendingIn(orig, taken, Items(heads))
    }

    /** A best head: none pays a higher tip, and none of the same tip was seen earlier. */
    function Peek(): (r: Option<Wrapped>)
      requires Valid()
      reads this
      ensures r.None? <==> heads == []
      ensures r.Some? ==> heads != [] && r.value == heads[0] && Best(Now().items, r.value)
    {
      if heads == [] then None
      else
        assert forall i :: 0 <= i < |heads| ==> !Less(heads[i], heads[0]) by {
          forall i | 0 <= i < |heads| ensures !Less(heads[i], heads[0]) {
            TopIsBest(heads, i);
          }
        }
        Some(heads[0])
    }

    /** Drops the top and with it the rest of its account. */
    method Pop()
      requires Valid() && heads != []
      modifies this`heads, this`taken
      ensures Valid() && Pending() < old(Pending())
      ensures Now() == Taking(old(Now()), Offer(old(heads)[0], false))
    {
      var top := heads[0];
      DistinctItems(heads);
      PopKeeps(orig, txs, taken, baseFee, Items(heads), top);
      StillRemembered(orig, taken, baseFee, Items(heads), Items(heads) - {top}, top);
      heads, top := PopTop(heads);
      taken := Next(taken, top.from, Count(taken, top.from));
    }

    /** Moves on to the next transaction of the top's account, if it can pay the base fee. */
    method Shift()
      requires Valid() && heads != []
      modifies this`heads, this`taken, this`txs
      ensures Valid() && Pending() < old(Pending())
      ensures Now() == Taking(old(Now()), Offer(old(heads)[0], true))
    {
      var top := heads[0];
      assert IsNext(orig, txs, taken, baseFee, top);
      var acc := top.from;
      if acc in txs && |txs[acc]| > 0 {
        var wrapped := WithMinerFee(txs[acc][0], acc, baseFee);
        if wrapped.Some? {
          Replace(wrapped.value);
          return;
        }
      }
      Pop();
    }

    method Deal(keep: bool) returns (o: Offer, ghost t: Taken)
      requires Valid() && heads != []
      modifies this`heads, this`taken, this`txs
      ensures Valid() && o.keep == keep && Best(old(Now()).items, o.top) && Now() == Taking(old(Now()), o)
      ensures taken == old(taken) + [t] && Names(orig, baseFee, t, o)
    {
      o := Offer(Peek().value, keep);
      t := Taken(o.top.from, Count(taken, o.top.from));
      assert IsNext(orig, txs, taken, baseFee, heads[0]);
      if keep {
        Shift();
      } else {
        Pop();
      }
    }

    /** Deals with offered transactions, moving on in the account or dropping it as `keep` says, while
        there are any: every offered transaction is a best one at that moment and the one that `taken`
        names. */
    method Run(keep: seq<bool>) returns (offers: seq<Offer>)
      requires Valid()
      modifies this`heads, this`taken, this`txs
      ensures Valid() && BestFirst(old(Now()), offers) && Now() == After(old(Now()), offers)
      ensures old(taken) <= taken && AllNamed(orig, baseFee, taken[|old(taken)|..], offers)
      ensures Decides(keep, offers)
      ensures |offers| < |keep| ==> heads == []
    {
      offers := [];
      while |offers| < |keep| && heads != []
        invariant Valid() && BestFirst(old(Now()), offers) && Now() == After(old(Now()), offers)
        invariant old(taken) <= taken && AllNamed(orig, baseFee, taken[|old(taken)|..], offers)
        invariant Decides(keep, offers)
        decreases |keep| - |offers|
      {
        ghost var before := taken;
        var o, t := Deal(keep[|offers|]);
        OfferNext(old(Now()), offers, o);
        OneMore(orig, baseFee, before, |old(taken)|, t, offers, o, keep);
        offers := offers + [o];
      }
    }

    method Replace(next: Wrapped)
      requires Valid() && heads != [] && heads[0].from in txs && txs[heads[0].from] != []
      requires WithMinerFee(txs[heads[0].from][0], heads[0].from, baseFee) == Some(next)
      modifies this`heads, this`taken, this`txs
      ensures Valid() && Pending() < old(Pending())
      ensures taken == Next(old(taken), old(heads)[0].from, Count(old(taken), old(heads)[0].from))
      ensures Items(heads) == Items(old(heads)) - {old(heads)[0]} + {next}
    {
      var top := heads[0];
      DistinctItems(heads);
      ShiftKeeps(orig, txs, taken, baseFee, Items(heads), top, next);
      StillRemembered(orig, taken, baseFee, Items(heads), Items(heads) - {top} + {next}, top);
      TopReplaced(heads, next);
      taken := Next(taken, top.from, Count(taken, top.from));
      txs := txs[top.from := txs[top.from][1..]];
      heads := FixTop(heads[0 := next]);
    }
  }

  lemma TopReplaced(h: seq<Wrapped>, next: Wrapped)
    requires h != [] && Distinct(h) && HeapFrom(h, 0, |h|) && next.from == h[0].from
    ensures Distinct(h[0 := next]) && HeapFrom(h[0 := next], 1, |h|)
    ensures Items(h[0 := next]) == Items(h) - {h[0]} + {next}
  {
    var h' := h[0 := next];
    assert h'[0] == next;
    forall w | w in h && w != h[0] ensures w in h' {
      var i :| 0 <= i < |h| && h[i] == w;
      assert h'[i] == w;
    }
    forall w | w in h' && w != next ensures w in h && w != h[0] {
      var i :| 0 <= i < |h| && h'[i] == w;
      assert i > 0 && h[i].from != h[0].from;
    }
  }
}
