/** The header chain: inserting linked headers, reorganising the canonical index to them,
    rewinding it, and finding ancestors through it. */
module HeaderChain {
  import opened Wrappers
  import opened BlockTree

  /** Each header is the parent of the next. */
  predicate Linked(chain: seq<Header>) {
    forall i, j {:trigger chain[i], chain[j]} :: 0 <= i < |chain| && j == i + 1 && j < |chain| ==>
      chain[j].parent == chain[i].hash && chain[j].number == chain[i].number + 1
  }

  /** Stored children of the header lie one above it, as their own validation ensured. */
  predicate ChildrenAbove(hs: Headers, header: Header) {
    forall h <- hs :: hs[h].parent == header.hash ==> hs[h].number == header.number + 1
  }

  /** What a header chain insert may rely on: a validated, linked chain on a stored parent,
      whose content agrees with what is stored under the same hashes and above it. */
  predicate Insertable(hs: Headers, chain: seq<Header>) {
    && |chain| > 0 && Linked(chain)
    && chain[0].parent in hs && hs[chain[0].parent].number + 1 == chain[0].number
    && (forall i :: 0 <= i < |chain| ==>
          chain[i].hash != ZERO_HASH && (chain[i].hash in hs ==> hs[chain[i].hash] == chain[i]))
    && (forall i {:trigger ChildrenAbove(hs, chain[i])} :: 0 <= i < |chain| ==> ChildrenAbove(hs, chain[i]))
    && forall i, j :: 0 <= i < j < |chain| ==> chain[i].hash != chain[j].hash
  }

  function WithHeaders(hs: Headers, chain: seq<Header>): Headers {
    if |chain| == 0 then hs
    else var init := WithHeaders(hs, chain[..|chain| - 1]); init[chain[|chain| - 1].hash := chain[|chain| - 1]]
  }

  /** Adjacent entries from `lo` to `hi` are stored headers linked by parent hash. */
  ghost predicate LinkedRange(hs: Headers, idx: Index, lo: nat, hi: int) {
    && (forall n: nat :: lo <= n <= hi ==> n in idx && idx[n] in hs && hs[idx[n]].number == n)
    && forall i: nat, j: nat {:trigger idx[i], idx[j]} ::
         lo <= i && j == i + 1 && j <= hi ==> hs[idx[j]].parent == idx[i]
  }

  datatype Target = ByNumber(number: nat) | ByTime(time: nat)

  predicate Reached(target: Target, header: Header) {
    match target
    case ByNumber(n) => header.number <= n
    case ByTime(t) => header.time <= t
  }

  /** The headers at or below height `n`. */
  function UpTo(hs: Headers, n: nat): Headers {
    map h | h in hs && hs[h].number <= n :: hs[h]
  }

  predicate HasHeader(hs: Headers, cached: set<Hash>, h: Hash, n: nat) {
    h in cached || (h in hs && hs[h].number == n)
  }

  /** The headers of the chain from the first unknown one on; they are written even if known. */
  method NewHeaders(hs: Headers, cached0: set<Hash>, chain: seq<Header>) returns (batch: Headers, inserted: nat)
    requires ValidTree(hs) && Insertable(hs, chain) && cached0 <= hs.Keys
    ensures hs + batch == WithHeaders(hs, chain)
    ensures inserted == |chain| - KnownPrefix(hs, chain)
    ensures CacheAgrees(hs, batch)
  {
    batch, inserted := map[], 0;
    var cached, parentKnown := cached0, true;
    ghost var known := KnownPrefix(hs, chain);
    for i := 0 to |chain|
      invariant parentKnown == (i <= known)
      invariant inserted == if i <= known then 0 else i - known
      invariant hs + batch == WithHeaders(hs, chain[..i]) && CacheAgrees(hs, batch)
      invariant parentKnown ==> cached == cached0
    {
      var header := chain[i];
      var hash := if i < |chain| - 1 then chain[i + 1].parent else header.hash;
      WriteOneMore(hs, batch, chain, i);
      KnownAt(hs, cached0, chain, i);
      var alreadyKnown := parentKnown && HasHeader(hs, cached, hash, header.number);
      if !alreadyKnown {
        batch := batch[hash := header];
        inserted := inserted + 1;
        cached := cached + {hash};
      }
      parentKnown := alreadyKnown;
    }
    assert chain[..|chain|] == chain;
  }

  /** Up to the first unknown header, looking up tells the known ones. */
  lemma KnownAt(hs: Headers, cached: set<Hash>, chain: seq<Header>, i: nat)
    requires Insertable(hs, chain) && cached <= hs.Keys && i < |chain|
    ensures i <= KnownPrefix(hs, chain) ==> (HasHeader(hs, cached, chain[i].hash, chain[i].number) <==> i < KnownPrefix(hs, chain))
    ensures i < |chain| - 1 ==> chain[i + 1].parent == chain[i].hash
  {
  }

  /** A chain can be made canonical: it is empty, sits on the head, or its walk down meets the
      canonical chain or height zero. */
  ghost predicate Joins(hs: Headers, idx: Index, head: Header, chain: seq<Header>) {
    |chain| == 0 || chain[0].parent == head.hash || Meets(hs, idx, chain[0].hash)
  }

  /** Some ancestor of `h`, itself included, is canonical or at height zero. */
  ghost predicate Meets(hs: Headers, idx: Index, h: Hash) {
    exists k: nat :: MeetsAt(hs, idx, h, k)
  }

  ghost predicate MeetsAt(hs: Headers, idx: Index, h: Hash, k: nat) {
    var a := Ancestor(hs, h, k);
    a.Some? && (OnIndex(idx, a.value) || a.value.number == 0)
  }

  /** In a parent-closed store every header has an ancestor at height zero. */
  lemma {:induction false} RootedMeets(hs: Headers, idx: Index, h: Hash)
    requires ValidTree(hs) && Rooted(hs) && h in hs
    ensures Meets(hs, idx, h)
    decreases hs[h].number
  {
    if hs[h].number == 0 {
      assert MeetsAt(hs, idx, h, 0);
    } else {
      assert ParentStored(hs, h) && ParentOf(hs, h, hs[h].parent);
      RootedMeets(hs, idx, hs[h].parent);
      var k: nat :| MeetsAt(hs, idx, hs[h].parent, k);
      assert MeetsAt(hs, idx, h, k + 1);
    }
  }

  /** The same step by step. */
  ghost predicate Crosses(hs: Headers, idx: Index, header: Header)
    decreases header.number
  {
    || OnIndex(idx, header) || header.number == 0
    || (header.parent in hs && hs[header.parent].number < header.number && Crosses(hs, idx, hs[header.parent]))
  }

  lemma {:induction false} CrossesIsMeets(hs: Headers, idx: Index, header: Header)
    requires ValidTree(hs) && Stored(hs, header)
    ensures Crosses(hs, idx, header) <==> Meets(hs, idx, header.hash)
    decreases header.number
  {
    if OnIndex(idx, header) || header.number == 0 {
      assert MeetsAt(hs, idx, header.hash, 0);
    } else {
      if header.parent in hs {
        assert ParentOf(hs, header.hash, header.parent);
        CrossesIsMeets(hs, idx, hs[header.parent]);
      }
      if k: nat :| MeetsAt(hs, idx, header.hash, k) {
        assert MeetsAt(hs, idx, header.parent, k - 1);
      }
      if k: nat :| MeetsAt(hs, idx, header.parent, k) {
        assert MeetsAt(hs, idx, header.hash, k + 1);
      }
    }
  }

  class HeaderChain {
    // database
    var headers: Headers
    var canonical: Index
    var headHeaderHash: Hash
    // memory
    const genesis: Header
    var currentHeader: Header
    var currentHeaderHash: Hash
    var headerCache: Headers
    var numberCache: set<Hash>
    var stopped: bool // the interrupt flag, which is never lowered again

    /** What lookups see: the database and the cache, which an aborted write leaves ahead of it. */
    ghost function Merged(): Headers
      reads this`headers, this`headerCache
    {
      headers + headerCache
    }

    ghost predicate Valid()
      reads this
    {
      && ValidTree(headers) && ValidTree(Merged()) && Stored(headers, genesis) && genesis.number == 0
      && Canonical(headers, canonical, currentHeader)
      && currentHeaderHash == currentHeader.hash && headHeaderHash == currentHeader.hash
      && CacheAgrees(headers, headerCache)
      && (!stopped ==> headerCache.Keys <= headers.Keys && numberCache <= headers.Keys)
    }

    /** Every parent is stored. */
    ghost predicate Closed()
      reads this`headers, this`headerCache
    {
      Rooted(headers) && Rooted(Merged())
    }

    constructor (genesis: Header)
      requires genesis.number == 0 && genesis.parent == ZERO_HASH && genesis.hash != ZERO_HASH
      ensures Valid() && Closed() && currentHeader == genesis && !stopped
    {
      this.genesis := genesis;
      headers, canonical := map[genesis.hash := genesis], map[0 := genesis.hash];
      headHeaderHash, currentHeader, currentHeaderHash := genesis.hash, genesis, genesis.hash;
      headerCache, numberCache, stopped := map[], {}, false;
      new;
      assert Merged() == headers;
    }

    /** A header chain over an existing database, which may have gaps. */
    constructor Load(genesis: Header, headers: Headers, canonical: Index, head: Header)
      requires ValidTree(headers) && Stored(headers, genesis) && genesis.number == 0 && Stored(headers, head)
      ensures Sound() && (Valid() <==> Canonical(headers, canonical, head)) && (Closed() <==> Rooted(headers))
      ensures this.genesis == genesis && this.headers == headers && this.canonical == canonical && currentHeader == head && !stopped
      ensures Merged() == headers
    {
      this.genesis, this.headers, this.canonical := genesis, headers, canonical;
      headHeaderHash, currentHeader, currentHeaderHash := head.hash, head, head.hash;
      headerCache, numberCache, stopped := map[], {}, false;
      new;
      assert Merged() == headers;
    }

    /** A cached header is returned whatever the height asked for. */
    function GetHeader(h: Hash, n: int): Option<Header>
      reads this`headers, this`headerCache
    {
      if h in headerCache then Some(headerCache[h])
      else if h in headers && headers[h].number == n then Some(headers[h])
      else None
    }

    /** Writes headers on a stored parent. An interrupt after the loop discards the batch, but
        not what the loop put into the caches. */
    method WriteHeaders(chain: seq<Header>, interrupted: bool) returns (written: Option<nat>)
      requires Valid() && !stopped && (|chain| > 0 ==> Insertable(headers, chain))
      modifies this`headers, this`headerCache, this`numberCache, this`stopped
      ensures Valid() && (old(Closed()) ==> Closed())
      ensures written.None? <==> |chain| > 0 && interrupted
      ensures stopped == written.None?
      ensures headers == if written.Some? then WithHeaders(old(headers), chain) else old(headers)
      ensures Merged() == WithHeaders(old(headers), chain)
      ensures written.Some? ==> written.value == |chain| - KnownPrefix(old(headers), chain)
    {
      CacheInside(headers, headerCache);
      if |chain| == 0 {
        return Some(0);
      }
      WriteWhole(headers, chain);
      var batch, inserted := FillCaches(chain);
      CanonicalGrows(headers, headers + batch, canonical, currentHeader);
      if interrupted {
        stopped := true;
        return None;
      }
      PutHeaders(batch);
      return Some(inserted);
    }

    method PutHeaders(batch: Headers)
      modifies this`headers
      ensures headers == old(headers) + batch
    {
      headers := headers + batch;
    }

    /** The loop of a write: prepares the batch and puts it into the caches at once. */
    method FillCaches(chain: seq<Header>) returns (batch: Headers, inserted: nat)
      requires ValidTree(headers) && Insertable(headers, chain) && CacheAgrees(headers, headerCache)
      requires headerCache.Keys <= headers.Keys && numberCache <= headers.Keys
      modifies this`headerCache, this`numberCache
      ensures headers + batch == WithHeaders(headers, chain) && inserted == |chain| - KnownPrefix(headers, chain)
      ensures CacheAgrees(headers, headerCache) && CacheAgrees(headers + batch, headerCache)
      ensures headerCache.Keys <= (headers + batch).Keys && numberCache <= (headers + batch).Keys
      ensures headers + headerCache == headers + batch && headers + batch + headerCache == headers + batch
    {
      batch, inserted := NewHeaders(headers, headerCache.Keys + numberCache, chain);
      CacheMerges(headers, headerCache, batch);
      headerCache, numberCache := headerCache + batch, numberCache + batch.Keys;
    }

    /** Collects the canonical entries above `n` for deletion. */
    method CanonicalAbove(n: nat) returns (above: set<nat>)
      requires forall m: nat :: m in canonical <==> m <= currentHeader.number
      ensures forall m: nat :: m in above <==> m in canonical && m > n
    {
      above := {};
      var i := n + 1;
      while i in canonical
        invariant i > n
        invariant forall m: nat :: m in above <==> m in canonical && n < m < i
        decreases currentHeader.number + 1 - i
      {
        above := above + {i};
        i := i + 1;
      }
    }

    /** Overwrites stale canonical entries from `first` downwards to the cross link of the two
        chains. Reads see the index without the batch. */
    method CrossLink(first: Header, batch0: Index) returns (ok: bool, batch: Index)
      requires ValidTree(headers) && Canonical(headers, canonical, currentHeader) && Stored(headers, first)
      requires CacheAgrees(headers, headerCache) && headerCache.Keys <= headers.Keys
      requires Restricts(canonical, batch0, first.number)
      ensures ok <==> Crosses(headers, canonical, first)
      ensures ok ==> Bridged(headers, batch0, batch, first)
    {
      batch := batch0;
      var header := first;
      var headNumber: nat, headHash := first.number, first.hash;
      while !(headNumber in canonical && canonical[headNumber] == headHash)
        invariant Stored(headers, header) && header.hash == headHash && header.number == headNumber <= first.number
        invariant Bridging(headers, batch0, batch, first, header)
        invariant Crosses(headers, canonical, first) == Crosses(headers, canonical, header)
        decreases headNumber
      {
        BridgeWrites(headers, batch0, batch, first, header);
        batch := batch[headNumber := headHash];
        if headNumber == 0 {
          return true, batch;
        }
        assert header.parent in headers ==> ParentOf(headers, header.hash, header.parent);
        var parent := GetHeader(header.parent, header.number - 1);
        if parent.None? {
          return false, batch;
        }
        BridgeSteps(headers, batch0, batch, first, header, parent.value);
        headHash, headNumber, header := header.parent, header.number - 1, parent.value;
      }
      BridgeLands(headers, canonical, batch0, batch, first, header, currentHeader);
      ok := true;
    }

    /** The index with a stored, linked chain made canonical, as a batch still to be written. */
    method PlanReorg(chain: seq<Header>) returns (ok: bool, batch: Index)
      requires ValidTree(headers) && Canonical(headers, canonical, currentHeader)
      requires currentHeaderHash == currentHeader.hash
      requires CacheAgrees(headers, headerCache) && headerCache.Keys <= headers.Keys
      requires |chain| > 0 && Linked(chain) && forall i :: 0 <= i < |chain| ==> Stored(headers, chain[i])
      ensures ok <==> Joins(headers, canonical, currentHeader, chain)
      ensures ok ==> Canonical(headers, batch, chain[|chain| - 1])
    {
      var first, last := chain[0], chain[|chain| - 1];
      LinkedNumbers(chain, |chain| - 1);
      batch := canonical;
      if first.parent != currentHeaderHash {
        var above := CanonicalAbove(last.number);
        CrossesIsMeets(headers, canonical, first);
        ok, batch := CrossLink(first, canonical - above);
        if !ok {
          return;
        }
        BridgedBelow(headers, canonical - above, batch, first);
      } else {
        assert ParentOf(headers, first.hash, currentHeader.hash);
      }
      batch := Extend(headers, batch, chain);
      ok := true;
    }

    /** Makes a stored, linked chain canonical. An error comes before the batch is written. */
    method Reorg(chain: seq<Header>) returns (ok: bool)
      requires ValidTree(headers) && Canonical(headers, canonical, currentHeader)
      requires currentHeaderHash == currentHeader.hash
      requires CacheAgrees(headers, headerCache) && headerCache.Keys <= headers.Keys
      requires Linked(chain) && forall i :: 0 <= i < |chain| ==> Stored(headers, chain[i])
      modifies this`canonical, this`headHeaderHash, this`currentHeader, this`currentHeaderHash
      ensures !ok || |chain| == 0 ==> unchanged(this)
      ensures ok <==> old(Joins(headers, canonical, currentHeader, chain))
      ensures ok && |chain| > 0 ==>
        && currentHeader == chain[|chain| - 1] && Canonical(headers, canonical, currentHeader)
        && currentHeaderHash == currentHeader.hash && headHeaderHash == currentHeader.hash
    {
      if |chain| == 0 {
        return true;
      }
      var batch;
      ok, batch := PlanReorg(chain);
      if ok {
        var last := chain[|chain| - 1];
        canonical, headHeaderHash := batch, last.hash;
        currentHeaderHash, currentHeader := last.hash, last;
      }
    }

    /** Inserts a linked chain and makes its last header the head, unless that one is canonical
        already. `early` and `late` are the two readings of the interrupt flag. */
    method InsertHeaderChain(chain: seq<Header>, early: bool, late: bool) returns (ok: bool)
      requires Valid() && Insertable(headers, chain)
      modifies this
      ensures Valid() && (old(Closed()) ==> Closed())
      // an interrupt stops the insert before anything is written
      ensures stopped <==> old(stopped) || early || late
      ensures stopped ==> !ok && unchanged(`headers) && unchanged(`canonical) && unchanged(`currentHeader)
      // otherwise the headers are written, whether or not they can become canonical
      ensures !stopped ==> headers == WithHeaders(old(headers), chain)
      ensures !stopped ==>
        (ok <==> OnIndex(old(canonical), chain[|chain| - 1]) || Joins(headers, old(canonical), old(currentHeader), chain))
      ensures !stopped && (!ok || OnIndex(old(canonical), chain[|chain| - 1])) ==>
        unchanged(`canonical) && unchanged(`currentHeader)
      ensures ok && !OnIndex(old(canonical), chain[|chain| - 1]) ==> currentHeader == chain[|chain| - 1]
      // in a parent-closed store they can
      ensures old(Closed()) ==> (ok <==> !stopped)
      ensures Inserts(old(Now()), chain, early, late, ok, Now())
    {
      if stopped || early {
        stopped := true;
        return false;
      }
      WriteWhole(headers, chain);
      if Closed() {
        RootedMeets(WithHeaders(headers, chain), canonical, chain[0].hash);
      }
      var written := WriteHeaders(chain, late);
      if written.None? {
        return false;
      }
      CacheInside(headers, headerCache);
      var last := chain[|chain| - 1];
      if OnIndex(canonical, last) && last.number <= currentHeader.number {
        return true;
      }
      ok := Reorg(chain);
    }

    /** The `ancestor`-th ancestor of a header and its height, or the zero hash. A step to a
        parent costs one of `maxNonCanonical`; `left` is what remains of it. */
    method GetAncestor(hash0: Hash, number0: nat, ancestor0: nat, maxNonCanonical: nat)
      returns (hash: Hash, number: nat, left: nat)
      requires Valid() && hash0 != ZERO_HASH
      requires hash0 in Merged() ==> Merged()[hash0].number == number0
      ensures hash != ZERO_HASH ==>
        ancestor0 <= number0 && AncestorHash(Merged(), hash0, ancestor0) == Some(hash) && number == number0 - ancestor0
      ensures hash == ZERO_HASH <==>
        || ancestor0 > number0
        || AncestorHash(Merged(), hash0, ancestor0) in {None, Some(ZERO_HASH)}
        || (ancestor0 > 1 && Detour(Merged(), canonical, hash0, number0, ancestor0) > maxNonCanonical)
      ensures hash != ZERO_HASH && ancestor0 > 1 ==>
        left + Detour(Merged(), canonical, hash0, number0, ancestor0) == maxNonCanonical
      ensures left <= maxNonCanonical
    {
      ghost var all := Merged();
      CanonicalGrows(headers, all, canonical, currentHeader);
      hash, number, left := hash0, number0, maxNonCanonical;
      if ancestor0 > number0 {
        return ZERO_HASH, 0, left;
      }
      if ancestor0 == 1 {
        var header := GetHeader(hash, number);
        if header.None? {
          return ZERO_HASH, 0, left;
        }
        return header.value.parent, number - 1, left;
      }
      var ancestor: nat := ancestor0;
      while ancestor != 0
        invariant ancestor <= number && number - ancestor == number0 - ancestor0
        invariant hash in all ==> all[hash].number == number
        invariant AncestorHash(all, hash0, ancestor0) == AncestorHash(all, hash, ancestor)
        invariant left <= maxNonCanonical
        invariant Detour(all, canonical, hash0, number0, ancestor0) ==
                  maxNonCanonical - left + Detour(all, canonical, hash, number, ancestor)
      {
        if number in canonical && canonical[number] == hash {
          LinkedWalk(all, canonical, number, ancestor);
          AncestorHashStored(all, hash, ancestor);
          return canonical[number - ancestor], number - ancestor, left;
        }
        if left == 0 {
          return ZERO_HASH, 0, 0;
        }
        left, ancestor := left - 1, ancestor - 1;
        var header := GetHeader(hash, number);
        if header.None? {
          return ZERO_HASH, 0, left;
        }
        assert header.value.parent in all ==> ParentOf(all, hash, header.value.parent);
        hash, number := header.value.parent, number - 1;
      }
    }

    ghost function Now(): State
      reads this
    {
      State(headers, Merged(), canonical, currentHeader, stopped)
    }

    /** Any sequence of inserts and rewinds, interrupted or not and with gaps in the store or not, keeps the
        canonical index equal to the ancestor chain of the current header. The trace tells every operation. */
    method Run(ops: seq<Operation>) returns (ghost trace: seq<Moment>)
      requires Valid() && OneRoot(headers, genesis)
      modifies this
      ensures Valid() && OneRoot(headers, genesis) && (old(Closed()) ==> Closed())
      ensures AncestorIndex(headers, canonical, currentHeader)
      ensures Trace(genesis, old(Now()), ops, trace, Now())
    {
      trace := RunAll(ops, |ops|);
      assert ops[..|ops|] == ops;
      CanonicalIsAncestorIndex(headers, canonical, currentHeader);
    }

    method RunAll(ops: seq<Operation>, n: nat) returns (ghost trace: seq<Moment>)
      requires n <= |ops| && Valid() && OneRoot(headers, genesis)
      modifies this
      ensures Valid() && OneRoot(headers, genesis) && (old(Closed()) ==> Closed())
      ensures Trace(genesis, old(Now()), ops[..n], trace, Now())
    {
      if n == 0 {
        return [];
      }
      trace := RunAll(ops, n - 1);
      ghost var m := Apply(ops[n - 1]);
      TraceGrows(genesis, old(Now()), ops, n - 1, trace, m);
      trace := trace + [m];
    }

    method Apply(op: Operation) returns (ghost m: Moment)
      requires Valid() && OneRoot(headers, genesis)
      modifies this
      ensures Valid() && OneRoot(headers, genesis) && (old(Closed()) ==> Closed())
      ensures m.before == old(Now()) && m.op == op && m.after == Now() && Happens(genesis, m)
    {
      ghost var before := Now();
      var ok := false;
      match op {
        case Insert(chain, early, late) => ok := ApplyInsert(chain, early, late);
        case Rewind(target, forced) => ApplyRewind(target, forced);
      }
      m := Moment(before, op, ok, Now());
    }

    method ApplyInsert(chain: seq<Header>, early: bool, late: bool) returns (ok: bool)
      requires Valid() && OneRoot(headers, genesis)
      modifies this
      ensures Valid() && OneRoot(headers, genesis) && (old(Closed()) ==> Closed())
      ensures if old(Insertable(headers, chain)) then Inserts(old(Now()), chain, early, late, ok, Now())
              else Now() == old(Now()) && !ok
    {
      ok := false;
      if Insertable(headers, chain) {
        InsertKeepsRoot(headers, chain, genesis);
        ok := InsertHeaderChain(chain, early, late);
      }
    }

    method ApplyRewind(target: Target, forced: Header -> Option<Header>)
      requires Valid() && OneRoot(headers, genesis)
      modifies this
      ensures Valid() && OneRoot(headers, genesis) && (old(Closed()) ==> Closed())
      ensures if Reached(target, genesis) then Rewinds(genesis, old(Now()), target, forced, Now()) else Now() == old(Now())
    {
      if Reached(target, genesis) {
        assert IsRoot(headers, canonical[0]);
        SurvivorsKeepRoot(headers, Dropped(headers, Merged(), forced, target, currentHeader), genesis);
        SetHead(target, forced);
      }
    }

    /** What a rewind may start from; the index may be broken and parents may be missing. */
    ghost predicate Sound()
      reads this
    {
      && ValidTree(headers) && ValidTree(Merged()) && Stored(headers, genesis) && genesis.number == 0
      && Stored(headers, currentHeader) && currentHeaderHash == currentHeader.hash && headHeaderHash == currentHeader.hash
      && CacheAgrees(headers, headerCache)
    }

    /** Steps the head markers down to the first header that meets the target, collecting the
        heights to delete. The index and the headers are left as they are for the batch. */
    method RewindMarkers(target0: Target, forced: Header -> Option<Header>) returns (deleted: set<nat>)
      requires Sound() && Reached(target0, genesis)
      modifies this`currentHeader, this`currentHeaderHash, this`headHeaderHash
      ensures currentHeaderHash == currentHeader.hash && headHeaderHash == currentHeader.hash
      ensures currentHeader == Landing(Merged(), genesis, forced, target0, old(currentHeader))
      ensures deleted == Dropped(headers, Merged(), forced, target0, old(currentHeader))
    {
      if Reached(target0, currentHeader) {
        return {};
      }
      ghost var all, head := Merged(), currentHeader;
      deleted := HeightsAbove(headers, currentHeader.number);
      var target := target0;
      while !Reached(target, currentHeader)
        invariant currentHeaderHash == currentHeader.hash && headHeaderHash == currentHeader.hash
        invariant Stored(all, currentHeader) && Reached(target, genesis)
        invariant Landing(all, genesis, forced, target0, head) == Landing(all, genesis, forced, target, currentHeader)
        invariant Dropped(headers, all, forced, target0, head) == deleted + Passed(all, forced, target, currentHeader)
        decreases if Reached(target, currentHeader) then 0 else currentHeader.number + 1
      {
        var hdr := currentHeader;
        deleted := deleted + {hdr.number};
        target := StepDown(target, forced);
      }
    }

    /** Moves the markers to the parent, or to genesis if it is missing. */
    method StepDown(target: Target, forced: Header -> Option<Header>) returns (target': Target)
      requires ValidTree(Merged()) && Stored(Merged(), currentHeader) && Stored(headers, genesis) && genesis.number == 0
      requires CacheAgrees(headers, headerCache) && Reached(target, genesis) && !Reached(target, currentHeader)
      modifies this`currentHeader, this`currentHeaderHash, this`headHeaderHash
      ensures currentHeaderHash == currentHeader.hash && headHeaderHash == currentHeader.hash
      ensures Stored(Merged(), currentHeader) && Reached(target', genesis)
      ensures var hdr, all := old(currentHeader), Merged();
        && Landing(all, genesis, forced, target, hdr) == Landing(all, genesis, forced, target', currentHeader)
        && Passed(all, forced, target, hdr) == {hdr.number} + Passed(all, forced, target', currentHeader)
      ensures Reached(target', currentHeader) || currentHeader.number < old(currentHeader).number
    {
      var hdr := currentHeader;
      var found := GetHeader(hdr.parent, hdr.number - 1);
      var parent := if found.Some? then found.value else genesis;
      assert hdr.parent in Merged() ==> ParentOf(Merged(), hdr.hash, hdr.parent);
      target' := Lowered(target, forced(parent));
      headHeaderHash, currentHeader, currentHeaderHash := parent.hash, parent, parent.hash;
    }

    /** Rewinds the head step by step until it meets the target, which `forced`, the outcome of the
        callback that moves the block head, may lower on the way, and deletes the heights passed with
        those above the old head, up to the first empty one. The store may have gaps: from a missing
        parent the rewind goes on at genesis. */
    method SetHead(target: Target, forced: Header -> Option<Header>)
      requires Sound() && Reached(target, genesis)
      modifies this
      ensures stopped == old(stopped) && Merged() == headers
      ensures currentHeader == Landing(old(Merged()), genesis, forced, target, old(currentHeader))
      ensures headers == Surviving(old(headers), old(Dropped(headers, Merged(), forced, target, currentHeader)))
      ensures canonical == old(canonical) - old(Dropped(headers, Merged(), forced, target, currentHeader))
      // a canonical index that starts at genesis stays one
      ensures old(Valid()) && OnIndex(old(canonical), genesis) ==> Valid()
      // in a parent-closed store nothing is left above the new head
      ensures old(Valid() && Rooted(headers)) ==> Valid() && Closed()
      ensures old(Valid() && Rooted(headers)) && currentHeader != old(currentHeader) ==>
        headers == UpTo(old(headers), currentHeader.number)
    {
      ghost var hs, all, idx, head := headers, Merged(), canonical, currentHeader;
      ghost var steady := Valid();
      var deleted := RewindMarkers(target, forced);
      Prune(deleted);
      if steady {
        CanonicalGrows(hs, all, idx, head);
        if Rooted(hs) {
          assert IsRoot(hs, genesis.hash) && IsRoot(hs, idx[0]);
          CutRewinds(hs, all, idx, head, genesis, forced, target);
        }
        if OnIndex(idx, genesis) {
          KeepsCanonical(hs, all, idx, head, genesis, forced, target);
        }
      }
    }

    /** Deletes the headers and the index entries at the collected heights, and empties the caches. */
    method Prune(deleted: set<nat>)
      modifies this`headers, this`canonical, this`headerCache, this`numberCache
      ensures headers == Surviving(old(headers), deleted) && canonical == old(canonical) - deleted
      ensures headerCache == map[] && numberCache == {} && Merged() == headers
    {
      headers := Surviving(headers, deleted);
      canonical := canonical - deleted;
      headerCache, numberCache := map[], {};
      assert Merged() == headers;
    }
  }

  datatype Operation = Insert(chain: seq<Header>, early: bool, late: bool) | Rewind(target: Target, forced: Header -> Option<Header>)

  /** The header chain at one moment; `merged` is what lookups see. */
  datatype State = State(headers: Headers, merged: Headers, canonical: Index, head: Header, stopped: bool)

  datatype Moment = Moment(before: State, op: Operation, ok: bool, after: State)

  /** Genesis is the only header at height zero. */
  ghost predicate OneRoot(hs: Headers, genesis: Header) {
    forall h :: IsRoot(hs, h) ==> h == genesis.hash
  }

  lemma InsertKeepsRoot(hs: Headers, chain: seq<Header>, genesis: Header)
    requires ValidTree(hs) && Insertable(hs, chain) && OneRoot(hs, genesis)
    ensures OneRoot(WithHeaders(hs, chain), genesis)
  {
    var after := WithHeaders(hs, chain);
    WriteWhole(hs, chain);
    assert chain[..|chain|] == chain;
    forall h | IsRoot(after, h) ensures h == genesis.hash {
      PrefixKeys(hs, chain, |chain|, h);
      if h in hs {
        assert IsRoot(hs, h);
      } else {
        var j :| 0 <= j < |chain| && h == chain[j].hash;
        LinkedNumbers(chain, j);
      }
    }
  }

  lemma SurvivorsKeepRoot(hs: Headers, deleted: set<nat>, genesis: Header)
    requires OneRoot(hs, genesis)
    ensures OneRoot(Surviving(hs, deleted), genesis)
  {
    forall h | IsRoot(Surviving(hs, deleted), h) ensures h == genesis.hash {
      assert IsRoot(hs, h);
    }
  }

  /** What an insert does. An interrupt leaves the database alone, though a late one leaves the caches ahead
      of it. Otherwise the headers are stored, and if they join the index the last one becomes the head with
      its ancestor index, unless it was canonical already. */
  ghost predicate Inserts(s: State, chain: seq<Header>, early: bool, late: bool, ok: bool, t: State)
    requires |chain| > 0
  {
    var last := chain[|chain| - 1];
    && (t.stopped <==> s.stopped || early || late)
    && if t.stopped then
         && !ok && t.headers == s.headers && t.canonical == s.canonical && t.head == s.head
         && t.merged == if s.stopped || early then s.merged else WithHeaders(s.headers, chain)
       else
         && t.headers == WithHeaders(s.headers, chain) && t.merged == t.headers
         && (ok <==> OnIndex(s.canonical, last) || Joins(t.headers, s.canonical, s.head, chain))
         && if !ok || OnIndex(s.canonical, last) then t.canonical == s.canonical && t.head == s.head
            else t.head == last && Canonical(t.headers, t.canonical, last)
  }

  ghost predicate Rewinds(genesis: Header, s: State, target: Target, forced: Header -> Option<Header>, t: State) {
    var deleted := Dropped(s.headers, s.merged, forced, target, s.head);
    && t.head == Landing(s.merged, genesis, forced, target, s.head) && t.stopped == s.stopped
    && t.headers == Surviving(s.headers, deleted) && t.merged == t.headers && t.canonical == s.canonical - deleted
  }

  ghost predicate Happens(genesis: Header, m: Moment) {
    match m.op
    case Insert(chain, early, late) =>
      if Insertable(m.before.headers, chain) then Inserts(m.before, chain, early, late, m.ok, m.after)
      else m.after == m.before && !m.ok
    case Rewind(target, forced) =>
      if Reached(target, genesis) then Rewinds(genesis, m.before, target, forced, m.after) else m.after == m.before
  }

  /** The operations of a run, each from where the last one ended. */
  ghost predicate Trace(genesis: Header, start: State, ops: seq<Operation>, trace: seq<Moment>, end: State) {
    && |trace| == |ops|
    && if |trace| == 0 then end == start
       else
         var n := |trace| - 1;
         && trace[n].op == ops[n] && Happens(genesis, trace[n]) && trace[n].after == end
         && Trace(genesis, start, ops[..n], trace[..n], trace[n].before)
  }

  lemma TraceGrows(genesis: Header, start: State, ops: seq<Operation>, i: nat, trace: seq<Moment>, m: Moment)
    requires i < |ops| && Trace(genesis, start, ops[..i], trace, m.before) && Happens(genesis, m) && m.op == ops[i]
    ensures Trace(genesis, start, ops[..i + 1], trace + [m], m.after)
  {
    var all := trace + [m];
    assert all[..|all| - 1] == trace && ops[..i + 1][..i] == ops[..i];
    assert all[|all| - 1] == m;
  }

  /** How many of `k` parent steps from `h` at height `n` are taken before a canonical block is met. */
  ghost function Detour(hs: Headers, idx: Index, h: Hash, n: nat, k: nat): nat
    decreases k
  {
    if k == 0 || (n in idx && idx[n] == h) || h !in hs || n == 0 then 0
    else 1 + Detour(hs, idx, hs[h].parent, n - 1, k - 1)
  }

  /** The target once the block head was forced down to a header below it. */
  function Lowered(target: Target, forced: Option<Header>): Target {
    if forced.None? then target
    else match target
      case ByTime(t) => if forced.value.time < t then ByNumber(forced.value.number) else target
      case ByNumber(n) => if forced.value.number < n then ByNumber(forced.value.number) else target
  }

  /** A forced head is one more bound on the number; on a time target it takes over once it is before it. */
  lemma LoweredBounds(target: Target, forced: Header, h: Header)
    ensures Lowered(target, None) == target
    ensures match target
      case ByNumber(n) => Reached(Lowered(target, Some(forced)), h) <==> h.number <= n && h.number <= forced.number
      case ByTime(t) => Reached(Lowered(target, Some(forced)), h) <==>
                        if forced.time < t then h.number <= forced.number else h.time <= t
  {
  }

  /** The first header down from `h` that meets the target of its moment; genesis where a parent is
      missing. */
  ghost function Landing(hs: Headers, genesis: Header, forced: Header -> Option<Header>, target: Target, h: Header): Header
    decreases h.number
  {
    if Reached(target, h) then h
    else if h.parent in hs && hs[h.parent].number < h.number
    then Landing(hs, genesis, forced, Lowered(target, forced(hs[h.parent])), hs[h.parent])
    else genesis
  }

  /** The heights of the headers passed on the way there. */
  ghost function Passed(hs: Headers, forced: Header -> Option<Header>, target: Target, h: Header): set<nat>
    decreases h.number
  {
    if Reached(target, h) then {}
    else if h.parent in hs && hs[h.parent].number < h.number
    then {h.number} + Passed(hs, forced, Lowered(target, forced(hs[h.parent])), hs[h.parent])
    else {h.number}
  }

  /** The heights above `n` that hold headers, up to the first that holds none. */
  ghost function HeightsOver(hs: Headers, n: nat): set<nat>
    decreases AtOrAbove(hs, n + 1)
  {
    if AllHashes(hs, n + 1) == {} then {}
    else
      var h :| h in AllHashes(hs, n + 1);
      assert h in AtOrAbove(hs, n + 1) && h !in AtOrAbove(hs, n + 2);
      {n + 1} + HeightsOver(hs, n + 1)
  }

  /** The heights that a rewind from `head` deletes; `all` is what lookups see. */
  ghost function Dropped(hs: Headers, all: Headers, forced: Header -> Option<Header>, target: Target, head: Header): set<nat> {
    if Reached(target, head) then {} else HeightsOver(hs, head.number) + Passed(all, forced, target, head)
  }

  lemma {:induction false} HeightsOverMeans(hs: Headers, n: nat, m: nat)
    ensures m in HeightsOver(hs, n) <==> n < m && forall k :: n < k <= m ==> AllHashes(hs, k) != {}
    decreases AtOrAbove(hs, n + 1)
  {
    if AllHashes(hs, n + 1) != {} {
      var h :| h in AllHashes(hs, n + 1);
      assert h in AtOrAbove(hs, n + 1) && h !in AtOrAbove(hs, n + 2);
      HeightsOverMeans(hs, n + 1, m);
    }
  }

  /** `cur` is the highest ancestor of `head`, itself included, that meets the target. */
  ghost predicate RewoundTo(hs: Headers, head: Header, target: Target, cur: Header) {
    && cur.number <= head.number
    && AncestorAt(hs, head, cur.number) == Some(cur)
    && Reached(target, cur)
    && forall n: nat :: cur.number < n <= head.number ==>
         AncestorAt(hs, head, n).Some? && !Reached(target, AncestorAt(hs, head, n).value)
  }

  /** On an index that starts at genesis the rewind stays on it and passes every height down to where
      it lands. */
  lemma {:induction false} LandsOnIndex(hs: Headers, idx: Index, head: Header, genesis: Header, forced: Header -> Option<Header>, target: Target, cur: Header)
    requires ValidTree(hs) && Canonical(hs, idx, head) && Stored(hs, cur) && OnIndex(idx, cur)
    requires Stored(hs, genesis) && genesis.number == 0 && OnIndex(idx, genesis) && Reached(target, genesis)
    ensures var land := Landing(hs, genesis, forced, target, cur);
      && Stored(hs, land) && OnIndex(idx, land) && land.number <= cur.number
      && forall n: nat :: n in Passed(hs, forced, target, cur) <==> land.number < n <= cur.number
    decreases cur.number
  {
    if !Reached(target, cur) {
      assert hs[idx[cur.number]].parent == idx[cur.number - 1];
      var parent := hs[cur.parent];
      LandsOnIndex(hs, idx, head, genesis, forced, Lowered(target, forced(parent)), parent);
    }
  }

  /** If the target is never lowered, the landing is the highest ancestor that meets it. */
  lemma {:induction false} LandsHighest(hs: Headers, idx: Index, head: Header, forced: Header -> Option<Header>, target: Target, cur: Header, genesis: Header)
    requires ValidTree(hs) && Canonical(hs, idx, head) && Stored(hs, cur) && OnIndex(idx, cur)
    requires Stored(hs, genesis) && genesis.number == 0 && OnIndex(idx, genesis) && Reached(target, genesis)
    requires forall h :: forced(h).None?
    ensures RewoundTo(hs, cur, target, Landing(hs, genesis, forced, target, cur))
    decreases cur.number
  {
    if !Reached(target, cur) {
      assert hs[idx[cur.number]].parent == idx[cur.number - 1];
      var parent := hs[cur.parent];
      LandsHighest(hs, idx, head, forced, target, parent, genesis);
      var land := Landing(hs, genesis, forced, target, cur);
      forall n: nat | land.number <= n <= parent.number ensures AncestorAt(hs, cur, n) == AncestorAt(hs, parent, n) {
      }
    }
  }

  /** A height is low enough for the number and for every head forced from `top` down to it. */
  ghost predicate Allowed(hs: Headers, idx: Index, forced: Header -> Option<Header>, n: nat, top: nat, m: nat) {
    m <= n && forall k: nat :: m <= k < top && k in idx && idx[k] in hs ==> BoundedBy(forced(hs[idx[k]]), m)
  }

  ghost predicate BoundedBy(forced: Option<Header>, m: nat) {
    forced.Some? ==> m <= forced.value.number
  }

  /** With a number target, whatever the callback forces: the landing is the highest height on the index that is
      low enough. */
  lemma {:induction false} LandsUnderForced(hs: Headers, idx: Index, head: Header, forced: Header -> Option<Header>, n: nat, cur: Header, genesis: Header)
    requires ValidTree(hs) && Canonical(hs, idx, head) && Stored(hs, cur) && OnIndex(idx, cur)
    requires Stored(hs, genesis) && genesis.number == 0 && OnIndex(idx, genesis)
    ensures var land := Landing(hs, genesis, forced, ByNumber(n), cur);
      && Stored(hs, land) && OnIndex(idx, land) && land.number <= cur.number
      && Allowed(hs, idx, forced, n, cur.number, land.number)
      && forall m: nat :: land.number < m <= cur.number ==> !Allowed(hs, idx, forced, n, cur.number, m)
    decreases cur.number
  {
    if cur.number > n {
      assert hs[idx[cur.number]].parent == idx[cur.number - 1];
      var parent := hs[cur.parent];
      var n' := if forced(parent).Some? && forced(parent).value.number < n then forced(parent).value.number else n;
      assert Lowered(ByNumber(n), forced(parent)) == ByNumber(n');
      LandsUnderForced(hs, idx, head, forced, n', parent, genesis);
      forall m: nat | m <= parent.number
        ensures Allowed(hs, idx, forced, n, cur.number, m) <==> Allowed(hs, idx, forced, n', parent.number, m)
      {
        AllowedStep(hs, idx, forced, n, n', cur, parent, m);
      }
    }
  }

  lemma AllowedStep(hs: Headers, idx: Index, forced: Header -> Option<Header>, n: nat, n': nat, cur: Header, parent: Header, m: nat)
    requires cur.number == parent.number + 1 && m <= parent.number && OnIndex(idx, parent) && Stored(hs, parent)
    requires n' == if forced(parent).Some? && forced(parent).value.number < n then forced(parent).value.number else n
    ensures Allowed(hs, idx, forced, n, cur.number, m) <==> Allowed(hs, idx, forced, n', parent.number, m)
  {
    var p := parent.number;
    assert hs[idx[p]] == parent;
    if Allowed(hs, idx, forced, n, cur.number, m) {
      assert BoundedBy(forced(hs[idx[p]]), m);
    }
    if Allowed(hs, idx, forced, n', p, m) {
      forall k: nat | m <= k < cur.number && k in idx && idx[k] in hs ensures BoundedBy(forced(hs[idx[k]]), m) {
        if k == p {
          assert BoundedBy(forced(parent), m);
        }
      }
    }
  }

  /** All hashes stored at a height. */
  function AllHashes(hs: Headers, n: nat): set<Hash> {
    set h | h in hs && hs[h].number == n
  }

  ghost function AtOrAbove(hs: Headers, n: nat): set<Hash> {
    set h | h in hs && hs[h].number >= n
  }

  /** The heights above `n` that hold headers, collected up to the first that holds none. */
  method HeightsAbove(hs: Headers, n: nat) returns (nums: set<nat>)
    ensures nums == HeightsOver(hs, n)
  {
    nums := {};
    var m := n + 1;
    while AllHashes(hs, m) != {}
      invariant m > n
      invariant HeightsOver(hs, n) == nums + HeightsOver(hs, m - 1)
      decreases AtOrAbove(hs, m)
    {
      ghost var h :| h in AllHashes(hs, m);
      assert h in AtOrAbove(hs, m) && h !in AtOrAbove(hs, m + 1);
      nums := nums + {m};
      m := m + 1;
    }
  }

  /** In a parent-closed store they are all the heights above that hold headers. */
  lemma NoneBeyond(hs: Headers, n: nat, h: Hash)
    requires ValidTree(hs) && Rooted(hs) && h in hs && hs[h].number > n
    ensures hs[h].number in HeightsOver(hs, n)
  {
    forall k | n < k <= hs[h].number ensures AllHashes(hs, k) != {} {
      LowerHeightHeld(hs, h, k);
    }
    HeightsOverMeans(hs, n, hs[h].number);
  }

  /** Below every stored header each height holds a header. */
  lemma {:induction false} LowerHeightHeld(hs: Headers, h: Hash, n: nat)
    requires ValidTree(hs) && Rooted(hs) && h in hs && n <= hs[h].number
    ensures AllHashes(hs, n) != {}
    decreases hs[h].number
  {
    if n == hs[h].number {
      assert h in AllHashes(hs, n);
    } else {
      assert ParentStored(hs, h) && ParentOf(hs, h, hs[h].parent);
      LowerHeightHeld(hs, hs[h].parent, n);
    }
  }

  function Surviving(hs: Headers, deleted: set<nat>): Headers {
    map h | h in hs && hs[h].number !in deleted :: hs[h]
  }

  /** Deleting the heights passed leaves a canonical index that ends where the rewind lands. */
  lemma KeepsCanonical(hs: Headers, all: Headers, idx: Index, head: Header, genesis: Header, forced: Header -> Option<Header>, target: Target)
    requires ValidTree(hs) && ValidTree(all) && Canonical(hs, idx, head) && Canonical(all, idx, head)
    requires forall h <- hs :: h in all && all[h] == hs[h]
    requires Stored(hs, genesis) && genesis.number == 0 && OnIndex(idx, genesis) && Reached(target, genesis)
    ensures var deleted := Dropped(hs, all, forced, target, head);
      && ValidTree(Surviving(hs, deleted)) && Stored(Surviving(hs, deleted), genesis)
      && Canonical(Surviving(hs, deleted), idx - deleted, Landing(all, genesis, forced, target, head))
  {
    var deleted, land := Dropped(hs, all, forced, target, head), Landing(all, genesis, forced, target, head);
    LandsOnIndex(all, idx, head, genesis, forced, target, head);
    assert land.hash in hs;
    forall n: nat ensures n in deleted ==> n > land.number {
      HeightsOverMeans(hs, head.number, n);
    }
    assert forall n: nat :: land.number < n <= head.number ==> n in deleted;
    CutCanonical(hs, idx, head, land, deleted);
  }

  lemma CutCanonical(hs: Headers, idx: Index, head: Header, land: Header, deleted: set<nat>)
    requires ValidTree(hs) && Canonical(hs, idx, head) && Stored(hs, land) && OnIndex(idx, land) && land.number <= head.number
    requires (forall n: nat :: n in deleted ==> n > land.number) && forall n: nat :: land.number < n <= head.number ==> n in deleted
    ensures ValidTree(Surviving(hs, deleted)) && Canonical(Surviving(hs, deleted), idx - deleted, land)
  {
    var kept := Surviving(hs, deleted);
    forall h, p | ParentOf(kept, h, p) ensures kept[p].number + 1 == kept[h].number {
      assert ParentOf(hs, h, p);
    }
  }

  /** In a parent-closed store the headers up to there are all that is left. */
  lemma CutRewinds(hs: Headers, all: Headers, idx: Index, head: Header, genesis: Header, forced: Header -> Option<Header>, target: Target)
    requires ValidTree(hs) && Rooted(hs) && ValidTree(all) && Canonical(hs, idx, head) && Canonical(all, idx, head)
    requires forall h <- hs :: h in all && all[h] == hs[h]
    requires Stored(hs, genesis) && genesis.number == 0 && OnIndex(idx, genesis) && Reached(target, genesis)
    ensures var deleted, land := Dropped(hs, all, forced, target, head), Landing(all, genesis, forced, target, head);
      && Rooted(Surviving(hs, deleted)) && (land != head ==> Surviving(hs, deleted) == UpTo(hs, land.number))
  {
    var deleted, land := Dropped(hs, all, forced, target, head), Landing(all, genesis, forced, target, head);
    if Reached(target, head) {
      assert Surviving(hs, deleted) == hs;
      return;
    }
    LandsOnIndex(all, idx, head, genesis, forced, target, head);
    forall h <- hs ensures hs[h].number in deleted <==> hs[h].number > land.number {
      HeightsOverMeans(hs, head.number, hs[h].number);
      if hs[h].number > head.number {
        NoneBeyond(hs, head.number, h);
      }
    }
    assert Surviving(hs, deleted) == UpTo(hs, land.number);
    RootedUpTo(hs, land.number);
  }

  lemma RootedUpTo(hs: Headers, n: nat)
    requires ValidTree(hs) && Rooted(hs)
    ensures Rooted(UpTo(hs, n))
  {
    var kept := UpTo(hs, n);
    forall h <- kept | kept[h].number > 0 ensures ParentStored(kept, h) {
      assert ParentStored(hs, h) && ParentOf(hs, h, hs[h].parent);
    }
    forall g, h | IsRoot(kept, g) && IsRoot(kept, h) ensures g == h {
      assert IsRoot(hs, g) && IsRoot(hs, h);
    }
  }

  /** Enters a linked chain into an index that is linked up to its parent. */
  method Extend(hs: Headers, batch0: Index, chain: seq<Header>) returns (batch: Index)
    requires |chain| > 0 && Linked(chain) && forall i :: 0 <= i < |chain| ==> Stored(hs, chain[i])
    requires LinkedRange(hs, batch0, 0, chain[0].number - 1)
    requires chain[0].number > 0 ==> batch0[chain[0].number - 1] == chain[0].parent
    ensures LinkedUpTo(hs, batch, chain[|chain| - 1].number)
    ensures batch[chain[|chain| - 1].number] == chain[|chain| - 1].hash
    ensures forall m: nat :: m in batch <==> m in batch0 || chain[0].number <= m <= chain[|chain| - 1].number
  {
    batch := batch0;
    for i := 0 to |chain| - 1
      invariant LinkedRange(hs, batch, 0, chain[i].number - 1)
      invariant chain[i].number > 0 ==> batch[chain[i].number - 1] == chain[i].parent
      invariant chain[0].number <= chain[i].number
      invariant forall m: nat :: m in batch <==> m in batch0 || chain[0].number <= m < chain[i].number
    {
      var hash := chain[i + 1].parent;
      EnterNext(hs, batch, chain[i]);
      assert chain[i + 1].number == chain[i].number + 1;
      batch := batch[chain[i].number := hash];
    }
    EnterNext(hs, batch, chain[|chain| - 1]);
    batch := batch[chain[|chain| - 1].number := chain[|chain| - 1].hash];
  }

  lemma EnterNext(hs: Headers, idx: Index, header: Header)
    requires LinkedRange(hs, idx, 0, header.number - 1) && Stored(hs, header)
    requires header.number > 0 ==> idx[header.number - 1] == header.parent
    ensures LinkedRange(hs, idx[header.number := header.hash], 0, header.number)
  {
  }

  lemma {:induction false} LinkedNumbers(chain: seq<Header>, i: nat)
    requires Linked(chain) && i < |chain|
    ensures chain[i].number == chain[0].number + i
  {
    if i > 0 {
      LinkedNumbers(chain, i - 1);
      assert chain[i].number == chain[i - 1].number + 1;
    }
  }

  lemma BridgedBelow(hs: Headers, batch0: Index, batch: Index, first: Header)
    requires Bridged(hs, batch0, batch, first) && Stored(hs, first)
    ensures LinkedRange(hs, batch, 0, first.number - 1)
    ensures first.number > 0 ==> batch[first.number - 1] == first.parent
  {
    assert first.number > 0 ==> hs[batch[first.number]].parent == batch[first.number - 1];
  }

  ghost predicate CacheAgrees(hs: Headers, cache: Headers) {
    forall h <- cache :: cache[h].hash == h && (h in hs ==> hs[h] == cache[h])
  }

  lemma CacheInside(hs: Headers, cache: Headers)
    requires CacheAgrees(hs, cache) && cache.Keys <= hs.Keys
    ensures hs + cache == hs
  {
  }

  lemma CacheMerges(hs: Headers, cache: Headers, batch: Headers)
    requires CacheAgrees(hs, cache) && CacheAgrees(hs, batch)
    requires cache.Keys <= hs.Keys
    ensures CacheAgrees(hs, cache + batch) && CacheAgrees(hs + batch, cache + batch)
    ensures (cache + batch).Keys <= (hs + batch).Keys
    ensures hs + (cache + batch) == hs + batch && hs + batch + (cache + batch) == hs + batch
  {
  }

  /** How many headers at the start of the chain are stored already. */
  ghost function KnownPrefix(hs: Headers, chain: seq<Header>): (k: nat)
    ensures k <= |chain|
    ensures forall i :: 0 <= i < k ==> chain[i].hash in hs
    ensures k < |chain| ==> chain[k].hash !in hs
  {
    if |chain| == 0 || chain[0].hash !in hs then 0 else 1 + KnownPrefix(hs, chain[1..])
  }

  /** In an ancestor-closed store no descendant of an unknown header is known. */
  lemma {:induction false} UnknownStays(hs: Headers, chain: seq<Header>, i: nat)
    requires Rooted(hs) && Insertable(hs, chain) && i < |chain|
    ensures chain[i].hash in hs <==> i < KnownPrefix(hs, chain)
  {
    if i > KnownPrefix(hs, chain) {
      UnknownStays(hs, chain, i - 1);
      assert chain[i - 1].hash == chain[i].parent;
      assert chain[i].hash in hs ==> ParentStored(hs, chain[i].hash);
    }
  }

  /** What writing a prefix of the chain has achieved. */
  ghost predicate PrefixWritten(hs: Headers, chain: seq<Header>, i: nat)
    requires i <= |chain|
  {
    var after := WithHeaders(hs, chain[..i]);
    && ValidTree(after) && (Rooted(hs) ==> Rooted(after))
    && (forall h <- hs :: h in after && after[h] == hs[h])
    && (forall j :: 0 <= j < i ==> Stored(after, chain[j]))
    && (forall j :: i <= j < |chain| && chain[j].hash in after ==> chain[j].hash in hs)
  }

  lemma TreeKept(hs: Headers, block: Header)
    requires ValidTree(hs) && block.hash != ZERO_HASH && ChildrenAbove(hs, block)
    requires block.parent in hs && hs[block.parent].number + 1 == block.number
    requires block.hash in hs ==> hs[block.hash] == block
    ensures ValidTree(hs[block.hash := block]) && (Rooted(hs) ==> Rooted(hs[block.hash := block]))
  {
    if Rooted(hs) {
      TreeGrows(hs, block);
    }
    var after := hs[block.hash := block];
    forall h, p | ParentOf(after, h, p) ensures after[p].number + 1 == after[h].number {
      assert h != block.hash && p != block.hash ==> ParentOf(hs, h, p);
    }
  }

  ghost predicate Among(chain: seq<Header>, i: nat, h: Hash)
    requires i <= |chain|
  {
    exists j :: 0 <= j < i && h == chain[j].hash
  }

  lemma {:induction false} PrefixKeys(hs: Headers, chain: seq<Header>, i: nat, h: Hash)
    requires i <= |chain| && h in WithHeaders(hs, chain[..i])
    ensures h in hs || Among(chain, i, h)
  {
    if i > 0 {
      assert chain[..i][..i - 1] == chain[..i - 1];
      if h == chain[i - 1].hash {
        assert Among(chain, i, h);
      } else {
        PrefixKeys(hs, chain, i - 1, h);
      }
    }
  }

  /** What is left of the chain still fits on what was written. */
  lemma ChildrenStillAbove(hs: Headers, chain: seq<Header>, i: nat)
    requires Insertable(hs, chain) && i < |chain| && PrefixWritten(hs, chain, i)
    ensures ChildrenAbove(WithHeaders(hs, chain[..i]), chain[i])
  {
    var after := WithHeaders(hs, chain[..i]);
    assert ChildrenAbove(hs, chain[i]);
    forall h <- after | after[h].parent == chain[i].hash ensures after[h].number == chain[i].number + 1 {
      PrefixKeys(hs, chain, i, h);
      if h !in hs {
        var j :| 0 <= j < i && h == chain[j].hash;
        NotAParent(hs, chain, i, j);
      }
    }
  }

  /** No header of the chain is the parent of an earlier one. */
  lemma NotAParent(hs: Headers, chain: seq<Header>, i: nat, j: nat)
    requires Insertable(hs, chain) && j < i < |chain|
    ensures chain[j].parent != chain[i].hash
  {
    LinkedNumbers(chain, i);
    if j > 0 {
      assert chain[j].parent == chain[j - 1].hash;
    }
  }

  lemma {:induction false} WritePrefix(hs: Headers, chain: seq<Header>, i: nat)
    requires ValidTree(hs) && Insertable(hs, chain) && i <= |chain|
    ensures PrefixWritten(hs, chain, i)
  {
    if i > 0 {
      WritePrefix(hs, chain, i - 1);
      WriteNext(hs, chain, i - 1);
    }
  }

  lemma WriteNext(hs: Headers, chain: seq<Header>, i: nat)
    requires ValidTree(hs) && Insertable(hs, chain) && i < |chain| && PrefixWritten(hs, chain, i)
    ensures PrefixWritten(hs, chain, i + 1)
  {
    WithHeadersNext(hs, chain, i);
    var before := WithHeaders(hs, chain[..i]);
    assert i > 0 ==> Stored(before, chain[i - 1]) && chain[i].parent == chain[i - 1].hash;
    ChildrenStillAbove(hs, chain, i);
    TreeKept(before, chain[i]);
    forall j | 0 <= j < i ensures Stored(before[chain[i].hash := chain[i]], chain[j]) {
      assert chain[j].hash != chain[i].hash;
    }
  }

  lemma WriteWhole(hs: Headers, chain: seq<Header>)
    requires ValidTree(hs) && Insertable(hs, chain)
    ensures var after := WithHeaders(hs, chain);
      && ValidTree(after) && (Rooted(hs) ==> Rooted(after))
      && (forall h <- hs :: h in after && after[h] == hs[h])
      && (forall j :: 0 <= j < |chain| ==> Stored(after, chain[j]))
  {
    WritePrefix(hs, chain, |chain|);
    assert chain[..|chain|] == chain;
  }

  /** Writing one more header into the batch, or not if it is known, keeps the two forms equal. */
  lemma WriteOneMore(hs: Headers, batch: Headers, chain: seq<Header>, i: nat)
    requires ValidTree(hs) && Insertable(hs, chain) && i < |chain|
    requires hs + batch == WithHeaders(hs, chain[..i])
    ensures WithHeaders(hs, chain[..i + 1]) == hs + batch[chain[i].hash := chain[i]]
    ensures chain[i].hash in hs ==> WithHeaders(hs, chain[..i + 1]) == hs + batch
  {
    WithHeadersNext(hs, chain, i);
    MergeUpdate(hs, batch, chain[i]);
    WritePrefix(hs, chain, i);
    if chain[i].hash in hs {
      assert (hs + batch)[chain[i].hash] == chain[i];
    }
  }

  lemma WithHeadersNext(hs: Headers, chain: seq<Header>, i: nat)
    requires i < |chain|
    ensures WithHeaders(hs, chain[..i + 1]) == WithHeaders(hs, chain[..i])[chain[i].hash := chain[i]]
  {
    assert chain[..i + 1][..i] == chain[..i];
  }

  lemma MergeUpdate(hs: Headers, batch: Headers, header: Header)
    ensures hs + batch[header.hash := header] == (hs + batch)[header.hash := header]
    ensures Stored(hs + batch, header) ==> (hs + batch)[header.hash := header] == hs + batch
  {
  }

  /** `batch` is `idx` with nothing missing up to `n`. */
  ghost predicate Restricts(idx: Index, batch: Index, n: nat) {
    && (forall m: nat :: m in batch ==> m in idx && batch[m] == idx[m])
    && forall m: nat :: m in idx && m <= n ==> m in batch
  }

  /** `first` and the headers down to, but without, `at` have been written over `batch0`. */
  ghost predicate Bridging(hs: Headers, batch0: Index, batch: Index, first: Header, at: Header) {
    && at.number <= first.number
    && (forall m: nat :: m in batch <==> m in batch0 || at.number < m <= first.number)
    && (forall m: nat :: m <= at.number && m in batch0 ==> batch[m] == batch0[m])
    && LinkedRange(hs, batch, at.number + 1, first.number)
    && if at.number < first.number
       then hs[batch[at.number + 1]].parent == at.hash && batch[first.number] == first.hash
       else at == first
  }

  ghost predicate Bridged(hs: Headers, batch0: Index, batch: Index, first: Header) {
    && LinkedUpTo(hs, batch, first.number) && batch[first.number] == first.hash
    && forall m: nat :: m in batch <==> m in batch0 || m <= first.number
  }

  /** The range above `at`, with `at` itself written. */
  ghost predicate Written(hs: Headers, batch0: Index, batch: Index, first: Header, at: Header) {
    && at.number <= first.number
    && (forall m: nat :: m in batch <==> m in batch0 || at.number <= m <= first.number)
    && (forall m: nat :: m < at.number && m in batch0 ==> batch[m] == batch0[m])
    && LinkedRange(hs, batch, at.number, first.number)
    && batch[at.number] == at.hash && batch[first.number] == first.hash
  }

  lemma BridgeWrites(hs: Headers, batch0: Index, batch: Index, first: Header, at: Header)
    requires Bridging(hs, batch0, batch, first, at) && Stored(hs, at)
    ensures Written(hs, batch0, batch[at.number := at.hash], first, at)
  {
    var batch' := batch[at.number := at.hash];
    forall i: nat, j: nat | at.number <= i && j == i + 1 && j <= first.number
      ensures hs[batch'[j]].parent == batch'[i]
    {
      assert batch'[j] == batch[j];
      if i > at.number { assert batch'[i] == batch[i]; }
    }
  }

  lemma BridgeSteps(hs: Headers, batch0: Index, batch: Index, first: Header, at: Header, parent: Header)
    requires Written(hs, batch0, batch, first, at) && Stored(hs, at)
    requires parent.hash == at.parent && parent.number + 1 == at.number
    ensures Bridging(hs, batch0, batch, first, parent)
  {
  }

  lemma BridgeLands(hs: Headers, idx: Index, batch0: Index, batch: Index, first: Header, at: Header, head: Header)
    requires WellKeyed(hs) && Canonical(hs, idx, head) && Restricts(idx, batch0, first.number)
    requires Bridging(hs, batch0, batch, first, at)
    requires at.number in idx && idx[at.number] == at.hash
    ensures Bridged(hs, batch0, batch, first)
  {
    BridgeLower(idx, batch0, batch, first, at);
    BridgeLinks(hs, idx, batch, first, at);
  }

  lemma BridgeLower(idx: Index, batch0: Index, batch: Index, first: Header, at: Header)
    requires Restricts(idx, batch0, first.number) && at.number <= first.number
    requires forall m: nat :: m <= at.number ==> m in idx
    requires forall m: nat :: m in batch0 ==> m in batch
    requires forall m: nat :: m <= at.number && m in batch0 ==> batch[m] == batch0[m]
    ensures forall m: nat :: m <= at.number ==> m in batch && batch[m] == idx[m]
  {
  }

  lemma BridgeLinks(hs: Headers, idx: Index, batch: Index, first: Header, at: Header)
    requires at.number <= first.number && LinkedUpTo(hs, idx, at.number) && idx[at.number] == at.hash
    requires forall m: nat :: m <= at.number ==> m in batch && batch[m] == idx[m]
    requires LinkedRange(hs, batch, at.number + 1, first.number)
    requires at.number < first.number ==> hs[batch[at.number + 1]].parent == at.hash
    ensures LinkedUpTo(hs, batch, first.number)
  {
    forall i: nat, j: nat | j == i + 1 && j <= first.number ensures hs[batch[j]].parent == batch[i] {
      if i < at.number {
        assert hs[idx[j]].parent == idx[i];
      }
    }
  }

  /** A store with a gap: the header at height five is there, but not its parent. */
  function GappedStore(): Headers {
    map[1 := Header(1, 0, 0, 0, 0), 8 := Header(8, 5, 7, 0, 0)]
  }

  lemma GapSeparates()
    ensures var store, next := GappedStore(), Header(9, 6, 8, 0, 0);
      && ValidTree(store) && Canonical(store, map[0 := 1], Header(1, 0, 0, 0, 0))
      && Insertable(store, [next]) && WithHeaders(store, [next]) == store[9 := next]
      && !Meets(store[9 := next], map[0 := 1], 9)
  {
    var store, next := GappedStore(), Header(9, 6, 8, 0, 0);
    assert [next][..0] == [];
    var after := store[9 := next];
    forall k: nat ensures !MeetsAt(after, map[0 := 1], 9, k) {
      if k >= 2 {
        assert Ancestor(after, 9, k) == Ancestor(after, 7, k - 2);
      }
    }
  }

  /** There an insert on top of that header writes what it is given and then fails. */
  method InsertIntoGap() returns (hc: HeaderChain, ok: bool)
    ensures fresh(hc) && !ok && !hc.stopped
    ensures hc.headers == GappedStore()[9 := Header(9, 6, 8, 0, 0)]
    ensures hc.currentHeader.hash == 1 && hc.canonical == map[0 := 1]
  {
    GapSeparates();
    var genesis := Header(1, 0, 0, 0, 0);
    hc := new HeaderChain.Load(genesis, GappedStore(), map[0 := 1], genesis);
    ok := hc.InsertHeaderChain([Header(9, 6, 8, 0, 0)], false, false);
  }

  /** A store with a header above the gap that begins at height two. */
  function OrphanStore(): Headers {
    map[1 := Header(1, 0, 0, 0, 0), 2 := Header(2, 1, 1, 0, 0), 8 := Header(8, 5, 7, 0, 0)]
  }

  function Unforced(h: Header): Option<Header> {
    None
  }

  lemma OrphanStays()
    ensures var store, genesis, child := OrphanStore(), Header(1, 0, 0, 0, 0), Header(2, 1, 1, 0, 0);
      && ValidTree(store) && Canonical(store, map[0 := 1, 1 := 2], child)
      && Landing(store, genesis, Unforced, ByNumber(0), child) == genesis
      && Dropped(store, store, Unforced, ByNumber(0), child) == {1}
      && Surviving(store, {1}) == store - {2}
  {
    assert AllHashes(OrphanStore(), 2) == {};
  }

  lemma OrphanLands()
    ensures var store, genesis, orphan := OrphanStore(), Header(1, 0, 0, 0, 0), Header(8, 5, 7, 0, 0);
      && ValidTree(store) && Landing(store, genesis, Unforced, ByNumber(3), orphan) == genesis
      && Dropped(store, store, Unforced, ByNumber(3), orphan) == {5}
      && Surviving(store, {5}) == store - {8}
  {
    assert AllHashes(OrphanStore(), 6) == {};
  }

  /** A rewind that leaves a header above the new head: it lies above an empty height. */
  method RewindLeavesOrphan() returns (hc: HeaderChain)
    ensures fresh(hc) && hc.Valid() && hc.currentHeader.number == 0 && hc.headers == OrphanStore() - {2}
  {
    OrphanStays();
    hc := new HeaderChain.Load(Header(1, 0, 0, 0, 0), OrphanStore(), map[0 := 1, 1 := 2], Header(2, 1, 1, 0, 0));
    hc.SetHead(ByNumber(0), Unforced);
  }

  /** A rewind over a missing parent: it lands on genesis and leaves the headers below the gap. */
  method RewindOverGap() returns (hc: HeaderChain)
    ensures fresh(hc) && hc.currentHeader.number == 0 && hc.headers == OrphanStore() - {8} && 1 in hc.canonical
  {
    OrphanLands();
    hc := new HeaderChain.Load(Header(1, 0, 0, 0, 0), OrphanStore(), map[0 := 1, 1 := 2, 5 := 8], Header(8, 5, 7, 0, 0));
    hc.SetHead(ByNumber(3), Unforced);
  }
}
