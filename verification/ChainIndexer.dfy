/** The section indexer: it walks complete sections of the canonical chain while that chain may
    be reorganised under it, and stores the hash of the last block of each. */
module ChainIndexer {
  import opened Arithmetic
  import opened Wrappers
  import opened BlockTree

  const UINT64 := 0x1_0000_0000_0000_0000

  datatype Result = Ok(head: Hash) | Err

  /** What reading one block number returned: the canonical hash at that moment, zero for none,
      and the header that could then be read under that hash. */
  datatype Read = Read(hash: Hash, header: Option<Header>)

  /** A header read under a hash and a number is the one with that hash and number. */
  ghost predicate Honest(hs: Headers, seen: nat -> Read) {
    forall n: nat :: seen(n).header.Some? ==>
      Stored(hs, seen(n).header.value) && seen(n).header.value.hash == seen(n).hash && seen(n).header.value.number == n
  }

  /** Outcomes of the backend calls made for one section, after its reset. */
  datatype Backend = Backend(processes: nat -> bool, commits: bool)

  /** The read at offset `i` of a section continues the walk that began at `lastHead`. */
  ghost predicate Continues(seen: nat -> Read, backend: Backend, start: nat, lastHead: Hash, i: nat) {
    var read := seen(start + i);
    && read.hash != ZERO_HASH && read.header.Some?
    && read.header.value.parent == (if i == 0 then lastHead else seen(start + i - 1).hash)
    && backend.processes(start + i)
  }

  ghost predicate WalkSucceeds(seen: nat -> Read, backend: Backend, section: nat, size: nat, lastHead: Hash) {
    && backend.commits
    && forall i: nat :: i < size ==> Continues(seen, backend, section * size, lastHead, i)
  }

  /** What the update loop is at: nothing, a section whose backend was reset or not yet, or a section
      that was given up because the reset failed. */
  datatype Pending = Idle | Processing(section: nat, oldHead: Hash, reset: bool) | Failed

  /** What may happen next; each event reads the canonical index `idx` of its own moment. */
  datatype Event =
    | NewHead(head: nat, reorg: bool, idx: Index)
    | Begin(idx: Index)
    | Reset(ok: bool)
    | Finish(seen: nat -> Read, backend: Backend, idx: Index)
    | Query(idx: Index)
    | Checkpoint(section: nat, head: Hash)

  /** The fields of an indexer at one moment. */
  datatype State = State(stored: nat, known: nat, cascaded: nat, checkpoint: nat, checkpointHead: Hash,
                         heads: map<nat, Hash>, update: bool, pending: Pending)

  datatype Moment = Moment(before: State, event: Event, after: State)

  /** A header above height zero names a parent. */
  ghost predicate Parented(hs: Headers) {
    forall h <- hs :: hs[h].number > 0 ==> hs[h].parent != ZERO_HASH
  }

  function ReadCanonicalHash(idx: Index, n: nat): Hash {
    if n in idx then idx[n] else ZERO_HASH
  }

  /** The number of the last block of a section. */
  function LastBlock(size: nat, s: nat): nat
    requires size > 0
  {
    (s + 1) * size - 1
  }

  lemma LastBlockStep(size: nat, s: nat)
    requires size > 0 && s > 0
    ensures LastBlock(size, s) - size == LastBlock(size, s - 1)
    ensures size <= LastBlock(size, s)
  {
  }

  /** `head` ends section `s` and its chain passes through `prev` at the end of the section
      before; for the first section it begins at a header without parent. */
  ghost predicate SectionLink(hs: Headers, size: nat, s: nat, prev: Hash, head: Hash)
    requires size > 0
  {
    && head in hs && hs[head].number == LastBlock(size, s)
    && AncestorHash(hs, head, size) == Some(prev)
  }

  /** The stored head of section `s` is linked to that of its predecessor. */
  ghost predicate Linked(hs: Headers, size: nat, heads: map<nat, Hash>, s: nat)
    requires size > 0
  {
    && s in heads && (s > 0 ==> s - 1 in heads)
    && SectionLink(hs, size, s, if s > 0 then heads[s - 1] else ZERO_HASH, heads[s])
  }

  /** The stored heads from `base` up to `count` are present and linked, the first one to its
      predecessor too unless it was given by a checkpoint. */
  ghost predicate LinkedRun(hs: Headers, size: nat, heads: map<nat, Hash>, base: nat, count: nat, given: bool)
    requires size > 0
  {
    && (forall s: nat :: base <= s < count ==> s in heads && (base < s || !given ==> heads[s] != ZERO_HASH))
    && (forall s: nat :: base < s < count ==> Linked(hs, size, heads, s))
    && (!given && count > 0 ==> base == 0 && Linked(hs, size, heads, 0))
  }

  /** A linked run that ends at `count`; a given head is the first one and below the checkpoint. */
  ghost predicate Grounded(hs: Headers, size: nat, heads: map<nat, Hash>, base: nat, count: nat, given: bool, checkpoint: nat)
    requires size > 0
  {
    && LinkedRun(hs, size, heads, base, count, given) && base <= count
    && if given then base < count && base < checkpoint else base == 0
  }

  lemma RunShortens(hs: Headers, size: nat, heads: map<nat, Hash>, heads': map<nat, Hash>,
                    base: nat, count: nat, count': nat, given: bool)
    requires size > 0 && LinkedRun(hs, size, heads, base, count, given)
    requires base <= count' <= count && (given ==> base < count')
    requires forall s: nat :: s < count' && s in heads ==> s in heads' && heads'[s] == heads[s]
    ensures LinkedRun(hs, size, heads', base, count', given)
  {
    forall s: nat | base < s < count' ensures Linked(hs, size, heads', s) {
      assert Linked(hs, size, heads, s);
    }
  }

  /** The heads of the first `count` sections. */
  ghost function Kept(heads: map<nat, Hash>, count: nat): map<nat, Hash> {
    map s <- heads | s < count :: heads[s]
  }

  /** An index whose entries are stored headers linked by parent hash. */
  ghost predicate ChainView(hs: Headers, idx: Index) {
    forall n: nat :: n in idx ==> LinkedUpTo(hs, idx, n)
  }

  ghost predicate CanonicalSection(idx: Index, size: nat, s: nat, head: Hash)
    requires size > 0
  {
    ReadCanonicalHash(idx, LastBlock(size, s)) == head
  }

  /** Verification goes from `stored` sections down to `stored'`: it drops only sections that are not
      canonical, none at or below the checkpoint, and stops at one that is canonical. */
  ghost predicate Drops(size: nat, idx: Index, checkpoint: nat, heads: map<nat, Hash>, stored: nat, stored': nat)
    requires size > 0
  {
    && stored' <= stored && (stored' < stored ==> checkpoint <= stored')
    && (forall s: nat :: stored' <= s < stored ==> s in heads && !CanonicalSection(idx, size, s, heads[s]))
    && (stored' > checkpoint ==> stored' - 1 in heads && CanonicalSection(idx, size, stored' - 1, heads[stored' - 1]))
  }

  /** If the end of a section is canonical, so is the end of the one it is linked to. */
  lemma LinkCarriesOver(hs: Headers, idx: Index, size: nat, s: nat, prev: Hash, head: Hash)
    requires size > 0 && s > 0 && WellKeyed(hs) && ChainView(hs, idx) && head != ZERO_HASH
    requires SectionLink(hs, size, s, prev, head) && CanonicalSection(idx, size, s, head)
    ensures CanonicalSection(idx, size, s - 1, prev)
  {
    LastBlockStep(size, s);
    var n := LastBlock(size, s);
    LinkedWalk(hs, idx, n, size);
    AncestorHashStored(hs, idx[n], size);
  }

  /** What a later section is linked to is a block's hash. */
  lemma LinkedToBlock(hs: Headers, size: nat, s: nat, prev: Hash, head: Hash)
    requires size > 0 && s > 0 && ValidTree(hs) && Parented(hs) && SectionLink(hs, size, s, prev, head)
    ensures prev != ZERO_HASH
  {
    LastBlockStep(size, s);
    WalkStaysAbove(hs, head, size, prev);
  }

  lemma {:induction false} WalkStaysAbove(hs: Headers, h: Hash, k: nat, prev: Hash)
    requires ValidTree(hs) && Parented(hs) && k > 0 && h in hs && k <= hs[h].number && AncestorHash(hs, h, k) == Some(prev)
    ensures prev != ZERO_HASH
    decreases k
  {
    if k > 1 {
      assert ParentOf(hs, h, hs[h].parent);
      WalkStaysAbove(hs, hs[h].parent, k - 1, prev);
    }
  }

  class ChainIndexer {
    const sectionSize: nat
    const confirmsReq: nat
    ghost const universe: Headers // every header there is, by hash
    var storedSections: nat
    var knownSections: nat
    var cascadedHead: nat
    var checkpointSections: nat
    var checkpointHead: Hash
    var sectionHeads: map<nat, Hash>
    var update: bool // a notification is waiting
    var pending: Pending
    ghost var base: nat   // the first section of the linked run that ends at storedSections
    ghost var given: bool // its head is a checkpoint's, not one that was computed
    // the same of the run below the section in process, once a checkpoint has been added above it
    ghost var baseBelow: nat
    ghost var givenBelow: bool

    ghost predicate Valid()
      reads this`storedSections, this`sectionHeads, this`checkpointSections, this`pending, this`base, this`given, this`baseBelow, this`givenBelow
    {
      && sectionSize > 0 && ValidTree(universe) && Parented(universe)
      && (forall s <- sectionHeads :: s < storedSections)
      && Grounded(universe, sectionSize, sectionHeads, base, storedSections, given, checkpointSections)
      && (pending.Processing? ==> Resumable(pending.section, pending.oldHead))
    }

    /** If the section in process lies below a checkpoint that was added meanwhile, then the heads
        before it still form a run, unless the last of them has changed. */
    ghost predicate Resumable(section: nat, oldHead: Hash)
      requires sectionSize > 0
      reads this`storedSections, this`sectionHeads, this`checkpointSections, this`baseBelow, this`givenBelow
    {
      && (section == 0 ==> oldHead == ZERO_HASH)
      && (section < storedSections ==>
            && section < checkpointSections
            && (section > 0 && oldHead != ZERO_HASH && SectionHead(section - 1) == oldHead ==>
                  Grounded(universe, sectionSize, sectionHeads, baseBelow, section, givenBelow, checkpointSections)))
    }

    /** The hash stored for a section, zero if there is none. */
    function SectionHead(s: nat): Hash
      reads this`sectionHeads
    {
      if s in sectionHeads then sectionHeads[s] else ZERO_HASH
    }

    constructor (sectionSize: nat, confirmsReq: nat, ghost universe: Headers)
      requires sectionSize > 0 && ValidTree(universe) && Parented(universe)
      ensures Valid() && storedSections == knownSections == 0 && checkpointSections == 0 && pending.Idle? && sectionHeads == map[]
      ensures this.sectionSize == sectionSize && this.confirmsReq == confirmsReq && this.universe == universe
    {
      this.sectionSize, this.confirmsReq, this.universe := sectionSize, confirmsReq, universe;
      storedSections, knownSections, cascadedHead := 0, 0, 0;
      checkpointSections, checkpointHead := 0, ZERO_HASH;
      sectionHeads, update, pending := map[], false, Idle;
      base, given, baseBelow, givenBelow := 0, false, 0, false;
    }

    /** Sets the section count, removing the heads above it. */
    method SetValidSections(sections: nat)
      modifies this`storedSections, this`sectionHeads
      ensures storedSections == sections
      ensures forall s :: s in sectionHeads <==> s in old(sectionHeads) && !(sections <= s < old(storedSections))
      ensures forall s <- sectionHeads :: sectionHeads[s] == old(sectionHeads)[s]
      ensures old(storedSections) <= sections ==> sectionHeads == old(sectionHeads)
    {
      while storedSections > sections
        invariant storedSections <= old(storedSections)
        invariant if old(storedSections) >= sections then sections <= storedSections else storedSections == old(storedSections)
        invariant forall s :: s in sectionHeads <==> s in old(sectionHeads) && !(storedSections <= s < old(storedSections))
        invariant forall s <- sectionHeads :: sectionHeads[s] == old(sectionHeads)[s]
        invariant old(storedSections) <= sections ==> sectionHeads == old(sectionHeads)
      {
        storedSections := storedSections - 1;
        sectionHeads := sectionHeads - {storedSections};
      }
      storedSections := sections;
    }

    /** Stores a section's head and makes it the last one. */
    method PutSection(section: nat, head: Hash)
      requires forall s <- sectionHeads :: s < storedSections
      modifies this`storedSections, this`sectionHeads
      ensures storedSections == section + 1 && sectionHeads == Kept(old(sectionHeads), section)[section := head]
    {
      sectionHeads := sectionHeads[section := head];
      SetValidSections(section + 1);
      assert sectionHeads == Kept(old(sectionHeads), section)[section := head];
    }

    /** Drops sections above the checkpoint. */
    method Cut(count: nat)
      requires Valid() && checkpointSections <= count <= storedSections
      modifies this`storedSections, this`sectionHeads
      ensures Valid() && storedSections == count && sectionHeads == Kept(old(sectionHeads), count)
    {
      ghost var heads := sectionHeads;
      SetValidSections(count);
      assert sectionHeads == Kept(heads, count);
      RunShortens(universe, sectionSize, heads, sectionHeads, base, old(storedSections), count, given);
      if pending.Processing? {
        var section := pending.section;
        if 0 < section < count && pending.oldHead != ZERO_HASH && SectionHead(section - 1) == pending.oldHead {
          RunShortens(universe, sectionSize, heads, sectionHeads, baseBelow, section, section, givenBelow);
        }
      }
    }

    method CutTo(count: nat)
      requires Valid() && checkpointSections <= count
      modifies this`storedSections, this`sectionHeads
      ensures Valid() && storedSections == Min(old(storedSections), count)
      ensures sectionHeads == Kept(old(sectionHeads), storedSections)
    {
      if count < storedSections {
        Cut(count);
      } else {
        assert sectionHeads == Kept(sectionHeads, storedSections);
      }
    }

    /** Rolls back stored sections, at most to the checkpoint, until the last one is canonical. */
    method VerifyLastHead(idx: Index)
      requires Valid()
      modifies this`storedSections, this`sectionHeads
      ensures Valid()
      ensures Drops(sectionSize, idx, checkpointSections, old(sectionHeads), old(storedSections), storedSections)
      ensures sectionHeads == Kept(old(sectionHeads), storedSections)
      // every section that is left above the checkpoint is canonical
      ensures ChainView(universe, idx) ==>
        forall s: nat :: checkpointSections <= s < storedSections ==>
          CanonicalSection(idx, sectionSize, s, sectionHeads[s])
    {
      while storedSections > 0 && storedSections > checkpointSections
        invariant Valid() && storedSections <= old(storedSections)
        invariant storedSections < old(storedSections) ==> checkpointSections <= storedSections
        invariant sectionHeads == Kept(old(sectionHeads), storedSections)
        invariant forall s: nat :: storedSections <= s < old(storedSections) ==>
          s in old(sectionHeads) && !CanonicalSection(idx, sectionSize, s, old(sectionHeads)[s])
        decreases storedSections
      {
        if SectionHead(storedSections - 1) == ReadCanonicalHash(idx, storedSections * sectionSize - 1) {
          CanonicalBelow(idx);
          return;
        }
        Cut(storedSections - 1);
      }
    }

    lemma CanonicalBelow(idx: Index)
      requires Valid() && storedSections > checkpointSections
      requires CanonicalSection(idx, sectionSize, storedSections - 1, sectionHeads[storedSections - 1])
      ensures ChainView(universe, idx) ==>
        forall s: nat :: checkpointSections <= s < storedSections ==>
          CanonicalSection(idx, sectionSize, s, sectionHeads[s])
    {
      if ChainView(universe, idx) {
        forall s: nat | checkpointSections <= s < storedSections
          ensures CanonicalSection(idx, sectionSize, s, sectionHeads[s])
        {
          LinkedBelow(idx, s);
        }
      }
    }

    lemma {:induction false} LinkedBelow(idx: Index, s: nat)
      requires Valid() && ChainView(universe, idx) && base <= s < storedSections
      requires CanonicalSection(idx, sectionSize, storedSections - 1, sectionHeads[storedSections - 1])
      ensures CanonicalSection(idx, sectionSize, s, sectionHeads[s])
      decreases storedSections - s
    {
      if s < storedSections - 1 {
        LinkedBelow(idx, s + 1);
        assert Linked(universe, sectionSize, sectionHeads, s + 1);
        LinkCarriesOver(universe, idx, sectionSize, s + 1, sectionHeads[s], sectionHeads[s + 1]);
      }
    }

    /** The run below the section in process does not change with a checkpoint above it. */
    ghost method KeepBelow(section: nat, head: Hash)
      requires Valid() && pending.Processing? && storedSections <= section && checkpointSections <= section
      modifies this`baseBelow, this`givenBelow
      ensures var n := pending.section;
        n <= section && n > 0 && pending.oldHead != ZERO_HASH && SectionHead(n - 1) == pending.oldHead ==>
          Grounded(universe, sectionSize, sectionHeads[section := head], baseBelow, n, givenBelow, section + 1)
    {
      var n := pending.section;
      if storedSections == n {
        baseBelow, givenBelow := base, given;
      }
      if n <= section && n > 0 && pending.oldHead != ZERO_HASH && SectionHead(n - 1) == pending.oldHead {
        RunShortens(universe, sectionSize, sectionHeads, sectionHeads[section := head], baseBelow, n, n, givenBelow);
      }
    }

    /** Declares sections up to `section` as covered by a checkpoint. */
    method AddCheckpoint(section: nat, head: Hash)
      requires Valid()
      modifies this`checkpointSections, this`checkpointHead, this`storedSections, this`sectionHeads, this`base, this`given, this`baseBelow, this`givenBelow
      ensures Valid()
      ensures if section + 1 > old(checkpointSections) && section >= old(storedSections)
              then checkpointSections == storedSections == section + 1 && checkpointHead == head
                   && sectionHeads == old(sectionHeads)[section := head]
              else checkpointSections == old(checkpointSections) && storedSections == old(storedSections)
                   && checkpointHead == old(checkpointHead) && sectionHeads == old(sectionHeads)
    {
      if checkpointSections >= section + 1 || section < storedSections {
        return;
      }
      if pending.Processing? {
        KeepBelow(section, head);
      }
      assert Kept(sectionHeads, section) == sectionHeads;
      SetCheckpoint(section, head);
    }

    method SetCheckpoint(section: nat, head: Hash)
      requires forall s <- sectionHeads :: s < storedSections
      modifies this`checkpointSections, this`checkpointHead, this`storedSections, this`sectionHeads, this`base, this`given
      ensures checkpointSections == storedSections == section + 1 && checkpointHead == head && base == section && given
      ensures sectionHeads == Kept(old(sectionHeads), section)[section := head]
    {
      checkpointSections, checkpointHead := section + 1, head;
      PutSection(section, head);
      base, given := section, true;
    }

    /** A reorganisation down to `head`: cuts the stored sections there, or at the checkpoint. */
    method Reorged(head: nat)
      requires Valid()
      modifies this`storedSections, this`knownSections, this`cascadedHead, this`sectionHeads
      ensures Valid()
      ensures storedSections == Min(old(storedSections), Max((head + 1) / sectionSize, checkpointSections))
      ensures knownSections == Min(old(knownSections),
                                   if (head + 1) / sectionSize < checkpointSections then 0 else (head + 1) / sectionSize)
      ensures cascadedHead == Min(old(cascadedHead),
                                  (if (head + 1) / sectionSize < checkpointSections then 0 else (head + 1) / sectionSize) * sectionSize)
      ensures sectionHeads == Kept(old(sectionHeads), storedSections)
    {
      CutAt((head + 1) / sectionSize);
    }

    method CutAt(known0: nat)
      requires Valid()
      modifies this`storedSections, this`knownSections, this`cascadedHead, this`sectionHeads
      ensures Valid() && storedSections == Min(old(storedSections), Max(known0, checkpointSections))
      ensures knownSections == Min(old(knownSections), if known0 < checkpointSections then 0 else known0)
      ensures cascadedHead == Min(old(cascadedHead), (if known0 < checkpointSections then 0 else known0) * sectionSize)
      ensures sectionHeads == Kept(old(sectionHeads), storedSections)
    {
      var known, stored := known0, known0;
      if known < checkpointSections {
        known := 0;
      }
      if stored < checkpointSections {
        stored := checkpointSections;
      }
      CutTo(stored);
      LowerKnown(known);
    }

    method LowerKnown(known: nat)
      modifies this`knownSections, this`cascadedHead
      ensures knownSections == Min(old(knownSections), known) && cascadedHead == Min(old(cascadedHead), known * sectionSize)
    {
      if known < knownSections {
        knownSections := known;
      }
      LowerCascade(known);
    }

    method LowerCascade(known: nat)
      modifies this`cascadedHead
      ensures cascadedHead == Min(old(cascadedHead), known * sectionSize)
    {
      if known * sectionSize < cascadedHead {
        cascadedHead := known * sectionSize;
      }
    }

    /** A new head: sections become known once confirmed and once the checkpoint has been met. */
    method Advanced(head: nat, idx: Index)
      requires Valid()
      modifies this`knownSections, this`update
      ensures Valid()
      ensures var sections := if head < confirmsReq then 0 else (head + 1 - confirmsReq) / sectionSize;
        if sections > old(knownSections) && sections >= checkpointSections &&
           (old(knownSections) < checkpointSections ==>
              ReadCanonicalHash(idx, LastBlock(sectionSize, checkpointSections - 1)) == checkpointHead)
        then knownSections == sections && update
        else knownSections == old(knownSections) && update == old(update)
      ensures knownSections > old(knownSections) ==>
        && head >= confirmsReq && knownSections == (head + 1 - confirmsReq) / sectionSize
        && checkpointSections <= knownSections && update
        && (old(knownSections) < checkpointSections ==>
              ReadCanonicalHash(idx, LastBlock(sectionSize, checkpointSections - 1)) == checkpointHead)
    {
      if head < confirmsReq {
        return;
      }
      var sections := (head + 1 - confirmsReq) / sectionSize;
      if sections < checkpointSections {
        sections := 0;
      }
      if sections > knownSections {
        if knownSections < checkpointSections {
          var syncedHead := ReadCanonicalHash(idx, LastBlock(sectionSize, checkpointSections - 1));
          if syncedHead != checkpointHead {
            return;
          }
        }
        knownSections := sections;
        update := true;
      }
    }

    /** The locked first half of an update: fixes the section to process next. */
    method BeginUpdate(idx: Index)
      requires Valid() && pending.Idle?
      modifies this`update, this`pending, this`storedSections, this`sectionHeads
      ensures Valid() && !update && sectionHeads == Kept(old(sectionHeads), storedSections)
      ensures pending.Processing? <==> old(knownSections > storedSections)
      ensures if pending.Processing?
              then pending == Processing(storedSections, if storedSections > 0 then SectionHead(storedSections - 1) else ZERO_HASH, false)
                   && Drops(sectionSize, idx, checkpointSections, old(sectionHeads), old(storedSections), storedSections)
              else storedSections == old(storedSections) && sectionHeads == old(sectionHeads) && pending.Idle?
      ensures pending.Processing? && ChainView(universe, idx) ==>
        forall s: nat :: checkpointSections <= s < storedSections ==> CanonicalSection(idx, sectionSize, s, sectionHeads[s])
    {
      update := false;
      if knownSections > storedSections {
        VerifyLastHead(idx);
        var oldHead := if storedSections > 0 then SectionHead(storedSections - 1) else ZERO_HASH;
        pending := Processing(storedSections, oldHead, false);
      } else {
        assert sectionHeads == Kept(sectionHeads, storedSections);
      }
    }

    /** The start of processing, without the lock: a failing reset of the backend empties the index. */
    method ResetBackend(ok: bool)
      requires Valid() && pending.Processing? && !pending.reset
      modifies this`pending, this`storedSections, this`sectionHeads, this`base, this`given
      ensures Valid()
      ensures if ok then pending == old(pending).(reset := true) && storedSections == old(storedSections) && sectionHeads == old(sectionHeads)
              else pending.Failed? && storedSections == 0 && sectionHeads == map[]
    {
      if ok {
        pending := pending.(reset := true);
      } else {
        pending := Failed;
        Empty();
      }
    }

    method Empty()
      requires Valid()
      modifies this`storedSections, this`sectionHeads, this`base, this`given
      ensures storedSections == 0 && sectionHeads == map[] && base == 0 && !given
    {
      SetValidSections(0);
      base, given := 0, false;
    }

    /** Walks a section without the lock; `seen` answers the read of each number as the chain
        stands at that moment. */
    method ProcessSection(section: nat, lastHead0: Hash, seen: nat -> Read, backend: Backend) returns (r: Result)
      requires sectionSize > 0 && ValidTree(universe) && Honest(universe, seen)
      ensures r.Ok? ==> r.head == seen(LastBlock(sectionSize, section)).hash != ZERO_HASH && SectionLink(universe, sectionSize, section, lastHead0, r.head)
      ensures r.Ok? <==> WalkSucceeds(seen, backend, section, sectionSize, lastHead0)
    {
      var lastHead := lastHead0;
      var start := section * sectionSize;
      for i := 0 to sectionSize
        invariant AncestorHash(universe, lastHead, i) == Some(lastHead0)
        invariant i > 0 ==> lastHead in universe && universe[lastHead].number == start + i - 1
        invariant lastHead == if i == 0 then lastHead0 else seen(start + i - 1).hash
        invariant forall k: nat :: k < i ==> Continues(seen, backend, start, lastHead0, k)
      {
        ghost var goesOn := Continues(seen, backend, start, lastHead0, i);
        var read := seen(start + i);
        if read.hash == ZERO_HASH || read.header.None? || read.header.value.parent != lastHead {
          return Err;
        }
        if !backend.processes(start + i) {
          return Err;
        }
        lastHead := read.header.value.hash;
      }
      if !backend.commits {
        return Err;
      }
      return Ok(lastHead);
    }

    /** Stores the head of a section above a run of heads. */
    method StoreSection(section: nat, head: Hash, ghost b: nat, ghost g: bool)
      requires Valid() && pending.Idle? && section <= storedSections && head != ZERO_HASH
      requires Grounded(universe, sectionSize, sectionHeads, b, section, g, checkpointSections)
      requires SectionLink(universe, sectionSize, section,
                           if section > 0 then SectionHead(section - 1) else ZERO_HASH, head)
      modifies this`storedSections, this`sectionHeads, this`cascadedHead, this`base, this`given
      ensures Valid() && storedSections == section + 1
      ensures sectionHeads == Kept(old(sectionHeads), section)[section := head] && cascadedHead == LastBlock(sectionSize, section)
    {
      PutSection(section, head);
      RunExtends(universe, sectionSize, old(sectionHeads), sectionHeads, b, section, g);
      base, given := b, g;
      cascadedHead := LastBlock(sectionSize, section);
    }

    /** The second half of an update: stores the head unless the reset failed or the section before it
        was rolled back or replaced meanwhile. */
    method FinishUpdate(seen: nat -> Read, backend: Backend, idx: Index) returns (stored: bool)
      requires Valid() && (pending.Failed? || (pending.Processing? && pending.reset)) && Honest(universe, seen)
      modifies this`pending, this`storedSections, this`sectionHeads, this`cascadedHead, this`base, this`given, this`knownSections, this`update
      ensures Valid() && pending.Idle?
      ensures stored <==> old(pending).Processing?
                          && WalkSucceeds(seen, backend, old(pending).section, sectionSize, old(pending).oldHead)
                          && (old(pending).section == 0 || old(SectionHead(pending.section - 1)) == old(pending).oldHead)
      ensures stored ==>
        var section := old(pending).section;
        && storedSections == section + 1 && knownSections == old(knownSections) && cascadedHead == LastBlock(sectionSize, section)
        && sectionHeads == Kept(old(sectionHeads), section)[section := seen(LastBlock(sectionSize, section)).hash]
      ensures !stored ==>
        && Drops(sectionSize, idx, checkpointSections, old(sectionHeads), old(storedSections), storedSections)
        && knownSections == storedSections && sectionHeads == Kept(old(sectionHeads), storedSections) && cascadedHead == old(cascadedHead)
      // only a section below the checkpoint takes the count below the checkpoint
      ensures old(storedSections) >= checkpointSections ==>
        (storedSections < checkpointSections <==> stored && old(pending).section + 1 < checkpointSections)
      ensures update <==> old(update) || knownSections > storedSections
    {
      if pending.Failed? {
        pending := Idle;
        stored := Conclude(0, ZERO_HASH, Err, idx);
        return;
      }
      var section, oldHead := pending.section, pending.oldHead;
      pending := Idle;
      var r := ProcessSection(section, oldHead, seen, backend);
      if r.Ok? && section > 0 {
        LinkedToBlock(universe, sectionSize, section, oldHead, r.head);
      }
      stored := Conclude(section, oldHead, r, idx);
    }

    method Conclude(section: nat, oldHead: Hash, r: Result, idx: Index) returns (stored: bool)
      requires Valid() && pending.Idle?
      requires r.Ok? ==> Resumable(section, oldHead) && r.head != ZERO_HASH && SectionLink(universe, sectionSize, section, oldHead, r.head)
      requires r.Ok? && section > 0 ==> oldHead != ZERO_HASH
      modifies this`storedSections, this`sectionHeads, this`cascadedHead, this`base, this`given, this`knownSections, this`update
      ensures Valid()
      ensures stored <==> r.Ok? && (section == 0 || old(SectionHead(section - 1)) == oldHead)
      ensures stored ==> storedSections == section + 1 && knownSections == old(knownSections)
                         && sectionHeads == Kept(old(sectionHeads), section)[section := r.head]
                         && cascadedHead == LastBlock(sectionSize, section)
      ensures !stored ==> Drops(sectionSize, idx, checkpointSections, old(sectionHeads), old(storedSections), storedSections)
                          && knownSections == storedSections && cascadedHead == old(cascadedHead)
                          && sectionHeads == Kept(old(sectionHeads), storedSections)
      ensures update <==> old(update) || knownSections > storedSections
    {
      stored := r.Ok? && (section == 0 || oldHead == SectionHead(section - 1));
      if stored {
        StoreSection(section, r.head, if section == storedSections then base else if section == 0 then 0 else baseBelow,
                     if section == storedSections then given else section > 0 && givenBelow);
      } else {
        VerifyLastHead(idx);
        knownSections := storedSections;
      }
      if knownSections > storedSections {
        update := true;
      }
    }

    /** The verified section count, the number of the last block it covers and that block's hash;
        with no section the number wraps around. */
    method Sections(idx: Index) returns (count: nat, last: nat, head: Hash)
      requires Valid()
      modifies this`storedSections, this`sectionHeads
      ensures Valid() && count == storedSections && sectionHeads == Kept(old(sectionHeads), count)
      ensures Drops(sectionSize, idx, checkpointSections, old(sectionHeads), old(storedSections), count)
      ensures last == (count * sectionSize - 1) % UINT64
      ensures head == if count > 0 then SectionHead(count - 1) else ZERO_HASH
      ensures ChainView(universe, idx) ==>
        forall s: nat :: checkpointSections <= s < count ==> CanonicalSection(idx, sectionSize, s, sectionHeads[s])
    {
      VerifyLastHead(idx);
      count := storedSections;
      last := (count * sectionSize - 1) % UINT64;
      head := if count > 0 then SectionHead(count - 1) else ZERO_HASH;
    }

    ghost function Now(): State
      reads this
    {
      State(storedSections, knownSections, cascadedHead, checkpointSections, checkpointHead, sectionHeads, update, pending)
    }

    /** Any interleaving of head events, update steps, queries and checkpoints over any canonical indexes. */
    method Run(events: seq<Event>) returns (ghost trace: seq<Moment>)
      requires Valid()
      requires forall i :: 0 <= i < |events| && events[i].Finish? ==> Honest(universe, events[i].seen)
      modifies this
      ensures Valid() && Trace(sectionSize, confirmsReq, old(Now()), events, trace, Now())
    {
      trace := [];
      for i := 0 to |events|
        invariant Valid() && Trace(sectionSize, confirmsReq, old(Now()), events[..i], trace, Now())
      {
        ghost var m := Apply(events[i]);
        TraceGrows(sectionSize, confirmsReq, old(Now()), events, i, trace, m);
        trace := trace + [m];
      }
      assert events[..|events|] == events;
    }

    /** One event; it does nothing where it cannot happen. */
    method Apply(e: Event) returns (ghost m: Moment)
      requires Valid() && (e.Finish? ==> Honest(universe, e.seen))
      modifies this
      ensures Valid() && m == Moment(old(Now()), e, Now()) && Happens(sectionSize, confirmsReq, m)
    {
      ghost var before := Now();
      match e {
        case NewHead(head, reorg, idx) => ApplyHead(head, reorg, idx);
        case Begin(idx) => ApplyBegin(idx);
        case Reset(ok) => if pending.Processing? && !pending.reset { ResetBackend(ok); }
        case Finish(seen, backend, idx) => ApplyFinish(seen, backend, idx);
        case Query(idx) => var _, _, _ := Sections(idx);
        case Checkpoint(section, head) => AddCheckpoint(section, head);
      }
      m := Moment(before, e, Now());
    }

    method ApplyHead(head: nat, reorg: bool, idx: Index)
      requires Valid()
      modifies this`storedSections, this`knownSections, this`cascadedHead, this`sectionHeads, this`update
      ensures Valid()
      ensures if reorg then Reorgs(sectionSize, old(Now()), head, Now()) else Advances(sectionSize, confirmsReq, old(Now()), head, idx, Now())
    {
      if reorg {
        Reorged(head);
      } else {
        Advanced(head, idx);
      }
    }

    method ApplyBegin(idx: Index)
      requires Valid()
      modifies this`update, this`pending, this`storedSections, this`sectionHeads
      ensures Valid() && Begins(sectionSize, old(Now()), idx, Now())
    {
      if update && pending.Idle? {
        BeginUpdate(idx);
      }
    }

    method ApplyFinish(seen: nat -> Read, backend: Backend, idx: Index)
      requires Valid() && Honest(universe, seen)
      modifies this`pending, this`storedSections, this`sectionHeads, this`cascadedHead, this`base, this`given, this`knownSections, this`update
      ensures Valid() && Finishes(sectionSize, old(Now()), seen, backend, idx, Now())
    {
      if pending.Failed? || (pending.Processing? && pending.reset) {
        var _ := FinishUpdate(seen, backend, idx);
      }
    }
  }

  // ----- what the events do -----

  ghost predicate RollsBack(size: nat, idx: Index, s: State, t: State)
    requires size > 0
  {
    t == s.(stored := t.stored, heads := Kept(s.heads, t.stored)) && Drops(size, idx, s.checkpoint, s.heads, s.stored, t.stored)
  }

  /** The head of a section's predecessor, zero for the first section or if there is none. */
  ghost function HeadBefore(heads: map<nat, Hash>, section: nat): Hash {
    if section > 0 && section - 1 in heads then heads[section - 1] else ZERO_HASH
  }

  /** The walk over the section in process succeeded, and the head before it is still the same. */
  ghost predicate Stores(size: nat, s: State, seen: nat -> Read, backend: Backend) {
    && s.pending.Processing? && s.pending.reset
    && WalkSucceeds(seen, backend, s.pending.section, size, s.pending.oldHead)
    && (s.pending.section == 0 || HeadBefore(s.heads, s.pending.section) == s.pending.oldHead)
  }

  /** The sections up to a reorganisation at `head` that stay known. */
  ghost function KnownAfter(size: nat, checkpoint: nat, head: nat): nat
    requires size > 0
  {
    if (head + 1) / size < checkpoint then 0 else (head + 1) / size
  }

  ghost predicate Reorgs(size: nat, s: State, head: nat, t: State)
    requires size > 0
  {
    var known := KnownAfter(size, s.checkpoint, head);
    t == s.(stored := Min(s.stored, Max((head + 1) / size, s.checkpoint)), known := Min(s.known, known),
            cascaded := Min(s.cascaded, known * size), heads := Kept(s.heads, t.stored))
  }

  ghost predicate Advances(size: nat, confirms: nat, s: State, head: nat, idx: Index, t: State)
    requires size > 0
  {
    var sections := if head < confirms then 0 else (head + 1 - confirms) / size;
    if sections > s.known && sections >= s.checkpoint
       && (s.known < s.checkpoint ==> CanonicalSection(idx, size, s.checkpoint - 1, s.checkpointHead))
    then t == s.(known := sections, update := true) else t == s
  }

  ghost predicate Begins(size: nat, s: State, idx: Index, t: State)
    requires size > 0
  {
    if !(s.update && s.pending.Idle?) then t == s
    else if s.known <= s.stored then t == s.(update := false)
    else t.pending == Processing(t.stored, HeadBefore(t.heads, t.stored), false)
         && RollsBack(size, idx, s.(update := false, pending := t.pending), t)
  }

  ghost predicate Resets(s: State, ok: bool, t: State) {
    if !(s.pending.Processing? && !s.pending.reset) then t == s
    else if ok then t == s.(pending := s.pending.(reset := true))
    else t == s.(pending := Failed, stored := 0, heads := map[])
  }

  ghost predicate Finishes(size: nat, s: State, seen: nat -> Read, backend: Backend, idx: Index, t: State)
    requires size > 0
  {
    if !(s.pending.Failed? || (s.pending.Processing? && s.pending.reset)) then t == s
    else if Stores(size, s, seen, backend) then
      var section := s.pending.section;
      t == s.(pending := Idle, stored := section + 1, cascaded := LastBlock(size, section), update := s.update || s.known > section + 1,
              heads := Kept(s.heads, section)[section := seen(LastBlock(size, section)).hash])
    else t.known == t.stored && RollsBack(size, idx, s.(pending := Idle, known := t.known), t)
  }

  ghost predicate Checkpoints(s: State, section: nat, head: Hash, t: State) {
    if section + 1 > s.checkpoint && section >= s.stored
    then t == s.(checkpoint := section + 1, checkpointHead := head, stored := section + 1, heads := s.heads[section := head])
    else t == s
  }

  ghost predicate Happens(size: nat, confirms: nat, m: Moment)
    requires size > 0
  {
    match m.event
    case NewHead(head, reorg, idx) =>
      if reorg then Reorgs(size, m.before, head, m.after) else Advances(size, confirms, m.before, head, idx, m.after)
    case Begin(idx) => Begins(size, m.before, idx, m.after)
    case Reset(ok) => Resets(m.before, ok, m.after)
    case Finish(seen, backend, idx) => Finishes(size, m.before, seen, backend, idx, m.after)
    case Query(idx) => RollsBack(size, idx, m.before, m.after)
    case Checkpoint(section, head) => Checkpoints(m.before, section, head, m.after)
  }

  /** The events of a run, each from where the last one ended. */
  ghost predicate Trace(size: nat, confirms: nat, start: State, events: seq<Event>, trace: seq<Moment>, end: State)
    requires size > 0
  {
    && |trace| == |events|
    && if |trace| == 0 then end == start
       else
         var n := |trace| - 1;
         && trace[n].event == events[n] && Happens(size, confirms, trace[n]) && trace[n].after == end
         && Trace(size, confirms, start, events[..n], trace[..n], trace[n].before)
  }

  lemma TraceGrows(size: nat, confirms: nat, start: State, events: seq<Event>, i: nat, trace: seq<Moment>, m: Moment)
    requires size > 0 && i < |events| && Trace(size, confirms, start, events[..i], trace, m.before)
    requires Happens(size, confirms, m) && m.event == events[i]
    ensures Trace(size, confirms, start, events[..i + 1], trace + [m], m.after)
  {
    assert (trace + [m])[..|trace|] == trace && events[..i + 1][..i] == events[..i];
  }

  /** The section is stored with that head. */
  predicate Holds(s: State, section: nat, head: Hash) {
    section < s.stored && section in s.heads && s.heads[section] == head
  }

  /** The canonical index that an event reads. */
  ghost predicate ReadsIndex(e: Event, idx: Index) {
    match e
    case NewHead(_, _, i) => i == idx
    case Begin(i) => i == idx
    case Finish(_, _, i) => i == idx
    case Query(i) => i == idx
    case _ => true
  }

  /** A section that is canonical at that moment is lost only to a reorganisation below its last block, to
      a failing reset of the backend, or to an earlier section that is stored again. */
  lemma CanonicalStays(size: nat, confirms: nat, m: Moment, idx: Index, section: nat, head: Hash)
    requires size > 0 && Happens(size, confirms, m) && ReadsIndex(m.event, idx)
    requires Holds(m.before, section, head) && CanonicalSection(idx, size, section, head) && !Holds(m.after, section, head)
    ensures match m.event
      case NewHead(h, reorg, _) => reorg && LastBlock(size, section) > h && section >= m.before.checkpoint
      case Reset(ok) => !ok && m.before.pending.Processing?
      case Finish(seen, backend, _) => Stores(size, m.before, seen, backend) && m.before.pending.section <= section
      case _ => false
  {
    if m.event.NewHead? && m.event.reorg {
      CompleteSections(size, section, m.event.head);
    }
  }

  /** The sections that end at or below a block. */
  lemma CompleteSections(size: nat, section: nat, head: nat)
    requires size > 0
    ensures section < (head + 1) / size <==> LastBlock(size, section) <= head
  {
    var q := (head + 1) / size;
    assert head + 1 == q * size + (head + 1) % size;
    if section < q {
      assert (section + 1) * size <= q * size;
    } else {
      assert (section + 1) * size >= (q + 1) * size == q * size + size;
    }
  }

  /** A new head makes those sections known that end with enough blocks above them. */
  lemma KnownIsConfirmed(size: nat, confirms: nat, m: Moment, section: nat)
    requires size > 0 && Happens(size, confirms, m) && m.event.NewHead? && !m.event.reorg && m.after.known != m.before.known
    ensures section < m.after.known <==> LastBlock(size, section) + confirms <= m.event.head
  {
    CompleteSections(size, section, m.event.head - confirms);
  }

  /** What the reads of a quiet chain return. */
  ghost predicate Reads(hs: Headers, idx: Index, seen: nat -> Read) {
    forall n: nat :: n in idx && idx[n] in hs ==> seen(n) == Read(idx[n], Some(hs[idx[n]]))
  }

  /** While the canonical chain stands still and holds the next section, one round of the update loop with
      a working backend stores it, and the next round can start. */
  lemma UpdateProgresses(hs: Headers, size: nat, confirms: nat, idx: Index, begin: Moment, reset: Moment, finish: Moment)
    requires size > 0 && ValidTree(hs) && ChainView(hs, idx)
    requires Happens(size, confirms, begin) && Happens(size, confirms, reset) && Happens(size, confirms, finish)
    requires begin.after == reset.before && reset.after == finish.before
    requires begin.event == Begin(idx) && reset.event == Reset(true) && finish.event.Finish? && finish.event.idx == idx
    requires Reads(hs, idx, finish.event.seen) && finish.event.backend.commits
    requires forall n: nat :: finish.event.backend.processes(n)
    requires begin.before.update && begin.before.pending.Idle? && begin.before.known > begin.before.stored
    requires var n := begin.before.stored;
      && LastBlock(size, n) in idx
      && (if n > 0 then n - 1 in begin.before.heads && CanonicalSection(idx, size, n - 1, begin.before.heads[n - 1])
          else hs[idx[0]].parent == ZERO_HASH)
    ensures var s, t := begin.before, finish.after;
      && t.stored == s.stored + 1 && t.pending.Idle? && t.update == (s.known > t.stored) && t.known == s.known
      && t.heads == Kept(s.heads, s.stored)[s.stored := idx[LastBlock(size, s.stored)]]
      && CanonicalSection(idx, size, s.stored, t.heads[s.stored])
  {
    var s, n := begin.before, begin.before.stored;
    assert begin.after.stored == n;
    var start, lastHead := n * size, HeadBefore(s.heads, n);
    assert LastBlock(size, n) == start + size - 1;
    assert LinkedUpTo(hs, idx, start + size - 1);
    assert reset.after.pending == Processing(n, lastHead, true);
    forall i: nat | i < size ensures Continues(finish.event.seen, finish.event.backend, start, lastHead, i) {
      QuietRead(hs, size, idx, finish.event.seen, finish.event.backend, n, lastHead, i);
    }
    assert Stores(size, finish.before, finish.event.seen, finish.event.backend);
  }

  lemma QuietRead(hs: Headers, size: nat, idx: Index, seen: nat -> Read, backend: Backend, n: nat, lastHead: Hash, i: nat)
    requires size > 0 && ValidTree(hs) && i < size && LinkedUpTo(hs, idx, n * size + size - 1) && Reads(hs, idx, seen)
    requires forall k: nat :: backend.processes(k)
    requires if n > 0 then lastHead == ReadCanonicalHash(idx, n * size - 1) else lastHead == ZERO_HASH == hs[idx[0]].parent
    ensures Continues(seen, backend, n * size, lastHead, i)
  {
    var k := n * size + i;
    assert seen(k) == Read(idx[k], Some(hs[idx[k]]));
    if k > 0 {
      assert hs[idx[k]].parent == idx[k - 1];
      assert seen(k - 1) == Read(idx[k - 1], Some(hs[idx[k - 1]]));
    }
  }

  lemma RunExtends(hs: Headers, size: nat, heads: map<nat, Hash>, heads': map<nat, Hash>, base: nat, count: nat, given: bool)
    requires size > 0 && LinkedRun(hs, size, heads, base, count, given) && base <= count
    requires given ==> base < count
    requires !given ==> base == 0
    requires count in heads' && heads'[count] != ZERO_HASH
    requires forall s: nat :: s < count && s in heads ==> s in heads' && heads'[s] == heads[s]
    requires SectionLink(hs, size, count, if count > 0 && count - 1 in heads then heads[count - 1] else ZERO_HASH, heads'[count])
    ensures LinkedRun(hs, size, heads', base, count + 1, given)
  {
    forall s: nat | base < s < count + 1 ensures Linked(hs, size, heads', s) {
      assert s < count ==> Linked(hs, size, heads, s);
    }
  }

  /** A checkpoint that is added while a section below it is in process does not outlast that: the
      section count falls below the checkpoint and its head is gone. */
  method CheckpointLost(head: Hash) returns (c: ChainIndexer)
    ensures c.Valid() && c.checkpointSections == 4 && c.storedSections == 1 && c.sectionHeads.Keys == {0}
  {
    var genesis := Header(1, 0, ZERO_HASH, 0, 0);
    c := new ChainIndexer(1, 0, map[1 := genesis]);
    c.Advanced(0, map[0 := 1]);
    c.BeginUpdate(map[0 := 1]);
    c.ResetBackend(true);
    c.AddCheckpoint(3, head);
    var seen := (n: nat) => if n == 0 then Read(1, Some(genesis)) else Read(ZERO_HASH, None);
    var backend := Backend(_ => true, true);
    assert Continues(seen, backend, 0, ZERO_HASH, 0);
    var stored := c.FinishUpdate(seen, backend, map[0 := 1]);
  }
}
