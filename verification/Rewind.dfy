/** The rewind loop of a chain reset: from a target block downwards to a block whose state is
    usable, past a block with a requested state root. */
module Rewind {
  import opened Wrappers
  import opened BlockTree
  import opened Fork

  /** Stored blocks and the state roots whose state is present or can be recovered, with the states that
      are present once it is; in the path-based scheme of storing states or in the hash-based one. */
  datatype Disk = Disk(
    headers: Headers, bodies: Bodies, genesis: Header, present: set<Hash>, recoverable: set<Hash>,
    recovered: Hash -> set<Hash>, pathScheme: bool)

  /** `Panicked` is the nil dereference of skipping to a parent that is not stored. */
  datatype Outcome = Rewound(head: Header, rootNumber: nat, present: set<Hash>) | Panicked

  ghost predicate ValidDisk(d: Disk) {
    && WellKeyed(d.headers)
    && Stored(d.headers, d.genesis)
    && (forall h :: IsRoot(d.headers, h) <==> h == d.genesis.hash)
    && forall root <- d.recoverable :: root in d.recovered(root)
  }

  predicate Stateful(d: Disk, block: Header) {
    block.root in d.present || block.root in d.recoverable
  }

  /** The block that the walk down from `target` finds at height `n`, if it gets there. */
  ghost function Found(d: Disk, target: Header, n: nat): Option<Header>
    requires n <= target.number
    decreases target.number - n
  {
    if n == target.number then GetBlock(d.headers, d.bodies, target.hash, n)
    else match Found(d, target, n + 1)
      case None => None
      case Some(child) => GetBlock(d.headers, d.bodies, child.parent, n)
  }

  /** The block found at height `n` carries the requested root. */
  ghost predicate RootAt(d: Disk, target: Header, n: nat, root: Hash) {
    n <= target.number && Found(d, target, n).Some? && Found(d, target, n).value.root == root
  }

  /** Height `n` is at or below a block with the requested root, if one was requested. */
  ghost predicate Passed(d: Disk, target: Header, root: Hash, n: nat) {
    root == ZERO_HASH || exists m: nat :: n <= m && RootAt(d, target, m, root)
  }

  /** The state of the block found at height `n` is present or can be recovered. */
  ghost predicate StatefulAt(d: Disk, target: Header, n: nat) {
    n <= target.number && Found(d, target, n).Some? && Found(d, target, n).value.root in d.present + d.recoverable
  }

  /** A rewind may stop at height `n`. */
  ghost predicate Acceptable(d: Disk, target: Header, root: Hash, n: nat) {
    n == 0 || (StatefulAt(d, target, n) && Passed(d, target, root, n))
  }

  /** The highest height at or below `n` where a rewind may stop. */
  ghost function Highest(d: Disk, target: Header, root: Hash, n: nat): (top: nat)
    ensures top <= n && Acceptable(d, target, root, top)
    ensures forall m: nat :: top < m <= n ==> !Acceptable(d, target, root, m)
  {
    if Acceptable(d, target, root, n) then n else Highest(d, target, root, n - 1)
  }

  /** No block with state is found at height `n`, which is at or below the pivot. */
  ghost predicate PivotAt(d: Disk, target: Header, pivot: Option<nat>, n: nat) {
    pivot.Some? && n <= pivot.value && !StatefulAt(d, target, n)
  }

  ghost predicate MeetsPivot(d: Disk, target: Header, pivot: Option<nat>, n: nat) {
    exists m: nat :: n < m <= target.number && PivotAt(d, target, pivot, m)
  }

  /** The highest height up to `n` where the pivot is met. */
  ghost function PivotHeight(d: Disk, target: Header, pivot: Option<nat>, n: nat): (p: nat)
    ensures p <= n && (p > 0 ==> PivotAt(d, target, pivot, p))
    ensures forall m: nat :: p < m <= n ==> !PivotAt(d, target, pivot, m)
  {
    if n == 0 || PivotAt(d, target, pivot, n) then n else PivotHeight(d, target, pivot, n - 1)
  }

  /** The highest block found that carries the requested root. */
  ghost predicate HighestRoot(d: Disk, target: Header, root: Hash, n: nat) {
    RootAt(d, target, n, root) && forall m: nat :: n < m ==> !RootAt(d, target, m, root)
  }

  /** The number reported for a walk that went down to height `n`. */
  ghost predicate ReportsRoot(d: Disk, target: Header, root: Hash, n: nat, rootNumber: nat) {
    if root != ZERO_HASH && Passed(d, target, root, n) then HighestRoot(d, target, root, rootNumber) else rootNumber == 0
  }

  /** The walk finds a block with state above the requested root whose parent it cannot find, and has
      not met the pivot before. */
  ghost predicate PanicsAt(d: Disk, target: Header, root: Hash, pivot: Option<nat>, n: nat) {
    && 0 < n <= target.number && StatefulAt(d, target, n) && !Passed(d, target, root, n)
    && Found(d, target, n - 1).None? && !MeetsPivot(d, target, pivot, n)
  }

  ghost predicate Panics(d: Disk, target: Header, root: Hash, pivot: Option<nat>) {
    exists n: nat :: PanicsAt(d, target, root, pivot, n)
  }

  /** The outcome of a rewind in terms of the walk alone: the highest acceptable block, or genesis if
      there is none or the pivot is met before. */
  ghost predicate RewindsTo(d: Disk, target: Header, root: Hash, pivot: Option<nat>, head: Header, rootNumber: nat) {
    var top := Highest(d, target, root, target.number);
    if MeetsPivot(d, target, pivot, top)
    then head == d.genesis && ReportsRoot(d, target, root, PivotHeight(d, target, pivot, target.number), rootNumber)
    else ReportsRoot(d, target, root, top, rootNumber) &&
         if top == 0 then head == d.genesis else Found(d, target, top) == Some(head)
  }

  /** The states present after a rewind to `head`: as before if its own was, and else those that its
      recovery leaves or, for genesis, its own, with the others only in the hash-based scheme. */
  ghost predicate Settles(d: Disk, head: Header, present: set<Hash>) {
    && head.root in present
    && (head.root in d.present ==> present == d.present)
    && (head.root !in d.present && head.number > 0 ==> present == d.recovered(head.root))
    && (head.root !in d.present && head.number == 0 ==> present - {head.root} == if d.pathScheme then {} else d.present)
  }

  /** Commits the state of genesis unless it is present. */
  function ResetState(d: Disk): set<Hash> {
    if d.genesis.root in d.present then d.present
    else if d.pathScheme then {d.genesis.root}
    else d.present + {d.genesis.root}
  }

  /** Makes the state of the new head present. */
  function Settle(d: Disk, head: Header): (present: set<Hash>)
    requires ValidDisk(d) && if head.number == 0 then head == d.genesis else Stateful(d, head)
    ensures Settles(d, head, present)
  {
    if head.number == 0 then ResetState(d)
    else if head.root in d.present then d.present
    else d.recovered(head.root)
  }

  /** Below a block that is not found none is. */
  lemma {:induction false} GapStays(d: Disk, target: Header, n: nat, m: nat)
    requires m <= n <= target.number && Found(d, target, n).None?
    ensures Found(d, target, m).None?
    decreases n - m
  {
    if m < n {
      GapStays(d, target, n, m + 1);
    }
  }

  /** Where the loop is: `block` was found at its height, nothing above it was acceptable, and no pivot
      was met. `seen` is whether the requested root was passed above `low`. */
  ghost predicate At(d: Disk, target: Header, root: Hash, pivot: Option<nat>, block: Header, low: nat, seen: bool, rootNumber: nat) {
    && block.number <= target.number
    && Found(d, target, block.number) == Some(block)
    && Highest(d, target, root, target.number) == Highest(d, target, root, block.number)
    && !MeetsPivot(d, target, pivot, block.number)
    && (seen <==> Passed(d, target, root, low))
    && ReportsRoot(d, target, root, low, rootNumber)
  }

  lemma CheckRoot(d: Disk, target: Header, root: Hash, pivot: Option<nat>, block: Header, seen: bool, rootNumber: nat)
    requires At(d, target, root, pivot, block, block.number + 1, seen, rootNumber)
    ensures var hit := root != ZERO_HASH && !seen && block.root == root;
            At(d, target, root, pivot, block, block.number, seen || hit, if hit then block.number else rootNumber)
  {
    var n := block.number;
    assert RootAt(d, target, n, root) <==> block.root == root;
    assert Passed(d, target, root, n) <==> Passed(d, target, root, n + 1) || RootAt(d, target, n, root);
    if root != ZERO_HASH && !seen {
      assert forall m: nat :: n < m ==> !RootAt(d, target, m, root);
    }
  }

  lemma StepDown(d: Disk, target: Header, root: Hash, pivot: Option<nat>, block: Header, beyond: bool,
                 rootNumber: nat, parent: Header)
    requires At(d, target, root, pivot, block, block.number, beyond, rootNumber)
    requires GetBlock(d.headers, d.bodies, block.parent, block.number - 1) == Some(parent)
    requires !Stateful(d, block) || !beyond
    requires Stateful(d, block) || pivot.None? || block.number > pivot.value
    ensures At(d, target, root, pivot, parent, parent.number + 1, beyond, rootNumber)
  {
    assert Found(d, target, block.number - 1) == Some(parent);
    assert !Acceptable(d, target, root, block.number);
    assert StatefulAt(d, target, block.number) <==> Stateful(d, block);
  }

  /** The loop stops at a block with state below the requested root, or at genesis. */
  lemma StopsAt(d: Disk, target: Header, root: Hash, pivot: Option<nat>, block: Header, beyond: bool, rootNumber: nat)
    requires At(d, target, root, pivot, block, block.number, beyond, rootNumber)
    requires (Stateful(d, block) && beyond) || block.number == 0
    ensures RewindsTo(d, target, root, pivot, if block.number == 0 then d.genesis else block, rootNumber)
    ensures !Panics(d, target, root, pivot)
  {
    var n := block.number;
    assert StatefulAt(d, target, n) <==> Stateful(d, block);
    assert Acceptable(d, target, root, n);
    NoPanic(d, target, root, pivot, n);
  }

  /** It stops at a block without state at or below the pivot. */
  lemma StopsAtPivot(d: Disk, target: Header, root: Hash, pivot: Option<nat>, block: Header, beyond: bool, rootNumber: nat)
    requires At(d, target, root, pivot, block, block.number, beyond, rootNumber)
    requires !Stateful(d, block) && block.number > 0 && pivot.Some? && block.number <= pivot.value
    ensures RewindsTo(d, target, root, pivot, d.genesis, rootNumber) && !Panics(d, target, root, pivot)
  {
    var n := block.number;
    assert PivotAt(d, target, pivot, n) && !Acceptable(d, target, root, n);
    NoPanic(d, target, root, pivot, n);
  }

  /** It stops at a block without state whose parent is missing. */
  lemma StopsAtGap(d: Disk, target: Header, root: Hash, pivot: Option<nat>, block: Header, beyond: bool, rootNumber: nat)
    requires At(d, target, root, pivot, block, block.number, beyond, rootNumber)
    requires !Stateful(d, block) && block.number > 0
    requires GetBlock(d.headers, d.bodies, block.parent, block.number - 1).None?
    ensures RewindsTo(d, target, root, pivot, d.genesis, rootNumber) && !Panics(d, target, root, pivot)
  {
    var n := block.number;
    assert Found(d, target, n - 1).None?;
    NothingBelow(d, target, root, n);
    assert !StatefulAt(d, target, n);
    NoPanic(d, target, root, pivot, n);
  }

  lemma NothingBelow(d: Disk, target: Header, root: Hash, n: nat)
    requires 0 < n <= target.number && Found(d, target, n - 1).None? && !Acceptable(d, target, root, n)
    ensures Highest(d, target, root, n) == 0
    ensures forall m: nat :: m <= n ==> (Passed(d, target, root, m) <==> Passed(d, target, root, n))
  {
    forall m: nat | m < n ensures Found(d, target, m).None? {
      GapStays(d, target, n - 1, m);
    }
    assert forall m: nat :: m < n ==> !RootAt(d, target, m, root) && !StatefulAt(d, target, m);
  }

  /** Where the loop stops otherwise, it would have panicked nowhere. */
  lemma NoPanic(d: Disk, target: Header, root: Hash, pivot: Option<nat>, n: nat)
    requires n <= target.number && Found(d, target, n).Some?
    requires n == 0 || Acceptable(d, target, root, n) || PivotAt(d, target, pivot, n)
             || (!StatefulAt(d, target, n) && Found(d, target, n - 1).None?)
    ensures !Panics(d, target, root, pivot)
  {
    forall m: nat ensures !PanicsAt(d, target, root, pivot, m) {
      if PanicsAt(d, target, root, pivot, m) {
        if m > n {
          GapStays(d, target, m - 1, n);
        } else if m < n && Found(d, target, n - 1).None? {
          GapStays(d, target, n - 1, m);
        }
      }
    }
  }

  /** The loop, on any store: it panics exactly in the case named above, and otherwise ends at the
      block that the walk determines, whose state is then present. */
  method Rewind(d: Disk, target: Header, root: Hash, pivot: Option<nat>) returns (r: Outcome)
    requires ValidDisk(d)
    ensures r.Panicked? <==> Panics(d, target, root, pivot)
    ensures r.Rewound? ==> RewindsTo(d, target, root, pivot, r.head, r.rootNumber)
    ensures r.Rewound? ==>
      && (if r.head.number == 0 then r.head == d.genesis else Stateful(d, r.head))
      && Settles(d, r.head, r.present)
  {
    assert IsRoot(d.headers, d.genesis.hash);
    var found := GetBlock(d.headers, d.bodies, target.hash, target.number);
    if found.None? {
      NotFound(d, target, root, pivot);
      return Rewound(d.genesis, 0, Settle(d, d.genesis));
    }
    var block, rootNumber, beyondRoot := found.value, 0, root == ZERO_HASH;
    while true
      invariant Stored(d.headers, block)
      invariant At(d, target, root, pivot, block, block.number + 1, beyondRoot, rootNumber)
      decreases block.number
    {
      CheckRoot(d, target, root, pivot, block, beyondRoot, rootNumber);
      if root != ZERO_HASH && !beyondRoot && block.root == root {
        beyondRoot, rootNumber := true, block.number;
      }
      assert block.number == 0 ==> IsRoot(d.headers, block.hash);
      if !Stateful(d, block) {
        var parent := None;
        if pivot.None? || block.number > pivot.value {
          parent := GetBlock(d.headers, d.bodies, block.parent, block.number - 1);
        }
        if parent.Some? {
          StepDown(d, target, root, pivot, block, beyondRoot, rootNumber, parent.value);
          block := parent.value;
          continue;
        }
        if block.number == 0 {
          StopsAt(d, target, root, pivot, block, beyondRoot, rootNumber);
        } else if pivot.Some? && block.number <= pivot.value {
          StopsAtPivot(d, target, root, pivot, block, beyondRoot, rootNumber);
        } else {
          StopsAtGap(d, target, root, pivot, block, beyondRoot, rootNumber);
        }
        return Rewound(d.genesis, rootNumber, Settle(d, d.genesis));
      }
      if beyondRoot || block.number == 0 {
        StopsAt(d, target, root, pivot, block, beyondRoot, rootNumber);
        return Rewound(block, rootNumber, Settle(d, block));
      }
      var parent := GetBlock(d.headers, d.bodies, block.parent, block.number - 1);
      if parent.None? {
        assert PanicsAt(d, target, root, pivot, block.number);
        return Panicked;
      }
      StepDown(d, target, root, pivot, block, beyondRoot, rootNumber, parent.value);
      block := parent.value;
    }
    assert false;
  }

  lemma NotFound(d: Disk, target: Header, root: Hash, pivot: Option<nat>)
    requires Found(d, target, target.number).None?
    ensures RewindsTo(d, target, root, pivot, d.genesis, 0) && !Panics(d, target, root, pivot)
  {
    forall m: nat | m <= target.number ensures Found(d, target, m).None? {
      GapStays(d, target, target.number, m);
    }
    var top := Highest(d, target, root, target.number);
    assert !StatefulAt(d, target, top);
  }

  /** In a complete store the walk is the parent walk, so it finds every ancestor and never panics. */
  lemma {:induction false} FoundIsAncestor(d: Disk, target: Header, n: nat)
    requires Complete(d.headers, d.bodies) && Stored(d.headers, target) && n <= target.number
    ensures Found(d, target, n).Some? && Found(d, target, n) == AncestorAt(d.headers, target, n)
    decreases target.number - n
  {
    if n < target.number {
      FoundIsAncestor(d, target, n + 1);
      var child := Found(d, target, n + 1).value;
      assert ParentStored(d.headers, child.hash) && ParentOf(d.headers, child.hash, child.parent);
      AncestorNext(d.headers, target.hash, target.number - n - 1);
    }
  }

  lemma CompleteNeverPanics(d: Disk, target: Header, root: Hash, pivot: Option<nat>)
    requires Complete(d.headers, d.bodies) && Stored(d.headers, target)
    ensures !Panics(d, target, root, pivot)
  {
    forall n: nat ensures !PanicsAt(d, target, root, pivot, n) {
      if 0 < n <= target.number {
        FoundIsAncestor(d, target, n - 1);
      }
    }
  }

  /** A store with a gap: the block at height two has state but its parent is missing. */
  function GappedDisk(): Disk {
    Disk(map[1 := Header(1, 0, 0, 5, 0), 3 := Header(3, 2, 2, 6, 0)], map[1 := [], 3 := []], Header(1, 0, 0, 5, 0), {5, 6}, {}, root => {root}, true)
  }

  /** There the loop panics if a root is requested that is not the block's. */
  lemma PanicReachable(root: Hash)
    requires root != ZERO_HASH && root != 6
    ensures ValidDisk(GappedDisk()) && Panics(GappedDisk(), Header(3, 2, 2, 6, 0), root, None)
  {
    var d, orphan := GappedDisk(), Header(3, 2, 2, 6, 0);
    assert forall h :: IsRoot(d.headers, h) <==> h == 1;
    assert Found(d, orphan, 2) == Some(orphan) && Found(d, orphan, 1).None?;
    assert !RootAt(d, orphan, 2, root);
    assert PanicsAt(d, orphan, root, None, 2);
  }
}
