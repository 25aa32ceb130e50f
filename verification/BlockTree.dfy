/** Headers keyed by hash and linked by parent hash, and what it means for a
    number-to-hash index to be exactly the ancestor chain of a header. */
module BlockTree {
  import opened Wrappers

  /** Zero stands for the zero hash, which no stored header carries. */
  type Hash = nat

  const ZERO_HASH: Hash := 0

  /** `hash` is the header's own hash; keying a store by it (see `WellKeyed`) is
      the assumption that hashing is injective. */
  datatype Header = Header(hash: Hash, number: nat, parent: Hash, root: Hash, time: nat)

  type Headers = map<Hash, Header>
  type Index = map<nat, Hash>

  ghost predicate WellKeyed(hs: Headers) {
    forall h <- hs :: h != ZERO_HASH && hs[h].hash == h
  }

  /** Header validation leaves a stored child one above its stored parent. */
  ghost predicate NumbersFollowParents(hs: Headers) {
    forall h, p {:trigger ParentOf(hs, h, p)} :: ParentOf(hs, h, p) ==> hs[p].number + 1 == hs[h].number
  }

  ghost predicate ParentOf(hs: Headers, h: Hash, p: Hash) {
    h in hs && p in hs && hs[h].parent == p
  }

  ghost predicate ValidTree(hs: Headers) {
    WellKeyed(hs) && NumbersFollowParents(hs)
  }

  ghost predicate ParentStored(hs: Headers, h: Hash) {
    h in hs && hs[h].parent in hs
  }

  /** Every header but those at height zero has its parent stored, and there is at most
      one header at height zero, which names no parent: the store is ancestor-closed and
      rooted at genesis. */
  ghost predicate Rooted(hs: Headers) {
    && (forall h <- hs {:trigger ParentStored(hs, h)} :: hs[h].number > 0 ==> ParentStored(hs, h))
    && (forall h <- hs :: hs[h].number == 0 ==> hs[h].parent == ZERO_HASH)
    && forall g, h {:trigger IsRoot(hs, g), IsRoot(hs, h)} :: IsRoot(hs, g) && IsRoot(hs, h) ==> g == h
  }

  ghost predicate IsRoot(hs: Headers, h: Hash) {
    h in hs && hs[h].number == 0
  }

  predicate Stored(hs: Headers, header: Header) {
    header.hash in hs && hs[header.hash] == header
  }

  predicate OnIndex(idx: Index, block: Header) {
    block.number in idx && idx[block.number] == block.hash
  }

  /** The header `k` parent steps above `h`, if every header on the way is stored. */
  ghost function Ancestor(hs: Headers, h: Hash, k: nat): Option<Header>
    decreases k
  {
    if h !in hs then None
    else if k == 0 then Some(hs[h])
    else Ancestor(hs, hs[h].parent, k - 1)
  }

  /** The hash reached by `k` parent steps from `h`; the last one need not be stored. */
  ghost function AncestorHash(hs: Headers, h: Hash, k: nat): Option<Hash>
    decreases k
  {
    if k == 0 then Some(h) else if h in hs then AncestorHash(hs, hs[h].parent, k - 1) else None
  }

  /** The ancestor of `head` at height `n`, itself included. */
  ghost function AncestorAt(hs: Headers, head: Header, n: nat): Option<Header>
    requires n <= head.number
  {
    Ancestor(hs, head.hash, head.number - n)
  }

  /** `idx` holds the ancestors of `head`, each at its own height, and nothing else. */
  ghost predicate AncestorIndex(hs: Headers, idx: Index, head: Header) {
    && (forall n: nat :: n in idx <==> n <= head.number)
    && forall n: nat :: n <= head.number ==>
         AncestorAt(hs, head, n).Some?
         && AncestorAt(hs, head, n).value.hash == idx[n]
         && AncestorAt(hs, head, n).value.number == n
  }

  /** Adjacent entries of `idx` up to height `top` are stored headers linked by parent hash. */
  ghost predicate LinkedUpTo(hs: Headers, idx: Index, top: nat) {
    && (forall n: nat :: n <= top ==> n in idx && idx[n] in hs && hs[idx[n]].number == n)
    && forall i: nat, j: nat {:trigger idx[i], idx[j]} ::
         j == i + 1 && j <= top ==> hs[idx[j]].parent == idx[i]
  }

  /** The local form of `AncestorIndex` that the proofs about single steps use. */
  ghost predicate Canonical(hs: Headers, idx: Index, head: Header) {
    && (forall n: nat :: n in idx <==> n <= head.number)
    && LinkedUpTo(hs, idx, head.number)
    && idx[head.number] == head.hash
    && Stored(hs, head)
  }

  lemma {:induction false} LinkedWalk(hs: Headers, idx: Index, top: nat, k: nat)
    requires WellKeyed(hs) && LinkedUpTo(hs, idx, top) && k <= top
    ensures Ancestor(hs, idx[top], k).Some?
    ensures Ancestor(hs, idx[top], k).value.hash == idx[top - k]
    ensures Ancestor(hs, idx[top], k).value.number == top - k
    decreases k
  {
    if k > 0 {
      assert hs[idx[top]].parent == idx[top - 1];
      LinkedWalk(hs, idx, top - 1, k - 1);
    }
  }

  lemma {:induction false} AncestorStep(hs: Headers, h: Hash, k: nat)
    requires WellKeyed(hs) && Ancestor(hs, h, k + 1).Some?
    ensures Ancestor(hs, h, k).Some?
    ensures Ancestor(hs, h, k).value.parent == Ancestor(hs, h, k + 1).value.hash
    ensures Ancestor(hs, h, k).value.hash in hs
    ensures hs[Ancestor(hs, h, k).value.hash] == Ancestor(hs, h, k).value
    decreases k
  {
    if k > 0 {
      AncestorStep(hs, hs[h].parent, k - 1);
    }
  }

  lemma {:induction false} AncestorNext(hs: Headers, h: Hash, k: nat)
    requires WellKeyed(hs) && Ancestor(hs, h, k).Some?
    ensures Ancestor(hs, h, k + 1) ==
            (var p := Ancestor(hs, h, k).value.parent; if p in hs then Some(hs[p]) else None)
    decreases k
  {
    if k > 0 {
      AncestorNext(hs, hs[h].parent, k - 1);
    }
  }

  /** The local and the parent-walk characterisations agree. */
  lemma CanonicalIsAncestorIndex(hs: Headers, idx: Index, head: Header)
    requires WellKeyed(hs) && Stored(hs, head)
    ensures Canonical(hs, idx, head) <==> AncestorIndex(hs, idx, head)
  {
    if Canonical(hs, idx, head) {
      forall n: nat | n <= head.number
        ensures AncestorAt(hs, head, n).Some?
        ensures AncestorAt(hs, head, n).value.hash == idx[n]
        ensures AncestorAt(hs, head, n).value.number == n
      {
        LinkedWalk(hs, idx, head.number, head.number - n);
      }
    }
    if AncestorIndex(hs, idx, head) {
      AncestorIndexLinks(hs, idx, head);
    }
  }

  lemma AncestorIndexLinks(hs: Headers, idx: Index, head: Header)
    requires WellKeyed(hs) && Stored(hs, head) && AncestorIndex(hs, idx, head)
    ensures Canonical(hs, idx, head)
  {
    assert idx[head.number] == head.hash by {
      assert AncestorAt(hs, head, head.number).value == head;
    }
    forall n: nat | n <= head.number
      ensures n in idx && idx[n] in hs && hs[idx[n]].number == n
    {
      if n > 0 {
        var k := head.number - n;
        assert AncestorAt(hs, head, n).Some? && AncestorAt(hs, head, n - 1).Some?;
        AncestorStep(hs, head.hash, k);
      } else {
        assert AncestorAt(hs, head, n).Some?;
        AncestorStored(hs, head.hash, head.number);
      }
    }
    forall i: nat, j: nat | j == i + 1 && j <= head.number
      ensures hs[idx[j]].parent == idx[i]
    {
      assert AncestorAt(hs, head, i).Some? && AncestorAt(hs, head, j).Some?;
      AncestorStep(hs, head.hash, head.number - j);
    }
  }

  lemma {:induction false} AncestorStored(hs: Headers, h: Hash, k: nat)
    requires WellKeyed(hs) && Ancestor(hs, h, k).Some?
    ensures Ancestor(hs, h, k).value.hash in hs
    ensures hs[Ancestor(hs, h, k).value.hash] == Ancestor(hs, h, k).value
    decreases k
  {
    if k > 0 {
      AncestorStored(hs, hs[h].parent, k - 1);
    }
  }

  /** A head has one ancestor index. */
  lemma CanonicalUnique(hs: Headers, a: Index, b: Index, head: Header)
    requires WellKeyed(hs) && Canonical(hs, a, head) && Canonical(hs, b, head)
    ensures a == b
  {
    CanonicalIsAncestorIndex(hs, a, head);
    CanonicalIsAncestorIndex(hs, b, head);
    forall n: nat | n in a ensures a[n] == b[n] {
      assert AncestorAt(hs, head, n).value.hash == a[n] == b[n];
    }
    assert a.Keys == b.Keys;
  }

  lemma CanonicalExtends(hs: Headers, idx: Index, base: Header, child: Header)
    requires Canonical(hs, idx, base) && Stored(hs, child)
    requires child.parent == base.hash && child.number == base.number + 1
    ensures Canonical(hs, idx[child.number := child.hash], child)
  {
  }

  /** Storing further headers does not disturb an index. */
  lemma CanonicalGrows(hs: Headers, hs': Headers, idx: Index, head: Header)
    requires Canonical(hs, idx, head)
    requires forall h <- hs :: h in hs' && hs'[h] == hs[h]
    ensures Canonical(hs', idx, head)
  {
  }

  /** Storing a valid child of a stored header keeps the store valid and rooted. */
  lemma TreeGrows(hs: Headers, block: Header)
    requires ValidTree(hs) && Rooted(hs) && block.hash != ZERO_HASH
    requires block.parent in hs && hs[block.parent].number + 1 == block.number
    requires block.hash in hs ==> hs[block.hash] == block
    ensures ValidTree(hs[block.hash := block]) && Rooted(hs[block.hash := block])
  {
    var hs' := hs[block.hash := block];
    forall h, p | ParentOf(hs', h, p) ensures hs'[p].number + 1 == hs'[h].number {
      if h in hs {
        assert hs[h].number > 0 ==> ParentStored(hs, h);
        assert p in hs ==> ParentOf(hs, h, p);
      }
    }
    forall g, h | IsRoot(hs', g) && IsRoot(hs', h) ensures g == h {
      assert IsRoot(hs, g) && IsRoot(hs, h);
    }
    forall h <- hs' | hs'[h].number > 0 ensures ParentStored(hs', h) {
      assert h in hs ==> ParentStored(hs, h);
    }
  }

  lemma {:induction false} AncestorHashStored(hs: Headers, h: Hash, k: nat)
    requires WellKeyed(hs) && Ancestor(hs, h, k).Some?
    ensures AncestorHash(hs, h, k) == Some(Ancestor(hs, h, k).value.hash)
    decreases k
  {
    if k > 0 {
      AncestorHashStored(hs, hs[h].parent, k - 1);
    }
  }

  lemma {:induction false} AncestorHashNext(hs: Headers, h: Hash, k: nat)
    requires AncestorHash(hs, h, k).Some?
    ensures AncestorHash(hs, h, k + 1) ==
            (var a := AncestorHash(hs, h, k).value; if a in hs then Some(hs[a].parent) else None)
    decreases k
  {
    if k > 0 {
      AncestorHashNext(hs, hs[h].parent, k - 1);
    }
  }

  /** A walk that is cut short stays cut short. */
  lemma {:induction false} AncestorHashEnds(hs: Headers, h: Hash, k: nat, m: nat)
    requires AncestorHash(hs, h, k).None? && k <= m
    ensures AncestorHash(hs, h, m).None?
    decreases k
  {
    if h in hs {
      AncestorHashEnds(hs, hs[h].parent, k - 1, m - 1);
    }
  }

  /** Storing further headers does not change a walk that was complete. */
  lemma {:induction false} AncestorHashGrows(hs: Headers, hs': Headers, h: Hash, k: nat)
    requires forall g <- hs :: g in hs' && hs'[g] == hs[g]
    requires AncestorHash(hs, h, k).Some?
    ensures AncestorHash(hs', h, k) == AncestorHash(hs, h, k)
    decreases k
  {
    if k > 0 {
      AncestorHashGrows(hs, hs', hs[h].parent, k - 1);
    }
  }
}
