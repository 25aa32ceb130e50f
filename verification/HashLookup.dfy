/** The block hash lookup handed to the virtual machine: a closure over a cache of ancestor
    hashes that grows as far back as it has been asked to go. */
module HashLookup {
  import opened Wrappers
  import opened BlockTree

  /** The hash at height `n` by a plain parent walk from `ref`, or zero. */
  ghost function Uncached(hs: Headers, ref: Header, n: nat): Hash {
    if n >= ref.number then ZERO_HASH
    else
      var walk := AncestorHash(hs, ref.parent, ref.number - n - 1);
      if walk.Some? then walk.value else ZERO_HASH
  }

  class HashLookup {
    const ref: Header
    var cache: seq<Hash>

    constructor (ref: Header)
      ensures this.ref == ref && cache == []
    {
      this.ref := ref;
      cache := [];
    }

    /** The cache holds the parent walk from the reference header, however far it went. */
    ghost predicate Valid(hs: Headers)
      reads this
    {
      && |cache| <= ref.number
      && (cache != [] ==> cache[0] == ref.parent)
      && forall i :: 0 <= i < |cache| ==> AncestorHash(hs, ref.parent, i) == Some(cache[i])
    }

    function GetHeader(hs: Headers, h: Hash, n: int): Option<Header> {
      if h in hs && hs[h].number == n then Some(hs[h]) else None
    }

    method Get(hs: Headers, n: nat) returns (hash: Hash)
      requires Valid(hs) && ValidTree(hs)
      requires ref.parent in hs ==> hs[ref.parent].number + 1 == ref.number
      modifies this`cache
      ensures Valid(hs)
      ensures hash == Uncached(hs, ref, n)
      ensures old(cache) <= cache
    {
      if ref.number <= n {
        return ZERO_HASH;
      }
      if |cache| == 0 {
        cache := [ref.parent];
      }
      var idx := ref.number - n - 1;
      if idx < |cache| {
        return cache[idx];
      }
      var lastKnownHash := cache[|cache| - 1];
      var lastKnownNumber := ref.number - |cache|;
      HeightOf(hs, ref.parent, ref.number - 1, |cache| - 1);
      while true
        invariant Valid(hs) && old(cache) <= cache && 0 < |cache| <= idx
        invariant lastKnownHash == cache[|cache| - 1] && lastKnownNumber == ref.number - |cache|
        invariant lastKnownHash in hs ==> hs[lastKnownHash].number == lastKnownNumber
        decreases lastKnownNumber
      {
        var header := GetHeader(hs, lastKnownHash, lastKnownNumber);
        AncestorHashNext(hs, ref.parent, |cache| - 1);
        if header.None? {
          break;
        }
        assert header.value.parent in hs ==> ParentOf(hs, lastKnownHash, header.value.parent);
        cache := cache + [header.value.parent];
        lastKnownHash := header.value.parent;
        lastKnownNumber := header.value.number - 1;
        if n == lastKnownNumber {
          return lastKnownHash;
        }
      }
      AncestorHashEnds(hs, ref.parent, |cache|, idx);
      return ZERO_HASH;
    }

    /** Any sequence of queries is answered as if there were no cache. */
    method GetAll(hs: Headers, ns: seq<nat>) returns (hashes: seq<Hash>)
      requires Valid(hs) && ValidTree(hs)
      requires ref.parent in hs ==> hs[ref.parent].number + 1 == ref.number
      modifies this`cache
      ensures Valid(hs)
      ensures |hashes| == |ns| && forall i :: 0 <= i < |ns| ==> hashes[i] == Uncached(hs, ref, ns[i])
    {
      hashes := [];
      for i := 0 to |ns|
        invariant Valid(hs) && |hashes| == i
        invariant forall j :: 0 <= j < i ==> hashes[j] == Uncached(hs, ref, ns[j])
      {
        var hash := Get(hs, ns[i]);
        hashes := hashes + [hash];
      }
    }

    /** The cache stays right when further headers are stored between queries. */
    lemma ValidGrows(hs: Headers, hs': Headers)
      requires Valid(hs) && forall g <- hs :: g in hs' && hs'[g] == hs[g]
      ensures Valid(hs')
    {
      forall i | 0 <= i < |cache| ensures AncestorHash(hs', ref.parent, i) == Some(cache[i]) {
        AncestorHashGrows(hs, hs', ref.parent, i);
      }
    }
  }

  /** A stored header lies as many heights below as steps were taken to it. */
  lemma {:induction false} HeightOf(hs: Headers, h: Hash, n: nat, k: nat)
    requires ValidTree(hs) && (h in hs ==> hs[h].number == n)
    requires AncestorHash(hs, h, k).Some? && k <= n
    ensures AncestorHash(hs, h, k).value in hs ==> hs[AncestorHash(hs, h, k).value].number == n - k
    decreases k
  {
    if k > 0 {
      assert hs[h].parent in hs ==> ParentOf(hs, h, hs[h].parent);
      HeightOf(hs, hs[h].parent, n - 1, k - 1);
    }
  }
}
