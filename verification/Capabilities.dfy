/** Negotiation of subprotocols: two peers compute the layout of message codes, each from its own
    protocols and the other's capabilities. */
module Capabilities {
  import opened Wrappers

  type Name = string // chars stand for the bytes of the name

  datatype Cap = Cap(name: Name, version: nat)

  datatype Protocol = Protocol(name: Name, version: nat, length: nat)

  /** A running protocol and the first code of its range. */
  datatype Match = Match(proto: Protocol, offset: nat)

  const BASE_PROTOCOL_LENGTH: nat := 16

  // ----- the order of capabilities -----

  /** Byte-wise comparison of names: negative, zero or positive. */
  function Compare(a: Name, b: Name): int {
    if a == [] then (if b == [] then 0 else -1)
    else if b == [] then 1
    else if a[0] < b[0] then -1
    else if a[0] > b[0] then 1
    else Compare(a[1..], b[1..])
  }

  lemma {:induction false} CompareOrders(a: Name, b: Name)
    ensures Compare(a, b) == 0 <==> a == b
    ensures Compare(a, b) == -Compare(b, a)
  {
    if a != [] && b != [] {
      assert a == [a[0]] + a[1..] && b == [b[0]] + b[1..];
      CompareOrders(a[1..], b[1..]);
    }
  }

  lemma {:induction false} CompareTransitive(a: Name, b: Name, c: Name)
    requires Compare(a, b) <= 0 && Compare(b, c) <= 0
    ensures Compare(a, c) <= 0
    ensures Compare(a, b) < 0 || Compare(b, c) < 0 ==> Compare(a, c) < 0
  {
    if a != [] && b != [] && c != [] && a[0] == b[0] == c[0] {
      CompareTransitive(a[1..], b[1..], c[1..]);
    }
  }

  /** The names are equal up to `k`, where `a` ends or has the lower byte. */
  predicate DivergesAt(a: Name, b: Name, k: nat) {
    k <= |a| && k < |b| && a[..k] == b[..k] && (k < |a| ==> a[k] < b[k])
  }

  /** Alphabetical order. */
  ghost predicate Before(a: Name, b: Name) {
    exists k: nat :: DivergesAt(a, b, k)
  }

  lemma {:induction false} CompareIsAlphabetical(a: Name, b: Name)
    ensures Compare(a, b) < 0 <==> Before(a, b)
  {
    if a == [] || b == [] || a[0] < b[0] {
      assert a == [] || (b != [] && a[0] < b[0]) ==> b == [] || DivergesAt(a, b, 0);
    } else {
      CompareIsAlphabetical(a[1..], b[1..]);
      if k: nat :| DivergesAt(a[1..], b[1..], k) && a[0] == b[0] {
        assert a[..k + 1] == [a[0]] + a[1..][..k] && b[..k + 1] == [b[0]] + b[1..][..k];
        assert DivergesAt(a, b, k + 1);
      }
      if k: nat :| DivergesAt(a, b, k) {
        assert a[..k][0] == b[..k][0];
        assert a[1..][..k - 1] == a[..k][1..] && b[1..][..k - 1] == b[..k][1..];
        assert DivergesAt(a[1..], b[1..], k - 1);
      }
    }
  }

  /** Capabilities go by name and then by version. */
  lemma CmpIsAlphabetical(a: Cap, b: Cap)
    ensures Cmp(a, b) < 0 <==> Before(a.name, b.name) || (a.name == b.name && a.version < b.version)
  {
    CompareOrders(a.name, b.name);
    CompareIsAlphabetical(a.name, b.name);
  }

  function Cmp(a: Cap, b: Cap): int {
    if a.name == b.name then
      if a.version < b.version then -1 else if a.version > b.version then 1 else 0
    else Compare(a.name, b.name)
  }

  /** `Cmp` is a total order whose equivalence is equality. */
  lemma CmpOrders(a: Cap, b: Cap)
    ensures Cmp(a, b) == 0 <==> a == b
    ensures Cmp(a, b) == -Cmp(b, a)
  {
    CompareOrders(a.name, b.name);
  }

  lemma CmpTransitive(a: Cap, b: Cap, c: Cap)
    requires Cmp(a, b) <= 0 && Cmp(b, c) <= 0
    ensures Cmp(a, c) <= 0
  {
    CompareOrders(a.name, b.name);
    CompareOrders(b.name, c.name);
    CompareOrders(a.name, c.name);
    CompareTransitive(a.name, b.name, c.name);
  }

  ghost predicate Sorted(caps: seq<Cap>) {
    forall i, j :: 0 <= i < j < |caps| ==> Cmp(caps[i], caps[j]) <= 0
  }

  lemma HeadLeast(s: seq<Cap>, x: Cap)
    requires Sorted(s) && x in multiset(s)
    ensures Cmp(s[0], x) <= 0
  {
    CmpOrders(s[0], s[0]);
  }

  lemma Prepend(x: Cap, s: seq<Cap>)
    requires Sorted(s) && forall y <- multiset(s) :: Cmp(x, y) <= 0
    ensures Sorted([x] + s) && multiset([x] + s) == multiset(s) + multiset{x}
  {
    forall j | 0 <= j < |s| ensures Cmp(x, s[j]) <= 0 {
      assert s[j] in multiset(s);
    }
  }

  lemma TailCounts(s: seq<Cap>)
    requires s != []
    ensures multiset(s) == multiset{s[0]} + multiset(s[1..])
  {
    assert s == [s[0]] + s[1..];
  }

  lemma SameHead(a: seq<Cap>, b: seq<Cap>)
    requires Sorted(a) && Sorted(b) && multiset(a) == multiset(b) && a != []
    ensures b != [] && a[0] == b[0] && multiset(a[1..]) == multiset(b[1..])
  {
    assert |multiset(a)| == |b|;
    TailCounts(a);
    TailCounts(b);
    HeadLeast(a, b[0]);
    HeadLeast(b, a[0]);
    CmpOrders(a[0], b[0]);
    assert multiset(a[1..]) == multiset(a) - multiset{a[0]};
    assert multiset(b[1..]) == multiset(b) - multiset{b[0]};
  }

  /** There is one way to sort, whatever the algorithm. */
  lemma {:induction false} SortedUnique(a: seq<Cap>, b: seq<Cap>)
    requires Sorted(a) && Sorted(b) && multiset(a) == multiset(b)
    ensures a == b
  {
    if a == [] {
      assert |multiset(b)| == 0;
    } else {
      SameHead(a, b);
      SortedUnique(a[1..], b[1..]);
      assert a == [a[0]] + a[1..] && b == [b[0]] + b[1..];
    }
  }

  lemma BelowAll(x: Cap, s: seq<Cap>)
    requires Sorted(s) && s != [] && Cmp(x, s[0]) <= 0
    ensures forall y <- multiset(s) :: Cmp(x, y) <= 0
  {
    forall y <- multiset(s) ensures Cmp(x, y) <= 0 {
      HeadLeast(s, y);
      CmpTransitive(x, s[0], y);
    }
  }

  /** Puts `x` at its place. */
  function Insert(x: Cap, s: seq<Cap>): seq<Cap> {
    if s == [] || Cmp(x, s[0]) <= 0 then [x] + s else [s[0]] + Insert(x, s[1..])
  }

  /** The old head stays first when `x` goes somewhere behind it. */
  lemma HeadStays(x: Cap, s: seq<Cap>, r: seq<Cap>)
    requires s != [] && Sorted(s) && Cmp(s[0], x) <= 0 && Sorted(r) && multiset(r) == multiset(s[1..]) + multiset{x}
    ensures Sorted([s[0]] + r) && multiset([s[0]] + r) == multiset(s) + multiset{x}
  {
    TailCounts(s);
    forall y <- multiset(r) ensures Cmp(s[0], y) <= 0 {
      if y != x {
        assert y in multiset(s[1..]);
        HeadLeast(s, y);
      }
    }
    Prepend(s[0], r);
  }

  lemma {:induction false} InsertSorts(x: Cap, s: seq<Cap>)
    requires Sorted(s)
    ensures Sorted(Insert(x, s)) && multiset(Insert(x, s)) == multiset(s) + multiset{x}
  {
    if s == [] {
    } else if Cmp(x, s[0]) <= 0 {
      BelowAll(x, s);
      Prepend(x, s);
    } else {
      InsertSorts(x, s[1..]);
      CmpOrders(x, s[0]);
      HeadStays(x, s, Insert(x, s[1..]));
    }
  }

  /** The sorted order of a list. */
  function SortCaps(s: seq<Cap>): (r: seq<Cap>)
    ensures Sorted(r) && multiset(r) == multiset(s)
  {
    if s == [] then []
    else
      TailCounts(s);
      InsertSorts(s[0], SortCaps(s[1..]));
      Insert(s[0], SortCaps(s[1..]))
  }

  // ----- what is negotiated -----

  /** The first protocol in the list with the capability. */
  function Find(protocols: seq<Protocol>, cap: Cap): (r: Option<Protocol>)
    ensures r.Some? ==> r.value in protocols && r.value.name == cap.name && r.value.version == cap.version
    ensures r.None? ==> forall p <- protocols :: p.name != cap.name || p.version != cap.version
  {
    if protocols == [] then None
    else if protocols[0].name == cap.name && protocols[0].version == cap.version then Some(protocols[0])
    else Find(protocols[1..], cap)
  }

  /** It is the first one. */
  lemma {:induction false} FindIsFirst(protocols: seq<Protocol>, i: nat)
    requires i < |protocols| && forall k :: 0 <= k < i ==> CapOf(protocols[k]) != CapOf(protocols[i])
    ensures Find(protocols, CapOf(protocols[i])) == Some(protocols[i])
  {
    if i > 0 {
      assert CapOf(protocols[0]) != CapOf(protocols[i]);
      FindIsFirst(protocols[1..], i - 1);
    }
  }

  function CapOf(p: Protocol): Cap {
    Cap(p.name, p.version)
  }

  /** The capabilities that the protocols and the other side's list share. */
  function Shared(protocols: seq<Protocol>, caps: seq<Cap>): set<Cap> {
    set cap <- caps | Find(protocols, cap).Some?
  }

  /** The ranges follow each other from the end of the base protocol to `end`. */
  ghost predicate Tiles(layout: seq<Match>, end: nat) {
    && (layout == [] ==> end == 16)
    && (layout != [] ==> layout[0].offset == 16)
    && (forall i, j :: 0 <= i && j == i + 1 && j < |layout| ==> layout[j].offset == End(layout[i]))
    && (layout != [] ==> end == End(layout[|layout| - 1]))
  }

  function End(m: Match): nat {
    m.offset + m.proto.length
  }

  /** Names go up in alphabetical order. */
  ghost predicate Ascending(layout: seq<Match>) {
    forall i, j :: 0 <= i < j < |layout| ==> Before(layout[i].proto.name, layout[j].proto.name)
  }

  /** Each entry is ours and carries the highest version that is shared under its name. */
  ghost predicate Best(protocols: seq<Protocol>, shared: set<Cap>, m: Match) {
    && CapOf(m.proto) in shared
    && Find(protocols, CapOf(m.proto)) == Some(m.proto)
    && forall cap <- shared :: cap.name == m.proto.name ==> cap.version <= m.proto.version
  }

  ghost predicate Listed(layout: seq<Match>, name: Name) {
    exists i :: 0 <= i < |layout| && layout[i].proto.name == name
  }

  /** The layout that the shared capabilities call for: one range for each shared name, in the order
      of names, for its highest shared version, without gaps or overlaps. */
  ghost predicate Negotiated(protocols: seq<Protocol>, shared: set<Cap>, layout: seq<Match>, end: nat) {
    && Ascending(layout) && Tiles(layout, end)
    && (forall i :: 0 <= i < |layout| ==> Best(protocols, shared, layout[i]))
    && (forall cap {:trigger Listed(layout, cap.name)} :: cap in shared ==> Listed(layout, cap.name))
  }

  /** The running protocols by name. */
  ghost predicate Holds(running: map<Name, Match>, layout: seq<Match>) {
    && (forall i :: 0 <= i < |layout| ==> layout[i].proto.name in running && running[layout[i].proto.name] == layout[i])
    && (forall name {:trigger Listed(layout, name)} :: name in running ==> Listed(layout, name))
  }

  ghost predicate Laid(protocols: seq<Protocol>, shared: set<Cap>, running: map<Name, Match>, layout: seq<Match>, end: nat) {
    Negotiated(protocols, shared, layout, end) && Holds(running, layout)
  }

  /** The running protocols are those of the negotiated layout. */
  ghost predicate Table(protocols: seq<Protocol>, caps: seq<Cap>, running: map<Name, Match>) {
    exists layout, end: nat :: Laid(protocols, Shared(protocols, caps), running, layout, end)
  }

  // ----- matching protocols -----

  ghost predicate Follows(layout: seq<Match>, name: Name) {
    layout != [] ==> Before(layout[|layout| - 1].proto.name, name)
  }

  lemma BeforeTransitive(a: Name, b: Name, c: Name)
    requires Before(a, b) && Before(b, c)
    ensures Before(a, c)
  {
    CompareIsAlphabetical(a, b);
    CompareIsAlphabetical(b, c);
    CompareIsAlphabetical(a, c);
    CompareTransitive(a, b, c);
  }

  lemma NotBeforeItself(a: Name)
    ensures !Before(a, a)
  {
  }

  lemma OrderSnoc(layout: seq<Match>, m: Match)
    requires Ascending(layout) && Follows(layout, m.proto.name)
    ensures Ascending(layout + [m])
    ensures forall i :: 0 <= i < |layout| ==> layout[i].proto.name != m.proto.name
  {
    forall i | 0 <= i < |layout| ensures Before(layout[i].proto.name, m.proto.name) && layout[i].proto.name != m.proto.name {
      NotBeforeItself(m.proto.name);
      if i < |layout| - 1 {
        BeforeTransitive(layout[i].proto.name, layout[|layout| - 1].proto.name, m.proto.name);
      }
    }
  }

  lemma TilesSnoc(layout: seq<Match>, end: nat, m: Match)
    requires Tiles(layout, end) && m.offset == end
    ensures Tiles(layout + [m], End(m))
  {
  }

  /** Taking off the last range gives its codes back. */
  lemma Unsnoc(layout: seq<Match>, end: nat)
    requires Ascending(layout) && Tiles(layout, end) && layout != []
    ensures var k := |layout| - 1;
      && Ascending(layout[..k]) && Follows(layout[..k], layout[k].proto.name)
      && Tiles(layout[..k], layout[k].offset) && end - layout[k].proto.length == layout[k].offset
  {
  }

  /** An entry stays the best one when a capability of another name joins. */
  lemma BestKept(protocols: seq<Protocol>, shared: set<Cap>, cap: Cap, front: seq<Match>)
    requires forall i :: 0 <= i < |front| ==> Best(protocols, shared, front[i]) && front[i].proto.name != cap.name
    ensures forall i :: 0 <= i < |front| ==> Best(protocols, shared + {cap}, front[i])
  {
  }

  lemma ListedSnoc(shared: set<Cap>, front: seq<Match>, m: Match)
    requires forall cap <- shared :: cap.name == m.proto.name || Listed(front, cap.name)
    ensures forall cap <- shared + {CapOf(m.proto)} :: Listed(front + [m], cap.name)
  {
    forall cap <- shared + {CapOf(m.proto)} ensures Listed(front + [m], cap.name) {
      if cap.name == m.proto.name {
        assert (front + [m])[|front|] == m;
      } else {
        var i :| 0 <= i < |front| && front[i].proto.name == cap.name;
        assert (front + [m])[i] == front[i];
      }
    }
  }

  /** The layout after a protocol gets the range behind `front`, where every other shared name is. */
  lemma Extend(protocols: seq<Protocol>, shared: set<Cap>, front: seq<Match>, end: nat, p: Protocol)
    requires Ascending(front) && Tiles(front, end) && Follows(front, p.name)
    requires forall i :: 0 <= i < |front| ==> Best(protocols, shared, front[i])
    requires forall cap <- shared :: if cap.name == p.name then cap.version <= p.version else Listed(front, cap.name)
    requires Find(protocols, CapOf(p)) == Some(p)
    ensures Negotiated(protocols, shared + {CapOf(p)}, front + [Match(p, end)], end + p.length)
  {
    var m := Match(p, end);
    OrderSnoc(front, m);
    TilesSnoc(front, end, m);
    BestKept(protocols, shared, CapOf(p), front);
    ListedSnoc(shared, front, m);
  }

  /** In sorted order, a name seen before is the last one of the layout. */
  lemma NameIsLast(protocols: seq<Protocol>, shared: set<Cap>, layout: seq<Match>, end: nat, cap: Cap)
    requires Negotiated(protocols, shared, layout, end)
    requires forall c <- shared :: Cmp(c, cap) <= 0
    ensures if Listed(layout, cap.name) then layout[|layout| - 1].proto.name == cap.name else Follows(layout, cap.name)
  {
    if layout != [] {
      var last := layout[|layout| - 1];
      assert Best(protocols, shared, last);
      assert Cmp(CapOf(last.proto), cap) <= 0;
      CmpOrders(CapOf(last.proto), cap);
      CmpIsAlphabetical(CapOf(last.proto), cap);
      if Listed(layout, cap.name) && last.proto.name != cap.name {
        var i :| 0 <= i < |layout| && layout[i].proto.name == cap.name;
        BeforeTransitive(cap.name, last.proto.name, cap.name);
        NotBeforeItself(cap.name);
        assert false;
      }
    }
  }

  /** The part of the layout that a match on `name` leaves in place. */
  function Front(layout: seq<Match>, name: Name): (front: seq<Match>)
    ensures |front| <= |layout| && front == layout[..|front|]
  {
    if layout != [] && layout[|layout| - 1].proto.name == name then layout[..|layout| - 1] else layout
  }

  lemma FrontLists(protocols: seq<Protocol>, shared: set<Cap>, layout: seq<Match>, end: nat, cap: Cap)
    requires Negotiated(protocols, shared, layout, end)
    requires forall c <- shared :: Cmp(c, cap) <= 0
    ensures forall c <- shared :: if c.name == cap.name then c.version <= cap.version else Listed(Front(layout, cap.name), c.name)
  {
    forall c <- shared
      ensures if c.name == cap.name then c.version <= cap.version else Listed(Front(layout, cap.name), c.name)
    {
      assert Cmp(c, cap) <= 0 && Listed(layout, c.name);
      if c.name != cap.name {
        var i :| 0 <= i < |layout| && layout[i].proto.name == c.name;
        assert Front(layout, cap.name)[i] == layout[i];
      }
    }
  }

  lemma HoldsSnoc(running: map<Name, Match>, layout: seq<Match>, front: seq<Match>, m: Match)
    requires Holds(running, layout) && Ascending(front) && Follows(front, m.proto.name)
    requires front == Front(layout, m.proto.name)
    ensures Holds(running[m.proto.name := m], front + [m])
  {
    var layout' := front + [m];
    OrderSnoc(front, m);
    forall name <- running[m.proto.name := m] ensures Listed(layout', name) {
      if name == m.proto.name {
        assert layout'[|front|] == m;
      } else {
        assert Listed(layout, name);
        var i :| 0 <= i < |layout| && layout[i].proto.name == name;
        assert layout'[i] == layout[i];
      }
    }
  }

  lemma HoldsListed(running: map<Name, Match>, layout: seq<Match>, name: Name)
    requires Holds(running, layout)
    ensures name in running <==> Listed(layout, name)
  {
  }

  /** A newer version of the last name takes over its range. */
  lemma Rematch(protocols: seq<Protocol>, shared: set<Cap>, running: map<Name, Match>, layout: seq<Match>, end: nat, p: Protocol)
    requires Negotiated(protocols, shared, layout, end) && Holds(running, layout) && p.name in running
    requires Find(protocols, CapOf(p)) == Some(p)
    requires forall c <- shared :: Cmp(c, CapOf(p)) <= 0
    ensures layout != [] && running[p.name] == layout[|layout| - 1]
    ensures var start := layout[|layout| - 1].offset;
      && start == end - running[p.name].proto.length
      && Negotiated(protocols, shared + {CapOf(p)}, Front(layout, p.name) + [Match(p, start)], start + p.length)
      && Holds(running[p.name := Match(p, start)], Front(layout, p.name) + [Match(p, start)])
  {
    HoldsListed(running, layout, p.name);
    NameIsLast(protocols, shared, layout, end, CapOf(p));
    FrontLists(protocols, shared, layout, end, CapOf(p));
    Unsnoc(layout, end);
    Extend(protocols, shared, Front(layout, p.name), layout[|layout| - 1].offset, p);
    HoldsSnoc(running, layout, Front(layout, p.name), Match(p, layout[|layout| - 1].offset));
  }

  /** A new name gets the next range. */
  lemma FirstMatch(protocols: seq<Protocol>, shared: set<Cap>, running: map<Name, Match>, layout: seq<Match>, end: nat, p: Protocol)
    requires Negotiated(protocols, shared, layout, end) && Holds(running, layout) && p.name !in running
    requires Find(protocols, CapOf(p)) == Some(p)
    requires forall c <- shared :: Cmp(c, CapOf(p)) <= 0
    ensures Negotiated(protocols, shared + {CapOf(p)}, Front(layout, p.name) + [Match(p, end)], end + p.length)
    ensures Holds(running[p.name := Match(p, end)], Front(layout, p.name) + [Match(p, end)])
  {
    HoldsListed(running, layout, p.name);
    NameIsLast(protocols, shared, layout, end, CapOf(p));
    FrontLists(protocols, shared, layout, end, CapOf(p));
    assert Front(layout, p.name) == layout by {
      if layout != [] {
        assert layout[|layout| - 1].proto.name in running;
      }
    }
    Extend(protocols, shared, layout, end, p);
    HoldsSnoc(running, layout, layout, Match(p, end));
  }

  lemma SharedNext(protocols: seq<Protocol>, caps: seq<Cap>, k: nat)
    requires k < |caps| && Sorted(caps)
    ensures Shared(protocols, caps[..k + 1]) ==
      if Find(protocols, caps[k]).Some? then Shared(protocols, caps[..k]) + {caps[k]} else Shared(protocols, caps[..k])
    ensures forall c <- Shared(protocols, caps[..k]) :: Cmp(c, caps[k]) <= 0
  {
    assert caps[..k + 1] == caps[..k] + [caps[k]];
  }

  lemma SharedSorted(protocols: seq<Protocol>, a: seq<Cap>, b: seq<Cap>)
    requires multiset(a) == multiset(b)
    ensures Shared(protocols, a) == Shared(protocols, b)
  {
    forall c ensures c in a <==> c in b {
      assert c in a <==> c in multiset(a);
      assert c in b <==> c in multiset(b);
    }
  }

  /** The protocol that a capability selects, found by scanning our list. */
  method FindProtocol(protocols: seq<Protocol>, cap: Cap) returns (r: Option<Protocol>)
    ensures r == Find(protocols, cap)
  {
    for i := 0 to |protocols|
      invariant Find(protocols, cap) == Find(protocols[i..], cap)
    {
      if protocols[i].name == cap.name && protocols[i].version == cap.version {
        return Some(protocols[i]);
      }
      assert protocols[i..][1..] == protocols[i + 1..];
    }
    return None;
  }

  /** Gives a matched protocol its range, taking back that of an older version. */
  method Assign(protocols: seq<Protocol>, ghost shared: set<Cap>, running: map<Name, Match>, ghost layout: seq<Match>, offset: nat, proto: Protocol)
    returns (running': map<Name, Match>, ghost layout': seq<Match>, offset': nat)
    requires Negotiated(protocols, shared, layout, offset) && Holds(running, layout)
    requires Find(protocols, CapOf(proto)) == Some(proto)
    requires forall c <- shared :: Cmp(c, CapOf(proto)) <= 0
    ensures Negotiated(protocols, shared + {CapOf(proto)}, layout', offset') && Holds(running', layout')
  {
    var start := offset;
    if proto.name in running {
      Rematch(protocols, shared, running, layout, offset, proto);
      start := start - running[proto.name].proto.length;
    } else {
      FirstMatch(protocols, shared, running, layout, offset, proto);
    }
    running' := running[proto.name := Match(proto, start)];
    layout' := Front(layout, proto.name) + [Match(proto, start)];
    offset' := start + proto.length;
  }

  /** Whatever the order of the lists, the result is the negotiated layout. */
  method MatchProtocols(protocols: seq<Protocol>, caps: seq<Cap>) returns (running: map<Name, Match>)
    ensures Table(protocols, caps, running)
  {
    var sorted := SortCaps(caps);
    SharedSorted(protocols, caps, sorted);
    var offset: nat := BASE_PROTOCOL_LENGTH;
    running := map[];
    ghost var layout: seq<Match> := [];
    for k := 0 to |sorted|
      invariant Negotiated(protocols, Shared(protocols, sorted[..k]), layout, offset) && Holds(running, layout)
    {
      SharedNext(protocols, sorted, k);
      var found := FindProtocol(protocols, sorted[k]);
      if found.Some? {
        var proto := found.value;
        running, layout, offset := Assign(protocols, Shared(protocols, sorted[..k]), running, layout, offset, proto);
      }
    }
    assert sorted[..|sorted|] == sorted;
    assert Laid(protocols, Shared(protocols, caps), running, layout, offset);
  }

  // ----- two peers -----

  /** No higher version is shared under the name. */
  ghost predicate Highest(shared: set<Cap>, cap: Cap) {
    cap in shared && forall other <- shared :: other.name == cap.name ==> other.version <= cap.version
  }

  /** Both sides give the highest shared version of each name the same number of codes. */
  ghost predicate SameLengths(a: seq<Protocol>, b: seq<Protocol>, shared: set<Cap>) {
    forall cap :: Highest(shared, cap) && Find(a, cap).Some? && Find(b, cap).Some? ==>
      Find(a, cap).value.length == Find(b, cap).value.length
  }

  lemma NextName(a: seq<Protocol>, b: seq<Protocol>, shared: set<Cap>, la: seq<Match>, ea: nat, lb: seq<Match>, eb: nat, i: nat)
    requires Negotiated(a, shared, la, ea) && Negotiated(b, shared, lb, eb)
    requires i < |la| && i <= |lb| && la[..i] == lb[..i]
    ensures i < |lb| && (lb[i].proto.name == la[i].proto.name || Before(lb[i].proto.name, la[i].proto.name))
  {
    var name := la[i].proto.name;
    assert Best(a, shared, la[i]);
    assert Listed(lb, CapOf(la[i].proto).name);
    NotBeforeItself(name);
    forall k | 0 <= k < i ensures lb[k].proto.name != name {
      assert lb[k] == lb[..i][k] == la[..i][k] == la[k];
    }
    var j :| 0 <= j < |lb| && lb[j].proto.name == name;
  }

  lemma SameNext(a: seq<Protocol>, b: seq<Protocol>, shared: set<Cap>, la: seq<Match>, ea: nat, lb: seq<Match>, eb: nat, i: nat)
    requires Negotiated(a, shared, la, ea) && Negotiated(b, shared, lb, eb) && SameLengths(a, b, shared)
    requires i < |la| && i <= |lb| && la[..i] == lb[..i]
    ensures i < |lb| && la[i] == lb[i]
  {
    NextName(a, b, shared, la, ea, lb, eb, i);
    NextName(b, a, shared, lb, eb, la, ea, i);
    if la[i].proto.name != lb[i].proto.name {
      BeforeTransitive(la[i].proto.name, lb[i].proto.name, la[i].proto.name);
      NotBeforeItself(la[i].proto.name);
    }
    assert Best(a, shared, la[i]) && Best(b, shared, lb[i]);
    assert CapOf(la[i].proto) == CapOf(lb[i].proto) && Highest(shared, CapOf(la[i].proto));
    if i > 0 {
      assert la[i - 1] == la[..i][i - 1] == lb[i - 1];
      assert la[i].offset == End(la[i - 1]) && lb[i].offset == End(lb[i - 1]);
    }
  }

  /** The shared capabilities and their lengths determine the layout. */
  lemma {:induction false} LayoutUnique(a: seq<Protocol>, b: seq<Protocol>, shared: set<Cap>, la: seq<Match>, ea: nat, lb: seq<Match>, eb: nat, i: nat)
    requires Negotiated(a, shared, la, ea) && Negotiated(b, shared, lb, eb) && SameLengths(a, b, shared)
    requires i <= |la| && i <= |lb| && la[..i] == lb[..i]
    ensures la == lb && ea == eb
    decreases |la| - i
  {
    if i < |la| {
      SameNext(a, b, shared, la, ea, lb, eb, i);
      assert la[..i + 1] == la[..i] + [la[i]] == lb[..i + 1];
      LayoutUnique(a, b, shared, la, ea, lb, eb, i + 1);
    } else {
      if i < |lb| {
        NextName(b, a, shared, lb, eb, la, ea, i);
      }
      assert la == la[..i] == lb[..i] == lb;
    }
  }

  /** A side announces the capabilities of its protocols, in some order. */
  ghost predicate Announces(protocols: seq<Protocol>, caps: seq<Cap>) {
    forall cap :: cap in caps <==> Find(protocols, cap).Some?
  }

  lemma SharedSymmetric(a: seq<Protocol>, capsA: seq<Cap>, b: seq<Protocol>, capsB: seq<Cap>)
    requires Announces(a, capsA) && Announces(b, capsB)
    ensures Shared(a, capsB) == Shared(b, capsA)
  {
  }

  /** The entry for the name of a highest shared version is that version. */
  lemma HighestRuns(protocols: seq<Protocol>, shared: set<Cap>, running: map<Name, Match>, layout: seq<Match>, end: nat, cap: Cap)
    requires Negotiated(protocols, shared, layout, end) && Holds(running, layout) && Highest(shared, cap)
    ensures cap.name in running && Find(protocols, cap) == Some(running[cap.name].proto)
  {
    assert Listed(layout, cap.name);
    var i :| 0 <= i < |layout| && layout[i].proto.name == cap.name;
    assert Best(protocols, shared, layout[i]);
    assert CapOf(layout[i].proto) == cap;
  }

  /** Two peers run the same protocols over the same codes exactly when they agree on the lengths of
      the versions that win. */
  lemma PeersAgree(a: seq<Protocol>, capsA: seq<Cap>, runningA: map<Name, Match>, b: seq<Protocol>, capsB: seq<Cap>, runningB: map<Name, Match>)
    requires Announces(a, capsA) && Announces(b, capsB)
    requires Table(a, capsB, runningA) && Table(b, capsA, runningB)
    ensures runningA == runningB <==> SameLengths(a, b, Shared(a, capsB))
  {
    var shared := Shared(a, capsB);
    SharedSymmetric(a, capsA, b, capsB);
    var la, ea: nat :| Laid(a, shared, runningA, la, ea);
    var lb, eb: nat :| Laid(b, shared, runningB, lb, eb);
    if SameLengths(a, b, shared) {
      LayoutUnique(a, b, shared, la, ea, lb, eb, 0);
      SameLayout(runningA, runningB, la);
    }
    if runningA == runningB {
      forall cap | Highest(shared, cap) ensures Find(a, cap) == Find(b, cap) {
        HighestRuns(a, shared, runningA, la, ea, cap);
        HighestRuns(b, shared, runningB, lb, eb, cap);
      }
    }
  }

  /** The table is determined by the lists, whatever their order. */
  lemma TableUnique(protocols: seq<Protocol>, caps: seq<Cap>, running: map<Name, Match>, caps': seq<Cap>, running': map<Name, Match>)
    requires Table(protocols, caps, running) && Table(protocols, caps', running') && multiset(caps) == multiset(caps')
    ensures running == running'
  {
    SharedSorted(protocols, caps, caps');
    var shared := Shared(protocols, caps);
    var l, e: nat :| Laid(protocols, shared, running, l, e);
    var l', e': nat :| Laid(protocols, shared, running', l', e');
    LayoutUnique(protocols, protocols, shared, l, e, l', e', 0);
    SameLayout(running, running', l);
  }

  lemma SameLayout(runningA: map<Name, Match>, runningB: map<Name, Match>, layout: seq<Match>)
    requires Holds(runningA, layout) && Holds(runningB, layout)
    ensures runningA == runningB
  {
    forall name ensures name in runningA <==> name in runningB {
      HoldsListed(runningA, layout, name);
      HoldsListed(runningB, layout, name);
    }
    forall name <- runningA ensures runningA[name] == runningB[name] {
      HoldsListed(runningA, layout, name);
      var i :| 0 <= i < |layout| && layout[i].proto.name == name;
    }
  }

  // ----- message codes -----

  predicate Covers(m: Match, code: nat) {
    m.offset <= code < End(m)
  }

  lemma {:induction false} TilesAscend(layout: seq<Match>, end: nat, i: nat, j: nat)
    requires Tiles(layout, end) && i < j < |layout|
    ensures End(layout[i]) <= layout[j].offset
    decreases j
  {
    if i + 1 < j {
      TilesAscend(layout, end, i, j - 1);
      assert layout[j].offset == End(layout[j - 1]);
    }
  }

  lemma {:induction false} TilesCover(layout: seq<Match>, end: nat, code: nat)
    requires Tiles(layout, end)
    ensures BASE_PROTOCOL_LENGTH <= code < end <==> exists i :: 0 <= i < |layout| && Covers(layout[i], code)
    decreases |layout|
  {
    if layout != [] {
      var k := |layout| - 1;
      assert Tiles(layout[..k], layout[k].offset);
      TilesCover(layout[..k], layout[k].offset, code);
      assert forall i :: 0 <= i < k ==> layout[..k][i] == layout[i];
      if BASE_PROTOCOL_LENGTH <= code < end {
        if code < layout[k].offset {
          var i :| 0 <= i < k && Covers(layout[..k][i], code);
          assert Covers(layout[i], code);
        } else {
          assert Covers(layout[k], code);
        }
      }
      forall i | 0 <= i < |layout| && Covers(layout[i], code) ensures BASE_PROTOCOL_LENGTH <= code < end {
        if i < k {
          assert Covers(layout[..k][i], code);
        } else if k > 0 {
          OffsetsFromBase(layout, end, k);
        }
      }
    }
  }

  lemma {:induction false} OffsetsFromBase(layout: seq<Match>, end: nat, i: nat)
    requires Tiles(layout, end) && i < |layout|
    ensures BASE_PROTOCOL_LENGTH <= layout[i].offset
  {
    if i > 0 {
      OffsetsFromBase(layout, end, i - 1);
      assert layout[i].offset == End(layout[i - 1]);
    }
  }

  /** At most one running protocol covers a code, so the order of the scan does not matter. */
  lemma CoverUnique(running: map<Name, Match>, layout: seq<Match>, end: nat, x: Name, y: Name, code: nat)
    requires Tiles(layout, end) && Holds(running, layout)
    requires x in running && y in running && Covers(running[x], code) && Covers(running[y], code)
    ensures x == y
  {
    HoldsListed(running, layout, x);
    HoldsListed(running, layout, y);
    var i :| 0 <= i < |layout| && layout[i].proto.name == x;
    var j :| 0 <= j < |layout| && layout[j].proto.name == y;
    if i < j {
      TilesAscend(layout, end, i, j);
    } else if j < i {
      TilesAscend(layout, end, j, i);
    }
  }

  /** Finds the protocol for a code by scanning the map in any order. It finds one exactly for the
      codes between the base protocol and the end, and always the same one. */
  method GetProto(running: map<Name, Match>, code: nat, ghost layout: seq<Match>, ghost end: nat) returns (r: Option<Match>)
    requires Tiles(layout, end) && Holds(running, layout)
    ensures r.Some? <==> BASE_PROTOCOL_LENGTH <= code < end
    ensures r.Some? ==> Covers(r.value, code) && r.value.proto.name in running && running[r.value.proto.name] == r.value
    ensures forall name <- running :: Covers(running[name], code) ==> r == Some(running[name])
  {
    var todo := running.Keys;
    while todo != {}
      invariant todo <= running.Keys
      invariant forall name <- running :: name !in todo ==> !Covers(running[name], code)
      decreases todo
    {
      var name :| name in todo;
      if Covers(running[name], code) {
        HoldsListed(running, layout, name);
        forall other <- running | Covers(running[other], code) ensures other == name {
          CoverUnique(running, layout, end, name, other, code);
        }
        TilesCover(layout, end, code);
        return Some(running[name]);
      }
      todo := todo - {name};
    }
    TilesCover(layout, end, code);
    return None;
  }

  /** The code that goes over the wire, or none if the protocol does not have it. */
  function WriteCode(m: Match, code: nat): Option<nat> {
    if code >= m.proto.length then None else Some(code + m.offset)
  }

  /** The code that the protocol reads. */
  function ReadCode(m: Match, wire: nat): int {
    wire - m.offset
  }

  /** Two peers negotiate and one sends a message: its code is no base protocol code, reaches the
      same protocol at the other side and is read back unchanged. */
  method Exchange(a: seq<Protocol>, capsA: seq<Cap>, b: seq<Protocol>, capsB: seq<Cap>, name: Name, code: nat)
    returns (sender: Option<Match>, wire: Option<nat>, receiver: Option<Match>, read: int)
    requires Announces(a, capsA) && Announces(b, capsB) && SameLengths(a, b, Shared(a, capsB))
    ensures sender.Some? <==> exists version :: Cap(name, version) in Shared(a, capsB)
    ensures wire.Some? <==> sender.Some? && code < sender.value.proto.length
    ensures wire.Some? ==> wire.value == sender.value.offset + code >= 16 && receiver == sender && read == code
  {
    var runningA := MatchProtocols(a, capsB);
    var runningB := MatchProtocols(b, capsA);
    PeersAgree(a, capsA, runningA, b, capsB, runningB);
    ghost var layout, end: nat :| Laid(a, Shared(a, capsB), runningA, layout, end);
    RunningNames(a, Shared(a, capsB), runningA, layout, end, name);
    sender, wire, receiver, read := None, None, None, 0;
    if name in runningA {
      sender := Some(runningA[name]);
      wire := WriteCode(runningA[name], code);
      if wire.Some? {
        assert Covers(runningA[name], wire.value);
        receiver := GetProto(runningB, wire.value, layout, end);
        read := ReadCode(receiver.value, wire.value);
      }
    }
  }

  lemma RunningNames(protocols: seq<Protocol>, shared: set<Cap>, running: map<Name, Match>, layout: seq<Match>, end: nat, name: Name)
    requires Negotiated(protocols, shared, layout, end) && Holds(running, layout)
    ensures name in running <==> exists version :: Cap(name, version) in shared
  {
    HoldsListed(running, layout, name);
    if name in running {
      var i :| 0 <= i < |layout| && layout[i].proto.name == name;
      assert Best(protocols, shared, layout[i]);
      assert Cap(name, layout[i].proto.version) in shared;
    }
    if version :| Cap(name, version) in shared {
      assert Listed(layout, Cap(name, version).name);
    }
  }

  /** Counts the pairs of a capability and a protocol that match. */
  method CountMatching(protocols: seq<Protocol>, caps: seq<Cap>) returns (n: nat)
    ensures n == 0 <==> Shared(protocols, caps) == {}
  {
    n := 0;
    for i := 0 to |caps|
      invariant n == 0 <==> forall k, p :: 0 <= k < i && p in protocols ==> CapOf(p) != caps[k]
    {
      ghost var before := n;
      for j := 0 to |protocols|
        invariant before <= n
        invariant n == before <==> forall l :: 0 <= l < j ==> CapOf(protocols[l]) != caps[i]
      {
        if protocols[j].name == caps[i].name && protocols[j].version == caps[i].version {
          n := n + 1;
        }
      }
    }
    if n > 0 {
      var k, p :| 0 <= k < |caps| && p in protocols && CapOf(p) == caps[k];
      assert caps[k] in Shared(protocols, caps);
    }
  }
}
