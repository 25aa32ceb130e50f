/** The server's run loop: it admits and drops peers within the configured limits and notifies the
    dial scheduler. */
module Server {
  import opened Arithmetic
  import opened Wrappers
  import opened Dial
  import Capabilities

  const DEFAULT_DIAL_RATIO: int := 3
  const DEFAULT_MAX_PENDING_PEERS: int := 50

  /** Integer division that truncates toward zero. */
  function Quotient(a: int, b: int): int
    requires b != 0
  {
    if a >= 0 then a / b else -((-a) / b)
  }

  datatype Limits = Limits(maxPeers: int, dialRatio: int, noDial: bool) {
    function MaxDialedConns(): int {
      if noDial || maxPeers == 0 then 0
      else
        var limit := Quotient(maxPeers, if dialRatio == 0 then DEFAULT_DIAL_RATIO else dialRatio);
        if limit == 0 then 1 else limit
    }

    function MaxInboundConns(): int {
      maxPeers - MaxDialedConns()
    }
  }

  lemma QuotientBound(a: nat, b: nat)
    requires b > 0
    ensures 0 <= a / b <= a
  {
    var q, c := a / b, b - 1;
    assert a == q * (c + 1) + a % b;
    assert q * (c + 1) == q * c + q && q * c >= 0;
  }

  /** The two limits share out the peers; dialing keeps at least one slot. */
  lemma LimitsShare(l: Limits)
    requires l.maxPeers >= 0 && l.dialRatio >= 0
    ensures 0 <= l.MaxDialedConns() <= l.maxPeers && 0 <= l.MaxInboundConns() <= l.maxPeers
    ensures l.MaxDialedConns() + l.MaxInboundConns() == l.maxPeers
    ensures l.MaxDialedConns() == 0 <==> l.noDial || l.maxPeers == 0
  {
    QuotientBound(l.maxPeers, if l.dialRatio == 0 then DEFAULT_DIAL_RATIO else l.dialRatio);
  }

  /** One peer in as many as the ratio says, three by default, may be dialed, but at least one. */
  lemma DialShare(l: Limits)
    requires l.maxPeers > 0 && l.dialRatio >= 0 && !l.noDial
    ensures var ratio, dialed := if l.dialRatio == 0 then 3 else l.dialRatio, l.MaxDialedConns();
      if l.maxPeers < ratio then dialed == 1 else ratio * dialed <= l.maxPeers < ratio * (dialed + 1)
  {
    var ratio := if l.dialRatio == 0 then 3 else l.dialRatio;
    var q := l.maxPeers / ratio;
    assert l.maxPeers == ratio * q + l.maxPeers % ratio;
    assert ratio * (q + 1) == ratio * q + ratio;
    if q == 0 {
      assert ratio * q == 0;
    }
  }

  datatype Reason = TooManyPeers | AlreadyConnected | Self | UselessPeer

  /** A connection; its trusted flag may change while it is set up and after. */
  class Conn {
    const id: ID
    const inbound: bool
    const dialed: bool // dynamic or static
    const caps: seq<Capabilities.Cap>
    var trusted: bool

    constructor (id: ID, inbound: bool, dialed: bool, caps: seq<Capabilities.Cap>)
      ensures this.id == id && this.inbound == inbound && this.dialed == dialed && this.caps == caps && !trusted
    {
      this.id, this.inbound, this.dialed, this.caps, trusted := id, inbound, dialed, caps, false;
    }
  }

  function Inbound(peers: map<ID, Conn>): set<ID> {
    set id <- peers | peers[id].inbound
  }

  function Dialed(peers: map<ID, Conn>): set<ID> {
    set id <- peers | peers[id].dialed
  }

  lemma InboundAdded(peers: map<ID, Conn>, c: Conn)
    requires c.id !in peers
    ensures Inbound(peers[c.id := c]) == if c.inbound then Inbound(peers) + {c.id} else Inbound(peers)
  {
  }

  lemma DialedAdded(peers: map<ID, Conn>, c: Conn)
    requires c.id !in peers
    ensures Dialed(peers[c.id := c]) == if c.dialed then Dialed(peers) + {c.id} else Dialed(peers)
  {
  }

  /** The scheduler's peers after it has handled the notifications. */
  ghost function PeersAfterAll(pending: seq<Event>, peers: set<ID>): set<ID> {
    if pending == [] then peers
    else PeersAfterAll(pending[1..], DialScheduler.PeersAfter(pending[0], peers))
  }

  ghost function DialedAfterAll(pending: seq<Event>, dialed: int): int {
    if pending == [] then dialed
    else DialedAfterAll(pending[1..], DialScheduler.DialedAfter(pending[0], dialed))
  }

  lemma {:induction false} AfterSnoc(pending: seq<Event>, e: Event, peers: set<ID>, dialed: int)
    ensures PeersAfterAll(pending + [e], peers) == DialScheduler.PeersAfter(e, PeersAfterAll(pending, peers))
    ensures DialedAfterAll(pending + [e], dialed) == DialScheduler.DialedAfter(e, DialedAfterAll(pending, dialed))
  {
    if pending != [] {
      assert (pending + [e])[1..] == pending[1..] + [e];
      AfterSnoc(pending[1..], e, DialScheduler.PeersAfter(pending[0], peers), DialScheduler.DialedAfter(pending[0], dialed));
    }
  }

  /** Once it has handled the notifications, the scheduler knows the peers and how many are dialed. */
  ghost predicate InStep(pending: seq<Event>, known: set<ID>, dialed: int, peers: map<ID, Conn>) {
    PeersAfterAll(pending, known) == peers.Keys && DialedAfterAll(pending, dialed) == |Dialed(peers)|
  }

  lemma InStepAdded(pending: seq<Event>, known: set<ID>, dialed: int, peers: map<ID, Conn>, c: Conn)
    requires InStep(pending, known, dialed, peers) && c.id !in peers
    ensures InStep(pending + [PeerAdded(c.id, c.dialed)], known, dialed, peers[c.id := c])
  {
    AfterSnoc(pending, PeerAdded(c.id, c.dialed), known, dialed);
    DialedAdded(peers, c);
  }

  lemma InStepRemoved(pending: seq<Event>, known: set<ID>, dialed: int, peers: map<ID, Conn>, id: ID)
    requires InStep(pending, known, dialed, peers) && id in peers
    ensures InStep(pending + [PeerRemoved(id, peers[id].dialed)], known, dialed, peers - {id})
  {
    AfterSnoc(pending, PeerRemoved(id, peers[id].dialed), known, dialed);
    assert Dialed(peers - {id}) == Dialed(peers) - {id};
  }

  lemma InStepTaken(pending: seq<Event>, known: set<ID>, dialed: int, peers: map<ID, Conn>)
    requires InStep(pending, known, dialed, peers) && pending != []
    ensures InStep(pending[1..], DialScheduler.PeersAfter(pending[0], known), DialScheduler.DialedAfter(pending[0], dialed), peers)
  {
  }

  lemma CardinalitySubset(a: set<ID>, b: set<ID>)
    requires a <= b
    ensures |a| <= |b|
  {
    assert b == a + (b - a);
  }

  /** The counter is exact and the peers admitted as untrusted are within the limits. */
  ghost predicate Within(maxPeers: int, maxInbound: int, peers: map<ID, Conn>, untrusted: set<ID>, inboundCount: int) {
    && inboundCount == |Inbound(peers)|
    && untrusted <= peers.Keys
    && |untrusted| <= Max(0, maxPeers)
    && |untrusted * Inbound(peers)| <= Max(0, maxInbound)
  }

  lemma AdmitTrusted(maxPeers: int, maxInbound: int, peers: map<ID, Conn>, untrusted: set<ID>, inboundCount: int, c: Conn)
    requires Within(maxPeers, maxInbound, peers, untrusted, inboundCount) && c.id !in peers
    ensures Within(maxPeers, maxInbound, peers[c.id := c], untrusted, if c.inbound then inboundCount + 1 else inboundCount)
  {
    InboundAdded(peers, c);
    assert untrusted * Inbound(peers[c.id := c]) == untrusted * Inbound(peers);
  }

  /** Admitting one more untrusted peer below the limits keeps the limits. */
  lemma AdmitUntrusted(maxPeers: int, maxInbound: int, peers: map<ID, Conn>, untrusted: set<ID>, inboundCount: int, c: Conn)
    requires Within(maxPeers, maxInbound, peers, untrusted, inboundCount) && c.id !in peers
    requires |peers| < maxPeers && (c.inbound ==> inboundCount < maxInbound)
    ensures Within(maxPeers, maxInbound, peers[c.id := c], untrusted + {c.id}, if c.inbound then inboundCount + 1 else inboundCount)
    ensures |peers[c.id := c]| <= maxPeers
  {
    InboundAdded(peers, c);
    CardinalitySubset(untrusted, peers.Keys);
    assert |peers.Keys| == |peers|;
    CardinalitySubset(untrusted * Inbound(peers), Inbound(peers));
    var after := (untrusted + {c.id}) * Inbound(peers[c.id := c]);
    if c.inbound {
      assert after == untrusted * Inbound(peers) + {c.id};
    } else {
      assert after == untrusted * Inbound(peers);
    }
  }

  lemma Drop(maxPeers: int, maxInbound: int, peers: map<ID, Conn>, untrusted: set<ID>, inboundCount: int, id: ID)
    requires Within(maxPeers, maxInbound, peers, untrusted, inboundCount) && id in peers
    ensures Within(maxPeers, maxInbound, peers - {id}, untrusted - {id}, if peers[id].inbound then inboundCount - 1 else inboundCount)
  {
    assert Inbound(peers - {id}) == Inbound(peers) - {id};
    CardinalitySubset(untrusted - {id}, untrusted);
    CardinalitySubset((untrusted - {id}) * Inbound(peers - {id}), untrusted * Inbound(peers));
  }

  datatype Step =
    | AddTrusted(id: ID)
    | RemoveTrusted(id: ID)
    | PostHandshake(c: Conn)
    | AddPeer(c: Conn)
    | DelPeer(id: ID)
    | Notify // the scheduler handles its next notification
    | Dialing(e: Event) // the scheduler handles another event

  // ----- what a step does -----

  /** The server's own part; `flags` are the trusted flags of the connections in play. */
  datatype Own = Own(peers: map<ID, Conn>, inbound: int, trusted: set<ID>, pending: seq<Event>, untrusted: set<ID>,
                     flags: map<Conn, bool>)

  /** The server and the scheduler at one moment. */
  datatype State = State(own: Own, dial: Dial.Status)

  datatype Setup = Setup(limits: Limits, self: ID, protocols: seq<Capabilities.Protocol>, dial: Config)

  /** A step, what it answers, and the round of the scheduler if it is one. */
  datatype Turn = Turn(before: State, step: Step, answer: Option<Reason>, round: Option<Dial.Moment>, after: State)

  /** No place is left for an untrusted connection. */
  predicate Full(setup: Setup, s: Own, c: Conn) {
    |s.peers| >= setup.limits.maxPeers || (c.inbound && s.inbound >= setup.limits.MaxInboundConns())
  }

  ghost predicate Answers(setup: Setup, s: Own, c: Conn, trusted: bool, answer: Option<Reason>) {
    match answer
    case Some(TooManyPeers) => !trusted && Full(setup, s, c)
    case Some(AlreadyConnected) => (trusted || !Full(setup, s, c)) && c.id in s.peers
    case Some(Self) => (trusted || !Full(setup, s, c)) && c.id !in s.peers && c.id == setup.self
    case Some(UselessPeer) => false
    case None => (trusted || !Full(setup, s, c)) && c.id !in s.peers && c.id != setup.self
  }

  /** A protocol of ours is among the connection's capabilities. */
  predicate Useful(setup: Setup, c: Conn) {
    setup.protocols == [] || exists p <- setup.protocols :: Capabilities.CapOf(p) in c.caps
  }

  ghost function Flagged(s: Own, id: ID, trusted: bool): map<Conn, bool> {
    if id in s.peers then s.flags[s.peers[id] := trusted] else s.flags
  }

  ghost predicate Joins(setup: Setup, s: Own, c: Conn, answer: Option<Reason>, t: Own)
    requires c in s.flags
  {
    && (answer == Some(UselessPeer) <==> !Useful(setup, c))
    && (Useful(setup, c) ==> Answers(setup, s, c, s.flags[c], answer))
    && t == if answer.Some? then s else Joined(s, c)
  }

  ghost function Joined(s: Own, c: Conn): Own
    requires c in s.flags
  {
    s.(peers := s.peers[c.id := c], inbound := s.inbound + (if c.inbound then 1 else 0),
       pending := s.pending + [PeerAdded(c.id, c.dialed)],
       untrusted := if s.flags[c] then s.untrusted else s.untrusted + {c.id})
  }

  ghost predicate Leaves(s: Own, id: ID, t: Own) {
    t == if id !in s.peers then s
         else s.(peers := s.peers - {id}, inbound := s.inbound - (if s.peers[id].inbound then 1 else 0),
                 pending := s.pending + [PeerRemoved(id, s.peers[id].dialed)], untrusted := s.untrusted - {id})
  }

  /** What the loop does to its own part. */
  ghost predicate OwnStep(setup: Setup, s: Own, step: Step, answer: Option<Reason>, t: Own) {
    match step
    case AddTrusted(id) => t == s.(trusted := s.trusted + {id}, flags := Flagged(s, id, true))
    case RemoveTrusted(id) => t == s.(trusted := s.trusted - {id}, flags := Flagged(s, id, false))
    case PostHandshake(c) =>
      && c in s.flags && t == s.(flags := if c.id in s.trusted then s.flags[c := true] else s.flags)
      && Answers(setup, s, c, s.flags[c] || c.id in s.trusted, answer)
    case AddPeer(c) => c in s.flags && Joins(setup, s, c, answer, t)
    case DelPeer(id) => Leaves(s, id, t)
    case _ => t == s
  }

  /** A round of the scheduler on that event. */
  ghost predicate Rounds(setup: Setup, s: Dial.Status, e: Event, round: Option<Dial.Moment>, t: Dial.Status) {
    && round.Some? && Dial.Happens(setup.dial, round.value)
    && round.value.before == s && round.value.event == e && round.value.after == t
  }

  ghost predicate Does(setup: Setup, m: Turn) {
    var s, t := m.before, m.after;
    match m.step
    case Notify =>
      t.own == s.own.(pending := t.own.pending) && Rolls(setup, s.own.pending, s.dial, m.step, m.round, t.own.pending, t.dial)
    case Dialing(_) =>
      t.own == s.own.(pending := t.own.pending) && Rolls(setup, s.own.pending, s.dial, m.step, m.round, t.own.pending, t.dial)
    case _ => OwnStep(setup, s.own, m.step, m.answer, t.own) && t.dial == s.dial
  }

  /** What a round does to the notifications and the scheduler. */
  ghost predicate Rolls(setup: Setup, pending: seq<Event>, s: Dial.Status, step: Step, round: Option<Dial.Moment>,
                        pending': seq<Event>, t: Dial.Status)
    requires step.Notify? || step.Dialing?
  {
    match step
    case Notify =>
      if pending == [] then pending' == [] && t == s
      else pending' == pending[1..] && Rounds(setup, s, pending[0], round, t)
    case Dialing(e) => pending' == pending && if e.PeerAdded? || e.PeerRemoved? then t == s else Rounds(setup, s, e, round, t)
  }

  /** The steps of a run, each from where the last one ended. */
  ghost predicate Turns(setup: Setup, start: State, steps: seq<Step>, trace: seq<Turn>, end: State) {
    && |trace| == |steps|
    && if |trace| == 0 then end == start
       else
         var n := |trace| - 1;
         && trace[n].step == steps[n] && Does(setup, trace[n]) && trace[n].after == end
         && Turns(setup, start, steps[..n], trace[..n], trace[n].before)
  }

  lemma TurnsGrow(setup: Setup, start: State, steps: seq<Step>, i: nat, trace: seq<Turn>, m: Turn)
    requires i < |steps| && Turns(setup, start, steps[..i], trace, m.before) && Does(setup, m) && m.step == steps[i]
    ensures Turns(setup, start, steps[..i + 1], trace + [m], m.after)
  {
    var all := trace + [m];
    assert all[..|all| - 1] == trace && steps[..i + 1][..i] == steps[..i];
    assert all[|all| - 1] == m;
  }

  ghost function Flags(conns: set<Conn>): map<Conn, bool>
    reads conns`trusted
  {
    map c <- conns :: c.trusted
  }

  class Server {
    const limits: Limits
    const self: ID
    const protocols: seq<Capabilities.Protocol>
    var peers: map<ID, Conn>
    var inboundCount: int
    var trusted: set<ID>
    const dialsched: DialScheduler
    var pending: seq<Event> // notifications on their way to the scheduler
    ghost var untrusted: set<ID> // peers that were admitted as untrusted

    /** The loop's own state: the limits hold and the scheduler is in step. */
    ghost predicate Admitted()
      reads this, dialsched`peers, dialsched`dialPeers
    {
      && (forall id <- peers :: peers[id].id == id && id != self)
      && Within(limits.maxPeers, limits.MaxInboundConns(), peers, untrusted, inboundCount)
      && InStep(pending, dialsched.peers, dialsched.dialPeers, peers)
    }

    ghost predicate Valid()
      reads this, dialsched, dialsched.repr
    {
      Admitted() && dialsched.Valid()
    }

    constructor (limits: Limits, self: ID, protocols: seq<Capabilities.Protocol>, trustedNodes: set<ID>,
                 maxPendingPeers: int, netRestrict: Option<set<nat>>, now: Time)
      ensures Valid() && fresh(dialsched) && fresh(dialsched.repr) && peers == map[] && pending == []
      ensures this.limits == limits && this.self == self && this.protocols == protocols && trusted == trustedNodes
      ensures dialsched.cfg == Config(self, limits.MaxDialedConns(), if maxPendingPeers == 0 then 50 else maxPendingPeers, netRestrict)
    {
      this.limits, this.self, this.protocols, trusted := limits, self, protocols, trustedNodes;
      peers, inboundCount, pending, untrusted := map[], 0, [], {};
      var maxActiveDials := if maxPendingPeers == 0 then DEFAULT_MAX_PENDING_PEERS else maxPendingPeers;
      dialsched := new DialScheduler(Config(self, limits.MaxDialedConns(), maxActiveDials, netRestrict), now);
    }

    method AddTrustedNode(id: ID)
      modifies this`trusted, peers.Values`trusted
      ensures trusted == old(trusted) + {id}
      ensures forall p <- peers.Values :: p.trusted == (old(p.trusted) || (id in peers && p == peers[id]))
    {
      trusted := trusted + {id};
      if id in peers {
        var p := peers[id];
        p.trusted := true;
      }
    }

    method RemoveTrustedNode(id: ID)
      modifies this`trusted, peers.Values`trusted
      ensures trusted == old(trusted) - {id}
      ensures forall p <- peers.Values :: p.trusted == (old(p.trusted) && !(id in peers && p == peers[id]))
    {
      trusted := trusted - {id};
      if id in peers {
        var p := peers[id];
        p.trusted := false;
      }
    }

    function PostHandshakeChecks(c: Conn): Option<Reason>
      reads this`peers, this`inboundCount, c`trusted
    {
      if !c.trusted && |peers| >= limits.maxPeers then Some(TooManyPeers)
      else if !c.trusted && c.inbound && inboundCount >= limits.MaxInboundConns() then Some(TooManyPeers)
      else if c.id in peers then Some(Reason.AlreadyConnected)
      else if c.id == self then Some(Self)
      else None
    }

    ghost function Settings(): Setup {
      Setup(limits, self, protocols, dialsched.cfg)
    }

    ghost function Mine(conns: set<Conn>): Own
      reads this, conns`trusted
    {
      Own(peers, inboundCount, trusted, pending, untrusted, Flags(conns))
    }

    ghost function Now(conns: set<Conn>): State
      reads this, conns`trusted, dialsched, dialsched.staticTasks.Values`dest, dialsched.dialing.Values`dest
    {
      State(Mine(conns), dialsched.Now())
    }

    /** The checks answer with the first reason that applies, and pass exactly if none does. */
    lemma ChecksAnswer(c: Conn, conns: set<Conn>)
      ensures Answers(Settings(), Mine(conns), c, c.trusted, PostHandshakeChecks(c))
    {
    }

    /** The first checkpoint: a trusted node's connection is marked before it is checked. */
    method HandlePostHandshake(c: Conn) returns (err: Option<Reason>)
      modifies c`trusted
      ensures c.trusted == (old(c.trusted) || c.id in trusted)
      ensures c.id in trusted ==> err != Some(TooManyPeers)
      ensures err == PostHandshakeChecks(c)
    {
      if c.id in trusted {
        c.trusted := true;
      }
      err := PostHandshakeChecks(c);
    }

    method AddPeerChecks(c: Conn) returns (err: Option<Reason>)
      ensures err == if protocols != [] && Capabilities.Shared(protocols, c.caps) == {} then Some(UselessPeer) else PostHandshakeChecks(c)
    {
      if protocols != [] {
        var n := Capabilities.CountMatching(protocols, c.caps);
        if n == 0 {
          return Some(UselessPeer);
        }
      }
      err := PostHandshakeChecks(c);
    }

    /** Enters a new peer and notifies the scheduler. */
    method Admit(c: Conn)
      requires Admitted() && c.id !in peers && c.id != self
      requires c.trusted || (|peers| < limits.maxPeers && (c.inbound ==> inboundCount < limits.MaxInboundConns()))
      modifies this`peers, this`inboundCount, this`pending, this`untrusted
      ensures Admitted() && peers == old(peers)[c.id := c] && pending == old(pending) + [PeerAdded(c.id, c.dialed)]
      ensures inboundCount == old(inboundCount) + if c.inbound then 1 else 0
      ensures untrusted == if c.trusted then old(untrusted) else old(untrusted) + {c.id}
      ensures !c.trusted ==> |peers| <= limits.maxPeers
    {
      InStepAdded(pending, dialsched.peers, dialsched.dialPeers, peers, c);
      if c.trusted {
        AdmitTrusted(limits.maxPeers, limits.MaxInboundConns(), peers, untrusted, inboundCount, c);
      } else {
        AdmitUntrusted(limits.maxPeers, limits.MaxInboundConns(), peers, untrusted, inboundCount, c);
      }
      peers, pending := peers[c.id := c], pending + [PeerAdded(c.id, c.dialed)];
      inboundCount := if c.inbound then inboundCount + 1 else inboundCount;
      untrusted := if c.trusted then untrusted else untrusted + {c.id};
    }

    /** The second checkpoint: a connection that passes becomes a peer. */
    method HandleAddPeer(c: Conn) returns (err: Option<Reason>)
      requires Admitted()
      modifies this`peers, this`inboundCount, this`pending, this`untrusted
      ensures Admitted()
      ensures err == if protocols != [] && Capabilities.Shared(protocols, c.caps) == {} then Some(UselessPeer)
                     else old(PostHandshakeChecks(c))
      ensures err.None? ==> inboundCount == old(inboundCount) + (if c.inbound then 1 else 0)
      ensures err.Some? ==> inboundCount == old(inboundCount)
      ensures err.None? ==> peers == old(peers)[c.id := c] && pending == old(pending) + [PeerAdded(c.id, c.dialed)]
      ensures err.None? ==> c.id !in old(peers) && untrusted == if c.trusted then old(untrusted) else old(untrusted) + {c.id}
      ensures err.None? && !c.trusted ==> |peers| <= limits.maxPeers && (c.inbound ==> inboundCount <= limits.MaxInboundConns())
      ensures err.Some? ==> peers == old(peers) && pending == old(pending) && untrusted == old(untrusted)
    {
      err := AddPeerChecks(c);
      if err.None? {
        Admit(c);
      }
    }

    /** A peer disconnected. */
    method HandleDelPeer(id: ID)
      requires Admitted() && id in peers
      modifies this`peers, this`inboundCount, this`pending, this`untrusted
      ensures Admitted() && peers == old(peers) - {id} && untrusted == old(untrusted) - {id}
      ensures pending == old(pending) + [PeerRemoved(id, old(peers)[id].dialed)]
      ensures inboundCount == old(inboundCount) - (if old(peers)[id].inbound then 1 else 0)
    {
      var p := peers[id];
      InStepRemoved(pending, dialsched.peers, dialsched.dialPeers, peers, id);
      Drop(limits.maxPeers, limits.MaxInboundConns(), peers, untrusted, inboundCount, id);
      Remove(id, p);
    }

    method Remove(id: ID, p: Conn)
      modifies this`peers, this`inboundCount, this`pending, this`untrusted
      ensures peers == old(peers) - {id} && untrusted == old(untrusted) - {id}
      ensures pending == old(pending) + [PeerRemoved(id, p.dialed)]
      ensures inboundCount == old(inboundCount) - (if p.inbound then 1 else 0)
    {
      peers := peers - {id};
      pending := pending + [PeerRemoved(id, p.dialed)];
      if p.inbound {
        inboundCount := inboundCount - 1;
      }
      untrusted := untrusted - {id};
    }

    /** The scheduler takes the next notification. */
    method HandleNotify(ghost conns: set<Conn>) returns (ghost round: Dial.Moment)
      requires Valid() && pending != []
      modifies this`pending, dialsched, dialsched.repr`staticPoolIndex, dialsched.repr`dest
      ensures Valid() && fresh(dialsched.repr - old(dialsched.repr)) && pending == old(pending)[1..]
      ensures Flags(conns) == old(Flags(conns))
      ensures Rounds(Settings(), old(dialsched.Now()), old(pending)[0], Some(round), dialsched.Now())
      ensures pending == [] ==> dialsched.peers == peers.Keys && dialsched.dialPeers == |Dialed(peers)|
    {
      InStepTaken(pending, dialsched.peers, dialsched.dialPeers, peers);
      round := PopRound(conns);
    }

    method PopRound(ghost conns: set<Conn>) returns (ghost round: Dial.Moment)
      requires dialsched.Valid() && pending != []
      modifies this`pending, dialsched, dialsched.repr`staticPoolIndex, dialsched.repr`dest
      ensures dialsched.Valid() && fresh(dialsched.repr - old(dialsched.repr)) && pending == old(pending)[1..]
      ensures Flags(conns) == old(Flags(conns))
      ensures Rounds(Settings(), old(dialsched.Now()), old(pending)[0], Some(round), dialsched.Now())
      ensures dialsched.peers == DialScheduler.PeersAfter(old(pending)[0], old(dialsched.peers))
      ensures dialsched.dialPeers == DialScheduler.DialedAfter(old(pending)[0], old(dialsched.dialPeers))
    {
      round := Round(pending[0], conns);
      PopPending(conns);
    }

    method PopPending(ghost conns: set<Conn>)
      requires pending != [] && dialsched.Valid()
      modifies this`pending
      ensures pending == old(pending)[1..] && dialsched.Valid() && dialsched.Now() == old(dialsched.Now())
      ensures Flags(conns) == old(Flags(conns))
    {
      pending := pending[1..];
    }

    method Round(e: Event, ghost conns: set<Conn>) returns (ghost round: Dial.Moment)
      requires dialsched.Valid()
      modifies dialsched, dialsched.repr`staticPoolIndex, dialsched.repr`dest
      ensures dialsched.Valid() && fresh(dialsched.repr - old(dialsched.repr)) && Flags(conns) == old(Flags(conns))
      ensures Rounds(Settings(), old(dialsched.Now()), e, Some(round), dialsched.Now())
      ensures dialsched.peers == DialScheduler.PeersAfter(e, old(dialsched.peers))
      ensures dialsched.dialPeers == DialScheduler.DialedAfter(e, old(dialsched.dialPeers))
    {
      round := dialsched.Iterate(e);
      assert Flags(conns) == old(Flags(conns));
    }

    /** The scheduler takes an event of its own. */
    method HandleDialing(e: Event, ghost conns: set<Conn>) returns (ghost round: Dial.Moment)
      requires Valid() && !e.PeerAdded? && !e.PeerRemoved?
      modifies dialsched, dialsched.repr`staticPoolIndex, dialsched.repr`dest
      ensures Valid() && fresh(dialsched.repr - old(dialsched.repr)) && Flags(conns) == old(Flags(conns))
      ensures Rounds(Settings(), old(dialsched.Now()), e, Some(round), dialsched.Now())
    {
      round := Round(e, conns);
    }

    /** Connections in play. */
    ghost predicate Knows(conns: set<Conn>)
      reads this`peers
    {
      forall id <- peers :: peers[id] in conns
    }

    /** One round of the loop. */
    method TakeOwn(step: Step, ghost conns: set<Conn>) returns (answer: Option<Reason>)
      requires Admitted() && Knows(conns) && !step.Notify? && !step.Dialing? && (step.PostHandshake? || step.AddPeer? ==> step.c in conns)
      modifies this, conns`trusted
      ensures Admitted() && Knows(conns)
      ensures OwnStep(Settings(), old(Mine(conns)), step, answer, Mine(conns))
    {
      answer := None;
      match step
      case AddTrusted(id) => MarkTrusted(id, conns);
      case RemoveTrusted(id) => UnmarkTrusted(id, conns);
      case PostHandshake(c) => answer := CheckConn(c, conns);
      case AddPeer(c) => answer := JoinPeer(c, conns);
      case DelPeer(id) => LosePeer(id, conns);
    }

    method MarkTrusted(id: ID, ghost conns: set<Conn>)
      requires Admitted() && Knows(conns)
      modifies this`trusted, conns`trusted
      ensures Admitted() && Knows(conns)
      ensures OwnStep(Settings(), old(Mine(conns)), AddTrusted(id), None, Mine(conns))
    {
      assert id in peers ==> peers[id] in peers.Values;
      AddTrustedNode(id);
      assert Mine(conns).flags == Flagged(old(Mine(conns)), id, true);
    }

    method UnmarkTrusted(id: ID, ghost conns: set<Conn>)
      requires Admitted() && Knows(conns)
      modifies this`trusted, conns`trusted
      ensures Admitted() && Knows(conns)
      ensures OwnStep(Settings(), old(Mine(conns)), RemoveTrusted(id), None, Mine(conns))
    {
      assert id in peers ==> peers[id] in peers.Values;
      RemoveTrustedNode(id);
      assert Mine(conns).flags == Flagged(old(Mine(conns)), id, false);
    }

    method CheckConn(c: Conn, ghost conns: set<Conn>) returns (answer: Option<Reason>)
      requires Admitted() && Knows(conns) && c in conns
      modifies c`trusted
      ensures Admitted() && Knows(conns)
      ensures OwnStep(Settings(), old(Mine(conns)), PostHandshake(c), answer, Mine(conns))
    {
      ghost var s := Mine(conns);
      answer := HandlePostHandshake(c);
      ChecksAnswer(c, conns);
      ghost var t := Mine(conns);
      assert t.flags == if c.id in trusted then s.flags[c := true] else s.flags;
      assert t == s.(flags := t.flags);
    }

    method JoinPeer(c: Conn, ghost conns: set<Conn>) returns (answer: Option<Reason>)
      requires Admitted() && Knows(conns) && c in conns
      modifies this`peers, this`inboundCount, this`pending, this`untrusted
      ensures Admitted() && Knows(conns)
      ensures OwnStep(Settings(), old(Mine(conns)), AddPeer(c), answer, Mine(conns))
    {
      ghost var s, checks := Mine(conns), PostHandshakeChecks(c);
      ChecksAnswer(c, conns);
      answer := AddPeerTo(c, conns);
      JoinAnswers(Settings(), s, c, checks, answer);
    }

    method AddPeerTo(c: Conn, ghost conns: set<Conn>) returns (answer: Option<Reason>)
      requires Admitted() && Knows(conns) && c in conns
      modifies this`peers, this`inboundCount, this`pending, this`untrusted
      ensures Admitted() && Knows(conns)
      ensures answer == if protocols != [] && Capabilities.Shared(protocols, c.caps) == {} then Some(UselessPeer)
                        else old(PostHandshakeChecks(c))
      ensures Mine(conns) == if answer.Some? then old(Mine(conns)) else Joined(old(Mine(conns)), c)
    {
      answer := HandleAddPeer(c);
      assert Flags(conns) == old(Flags(conns));
    }

    method LosePeer(id: ID, ghost conns: set<Conn>)
      requires Admitted() && Knows(conns)
      modifies this`peers, this`inboundCount, this`pending, this`untrusted
      ensures Admitted() && Knows(conns)
      ensures OwnStep(Settings(), old(Mine(conns)), DelPeer(id), None, Mine(conns))
    {
      if id in peers {
        HandleDelPeer(id);
      }
    }

    /** A round of the scheduler's loop beside it. */
    method TakeRound(step: Step, ghost conns: set<Conn>) returns (ghost round: Option<Dial.Moment>)
      requires Valid() && (step.Notify? || step.Dialing?)
      modifies this`pending, dialsched, dialsched.repr`staticPoolIndex, dialsched.repr`dest
      ensures Valid() && fresh(dialsched.repr - old(dialsched.repr))
      ensures Rolls(Settings(), old(pending), old(dialsched.Now()), step, round, pending, dialsched.Now())
      ensures Flags(conns) == old(Flags(conns))
    {
      round := None;
      match step
      case Notify =>
        if pending != [] {
          ghost var r := HandleNotify(conns);
          round := Some(r);
        }
      case Dialing(e) =>
        if !e.PeerAdded? && !e.PeerRemoved? {
          ghost var r := HandleDialing(e, conns);
          round := Some(r);
        }
    }

    method TakeTurn(step: Step, ghost conns: set<Conn>) returns (answer: Option<Reason>)
      requires Valid() && Knows(conns) && !step.Notify? && !step.Dialing? && (step.PostHandshake? || step.AddPeer? ==> step.c in conns)
      modifies this, conns`trusted
      ensures Valid() && Knows(conns) && dialsched.Now() == old(dialsched.Now())
      ensures OwnStep(Settings(), old(Mine(conns)), step, answer, Mine(conns))
    {
      answer := TakeOwn(step, conns);
    }

    method RoundTurn(step: Step, ghost conns: set<Conn>) returns (ghost round: Option<Dial.Moment>)
      requires Valid() && Knows(conns) && (step.Notify? || step.Dialing?)
      modifies this`pending, dialsched, dialsched.repr`staticPoolIndex, dialsched.repr`dest
      ensures Valid() && Knows(conns) && fresh(dialsched.repr - old(dialsched.repr))
      ensures Mine(conns) == old(Mine(conns)).(pending := pending)
      ensures Rolls(Settings(), old(pending), old(dialsched.Now()), step, round, pending, dialsched.Now())
    {
      round := TakeRound(step, conns);
    }

    /** One step of a run. */
    method Take(step: Step, ghost conns: set<Conn>) returns (ghost m: Turn)
      requires Valid() && Knows(conns) && (step.PostHandshake? || step.AddPeer? ==> step.c in conns)
      modifies this, dialsched, dialsched.repr`staticPoolIndex, dialsched.repr`dest, conns`trusted
      ensures Valid() && Knows(conns) && fresh(dialsched.repr - old(dialsched.repr))
      ensures m.before == old(Now(conns)) && m.step == step && m.after == Now(conns) && Does(Settings(), m)
    {
      ghost var before := Now(conns);
      if step.Notify? || step.Dialing? {
        ghost var round := RoundTurn(step, conns);
        m := Turn(before, step, None, round, Now(conns));
      } else {
        var answer := TakeTurn(step, conns);
        m := Turn(before, step, answer, None, Now(conns));
      }
    }

    /** Over every run: the inbound counter is exact, the peers admitted as untrusted stay within the
        limits, and the scheduler knows exactly the peers once no notification is on its way. The trace
        tells every step. */
    method Run(steps: seq<Step>, ghost conns: set<Conn>) returns (ghost trace: seq<Turn>)
      requires Valid() && Knows(conns) && forall s <- steps :: s.PostHandshake? || s.AddPeer? ==> s.c in conns
      modifies this, dialsched, dialsched.repr`staticPoolIndex, dialsched.repr`dest, conns`trusted
      ensures Valid() && fresh(dialsched.repr - old(dialsched.repr))
      ensures Turns(Settings(), old(Now(conns)), steps, trace, Now(conns))
      ensures inboundCount == |Inbound(peers)|
      ensures |untrusted| <= Max(0, limits.maxPeers) && |untrusted * Inbound(peers)| <= Max(0, limits.MaxInboundConns())
      ensures pending == [] ==> dialsched.peers == peers.Keys && dialsched.dialPeers == |Dialed(peers)|
    {
      trace := RunAll(steps, |steps|, conns);
      assert steps[..|steps|] == steps;
    }

    method RunAll(steps: seq<Step>, n: nat, ghost conns: set<Conn>) returns (ghost trace: seq<Turn>)
      requires n <= |steps| && Valid() && Knows(conns) && forall s <- steps :: s.PostHandshake? || s.AddPeer? ==> s.c in conns
      modifies this, dialsched, dialsched.repr`staticPoolIndex, dialsched.repr`dest, conns`trusted
      ensures Valid() && Knows(conns) && fresh(dialsched.repr - old(dialsched.repr))
      ensures Turns(Settings(), old(Now(conns)), steps[..n], trace, Now(conns))
    {
      if n == 0 {
        return [];
      }
      trace := RunAll(steps, n - 1, conns);
      ghost var m := Take(steps[n - 1], conns);
      TurnsGrow(Settings(), old(Now(conns)), steps, n - 1, trace, m);
      trace := trace + [m];
    }
  }

  lemma SharedIsUseful(setup: Setup, c: Conn)
    ensures !Useful(setup, c) <==> setup.protocols != [] && Capabilities.Shared(setup.protocols, c.caps) == {}
  {
    if p :| p in setup.protocols && Capabilities.CapOf(p) in c.caps {
      assert Capabilities.CapOf(p) in Capabilities.Shared(setup.protocols, c.caps);
    }
    if cap :| cap in Capabilities.Shared(setup.protocols, c.caps) {
      assert Capabilities.CapOf(Capabilities.Find(setup.protocols, cap).value) == cap;
    }
  }

  lemma JoinAnswers(setup: Setup, s: Own, c: Conn, checks: Option<Reason>, answer: Option<Reason>)
    requires c in s.flags && Answers(setup, s, c, s.flags[c], checks)
    requires answer == if setup.protocols != [] && Capabilities.Shared(setup.protocols, c.caps) == {} then Some(UselessPeer) else checks
    ensures answer == Some(UselessPeer) <==> !Useful(setup, c)
    ensures Useful(setup, c) ==> Answers(setup, s, c, s.flags[c], answer)
  {
    SharedIsUseful(setup, c);
  }
}
