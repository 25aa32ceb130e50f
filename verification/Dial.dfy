/** The dial scheduler: it launches static dials from a pool with back references, and dynamic ones
    when there is room. Its event loop is a sequence of `Iterate` calls. */
module Dial {
  import opened Arithmetic
  import opened Wrappers

  type ID = nat
  type Time = int

  datatype Node = Node(id: ID, ip: Option<nat>, tcp: nat)

  datatype DialError = IsSelf | NoPort | AlreadyDialing | AlreadyConnected | NetRestrict | RecentlyDialed

  const SECOND: Time := 1_000_000_000
  const DIAL_HISTORY_EXPIRATION: Time := 35 * SECOND

  /** The fixed part of the scheduler's configuration. */
  datatype Config = Config(self: ID, maxDialPeers: int, maxActiveDials: int, netRestrict: Option<set<nat>>)

  /** Why a node should not be dialed, given who is being dialed, connected or was dialed recently. */
  function CheckDial(cfg: Config, n: Node, dialing: set<ID>, peers: set<ID>, recent: set<ID>): Option<DialError> {
    if n.id == cfg.self then Some(IsSelf)
    else if n.ip.Some? && n.tcp == 0 then Some(NoPort)
    else if n.id in dialing then Some(AlreadyDialing)
    else if n.id in peers then Some(AlreadyConnected)
    else if cfg.netRestrict.Some? && !(n.ip.Some? && n.ip.value in cfg.netRestrict.value) then Some(NetRestrict)
    else if n.id in recent then Some(RecentlyDialed)
    else None
  }

  /** A node may be dialed exactly if none of the reasons against it applies. */
  lemma MayDial(cfg: Config, n: Node, dialing: set<ID>, peers: set<ID>, recent: set<ID>)
    ensures CheckDial(cfg, n, dialing, peers, recent).None? <==>
      && n.id != cfg.self && n.id !in dialing && n.id !in peers && n.id !in recent
      && (n.ip.Some? ==> n.tcp != 0)
      && (cfg.netRestrict.Some? ==> n.ip.Some? && n.ip.value in cfg.netRestrict.value)
  {
  }

  /** A started dial. */
  datatype Started = Started(id: ID, at: Time)

  /** The history holds a dialed node until its time is over. */
  ghost predicate Remembered(history: map<ID, Time>, dials: seq<Started>, clock: Time) {
    forall i :: 0 <= i < |dials| ==> Kept(history, dials[i], clock)
  }

  predicate Kept(history: map<ID, Time>, d: Started, clock: Time) {
    Over(d, clock) || (d.id in history && d.at + DIAL_HISTORY_EXPIRATION <= history[d.id])
  }

  /** More than 35 seconds, in nanoseconds, have passed since. */
  predicate Over(d: Started, clock: Time) {
    d.at + 35_000_000_000 < clock
  }

  /** No node is dialed again before its time in the history is over. */
  ghost predicate Spaced(dials: seq<Started>) {
    forall i, j :: 0 <= i < j < |dials| && dials[i].id == dials[j].id ==> Over(dials[i], dials[j].at)
  }

  /** Dialing a node that the history does not hold keeps both. */
  lemma Redial(history: map<ID, Time>, dials: seq<Started>, clock: Time, id: ID, now: Time)
    requires Remembered(history, dials, clock) && Spaced(dials) && clock <= now && id !in history
    ensures Remembered(history[id := now + DIAL_HISTORY_EXPIRATION], dials + [Started(id, now)], now)
    ensures Spaced(dials + [Started(id, now)])
  {
    forall j | 0 <= j < |dials| && dials[j].id == id ensures Over(dials[j], now) {
      assert Kept(history, dials[j], clock);
    }
  }

  class DialTask {
    var staticPoolIndex: int
    const isStatic: bool
    var dest: Node

    constructor (dest: Node, isStatic: bool)
      ensures this.dest == dest && this.isStatic == isStatic && staticPoolIndex == -1
    {
      this.dest, this.isStatic, staticPoolIndex := dest, isStatic, -1;
    }
  }

  datatype Event =
    | Candidate(node: Node)
    | Done(id: ID)
    | PeerAdded(id: ID, dialed: bool)
    | PeerRemoved(id: ID, dialed: bool)
    | AddStatic(node: Node)
    | RemoveStatic(id: ID)
    | HistoryTimer
    | Resolved(id: ID, ip: Option<nat>, tcp: nat)

  // ----- what a round does -----

  /** A running dial: where to, and whether by the dial task filed for its node. */
  datatype Running = Running(dest: Node, filed: bool)

  /** The scheduler at one moment; `wanted` are the static nodes. */
  datatype Status = Status(dialing: map<ID, Running>, peers: set<ID>, dialPeers: int, wanted: map<ID, Node>,
                           history: map<ID, Time>, clock: Time, dials: seq<Started>)

  function MayStart(cfg: Config, s: Status, n: Node): bool {
    CheckDial(cfg, n, s.dialing.Keys, s.peers, s.history.Keys).None?
  }

  /** Nodes sit under their own IDs. */
  ghost predicate Keyed(s: Status) {
    (forall id <- s.wanted :: s.wanted[id].id == id) && forall id <- s.dialing :: s.dialing[id].dest.id == id
  }

  /** The static nodes that may be dialed. */
  function Ready(cfg: Config, s: Status): set<ID> {
    set id <- s.wanted | MayStart(cfg, s, s.wanted[id])
  }

  function Slots(cfg: Config, s: Status): int {
    Min((cfg.maxDialPeers - s.dialPeers) * 2, cfg.maxActiveDials) - |s.dialing|
  }

  ghost function Starting(s: Status, id: ID, r: Running, now: Time): Status {
    s.(dialing := s.dialing[id := r], history := s.history[id := now + DIAL_HISTORY_EXPIRATION], clock := now,
       dials := s.dials + [Started(id, now)])
  }

  ghost function StartsStatic(s: Status, d: Started): Status {
    if d.id in s.wanted then Starting(s, d.id, Running(s.wanted[d.id], true), d.at) else s
  }

  ghost function AfterStarts(s: Status, ds: seq<Started>): Status {
    if ds == [] then s else StartsStatic(AfterStarts(s, ds[..|ds| - 1]), ds[|ds| - 1])
  }

  /** Static dials one after another, each of a node that may be dialed then. */
  ghost predicate Startable(cfg: Config, s: Status, ds: seq<Started>) {
    ds == [] ||
    (var m, d := AfterStarts(s, ds[..|ds| - 1]), ds[|ds| - 1];
     Startable(cfg, s, ds[..|ds| - 1]) && d.id in Ready(cfg, m) && d.at >= m.clock)
  }

  lemma StartsNext(cfg: Config, s: Status, ds: seq<Started>, d: Started)
    ensures AfterStarts(s, ds + [d]) == StartsStatic(AfterStarts(s, ds), d)
    ensures Startable(cfg, s, ds + [d]) <==>
      Startable(cfg, s, ds) && d.id in Ready(cfg, AfterStarts(s, ds)) && d.at >= AfterStarts(s, ds).clock
  {
    assert (ds + [d])[..|ds|] == ds;
  }

  /** The top of a round: static dials are started while there are free slots and nodes for them. */
  ghost predicate Launches(cfg: Config, s: Status, ds: seq<Started>, t: Status) {
    && Startable(cfg, s, ds) && t == AfterStarts(s, ds)
    && |ds| <= Max(0, Slots(cfg, s)) && (|ds| < Slots(cfg, s) ==> Ready(cfg, t) == {})
  }

  /** Whether the loop's select can take the event: candidates need free slots, and only running
      tasks finish or resolve their node. */
  predicate CanTake(cfg: Config, s: Status, e: Event) {
    match e
    case Candidate(_) => Slots(cfg, s) > 0
    case Done(id) => id in s.dialing
    case Resolved(id, _, _) => id in s.dialing
    case _ => true
  }

  ghost predicate Handles(cfg: Config, s: Status, e: Event, t: Status) {
    match e
    case Candidate(node) =>
      if MayStart(cfg, s, node) then t.clock >= s.clock && t == Starting(s, node.id, Running(node, false), t.clock) else t == s
    case Done(id) => t == s.(dialing := s.dialing - {id})
    case PeerAdded(id, dialed) => t == s.(peers := s.peers + {id}, dialPeers := s.dialPeers + if dialed then 1 else 0)
    case PeerRemoved(id, dialed) => t == s.(peers := s.peers - {id}, dialPeers := s.dialPeers - if dialed then 1 else 0)
    case AddStatic(node) => t == if node.id in s.wanted then s else s.(wanted := s.wanted[node.id := node])
    case RemoveStatic(id) => t == s.(wanted := s.wanted - {id}, dialing := Unfiled(s.dialing, id))
    case HistoryTimer => t.clock >= s.clock && t == s.(clock := t.clock, history := Unexpired(s.history, t.clock))
    case Resolved(id, ip, tcp) =>
      id in s.dialing ==>
        var node, filed := Node(id, ip, tcp), s.dialing[id].filed;
        t == s.(dialing := s.dialing[id := Running(node, filed)], wanted := if filed then s.wanted[id := node] else s.wanted)
  }

  ghost function Unfiled(dialing: map<ID, Running>, id: ID): map<ID, Running> {
    if id in dialing then dialing[id := dialing[id].(filed := false)] else dialing
  }

  ghost function Unexpired(history: map<ID, Time>, now: Time): map<ID, Time> {
    map id <- history | history[id] >= now :: history[id]
  }

  /** A round of the loop: what it launched, and the event that it then took if it could. */
  datatype Moment = Moment(before: Status, started: seq<Started>, mid: Status, event: Event, after: Status)

  ghost predicate Happens(cfg: Config, m: Moment) {
    && Keyed(m.before) && Launches(cfg, m.before, m.started, m.mid)
    && if CanTake(cfg, m.mid, m.event) then Handles(cfg, m.mid, m.event, m.after) else m.after == m.mid
  }

  /** The rounds of a run, each from where the last one ended. */
  ghost predicate Trace(cfg: Config, start: Status, events: seq<Event>, trace: seq<Moment>, end: Status) {
    && |trace| == |events|
    && if |trace| == 0 then end == start
       else
         var n := |trace| - 1;
         && trace[n].event == events[n] && Happens(cfg, trace[n]) && trace[n].after == end
         && Trace(cfg, start, events[..n], trace[..n], trace[n].before)
  }

  lemma TraceGrows(cfg: Config, start: Status, events: seq<Event>, i: nat, trace: seq<Moment>, m: Moment)
    requires i < |events| && Trace(cfg, start, events[..i], trace, m.before) && Happens(cfg, m) && m.event == events[i]
    ensures Trace(cfg, start, events[..i + 1], trace + [m], m.after)
  {
    var all := trace + [m];
    assert all[..|all| - 1] == trace && events[..i + 1][..i] == events[..i];
    assert all[|all| - 1] == m;
  }

  /** A static dial takes its node off the ready ones, and no other. */
  lemma StartTakesOne(cfg: Config, s: Status, d: Started)
    requires Keyed(s) && d.id in Ready(cfg, s)
    ensures var t := StartsStatic(s, d);
      && Ready(cfg, t) == Ready(cfg, s) - {d.id} && d.id !in s.dialing
      && t.dialing.Keys == s.dialing.Keys + {d.id} && |t.dialing| == |s.dialing| + 1 && Keyed(t)
  {
    var t := StartsStatic(s, d);
    assert t.dialing.Keys == s.dialing.Keys + {d.id} && t.history.Keys == s.history.Keys + {d.id};
    forall id <- s.wanted ensures id in Ready(cfg, t) <==> id in Ready(cfg, s) - {d.id} {
      MayDial(cfg, s.wanted[id], s.dialing.Keys, s.peers, s.history.Keys);
      MayDial(cfg, s.wanted[id], t.dialing.Keys, t.peers, t.history.Keys);
    }
  }

  lemma {:induction false} StartsKeep(cfg: Config, s: Status, ds: seq<Started>)
    requires Keyed(s) && Startable(cfg, s, ds)
    ensures var t := AfterStarts(s, ds);
      Keyed(t) && t.wanted == s.wanted && t.dialPeers == s.dialPeers && t.peers == s.peers
  {
    if ds != [] {
      StartsKeep(cfg, s, ds[..|ds| - 1]);
      StartTakesOne(cfg, AfterStarts(s, ds[..|ds| - 1]), ds[|ds| - 1]);
    }
  }

  lemma {:induction false} StartsRecorded(cfg: Config, s: Status, ds: seq<Started>)
    requires Startable(cfg, s, ds)
    ensures AfterStarts(s, ds).dials == s.dials + ds
  {
    if ds != [] {
      StartsRecorded(cfg, s, ds[..|ds| - 1]);
      assert ds == ds[..|ds| - 1] + [ds[|ds| - 1]];
    }
  }

  /** So do several, each its own. */
  lemma {:induction false} ReadyShrinks(cfg: Config, s: Status, ds: seq<Started>)
    requires Keyed(s) && Startable(cfg, s, ds)
    ensures var t := AfterStarts(s, ds);
      && Ready(cfg, t) <= Ready(cfg, s) && |Ready(cfg, t)| == |Ready(cfg, s)| - |ds|
      && |t.dialing| == |s.dialing| + |ds| && t.dialing.Keys == s.dialing.Keys + (Ready(cfg, s) - Ready(cfg, t))
  {
    if ds != [] {
      var front, d := ds[..|ds| - 1], ds[|ds| - 1];
      ReadyShrinks(cfg, s, front);
      StartsKeep(cfg, s, front);
      var m := AfterStarts(s, front);
      StartTakesOne(cfg, m, d);
      OneLess(s.dialing.Keys, Ready(cfg, s), m.dialing.Keys, Ready(cfg, m), d.id);
    }
  }

  lemma OneLess(keys: set<ID>, ready: set<ID>, keys': set<ID>, ready': set<ID>, id: ID)
    requires ready' <= ready && id in ready' && keys' == keys + (ready - ready')
    ensures keys' + {id} == keys + (ready - (ready' - {id})) && |ready' - {id}| == |ready'| - 1
  {
  }

  /** Each round starts exactly as many static dials as there are free slots and nodes for them, of as
      many different nodes. */
  lemma LaunchCount(cfg: Config, m: Moment)
    requires Happens(cfg, m)
    ensures |m.started| == Max(0, Min(Slots(cfg, m.before), |Ready(cfg, m.before)|))
    ensures m.mid.dials == m.before.dials + m.started
    ensures m.mid.dialing.Keys == m.before.dialing.Keys + (Ready(cfg, m.before) - Ready(cfg, m.mid))
    ensures Slots(cfg, m.before) >= |Ready(cfg, m.before)| ==> Ready(cfg, m.before) <= m.mid.dialing.Keys
  {
    ReadyShrinks(cfg, m.before, m.started);
    StartsRecorded(cfg, m.before, m.started);
    if Slots(cfg, m.before) >= |Ready(cfg, m.before)| {
      EmptyOf(Ready(cfg, m.mid));
    }
  }

  lemma EmptyOf(s: set<ID>)
    ensures |s| == 0 ==> s == {}
  {
  }

  /** After the launch no ready node is left, or as many dials run as the limits allow: the configured
      number, and twice the dialed peers that are still missing. */
  lemma LaunchFills(cfg: Config, m: Moment)
    requires Happens(cfg, m)
    ensures Ready(cfg, m.mid) == {} || |m.mid.dialing| >= cfg.maxActiveDials || |m.mid.dialing| >= 2 * (cfg.maxDialPeers - m.mid.dialPeers)
    ensures m.started != [] ==> |m.mid.dialing| <= cfg.maxActiveDials && |m.mid.dialing| <= 2 * (cfg.maxDialPeers - m.mid.dialPeers)
  {
    ReadyShrinks(cfg, m.before, m.started);
    StartsKeep(cfg, m.before, m.started);
  }

  /** A static node that may be dialed and is added is dialed in the next round, if there are slots for
      all that are ready. */
  lemma AddedIsDialed(cfg: Config, m: Moment, next: Moment)
    requires Happens(cfg, m) && Happens(cfg, next) && next.before == m.after && m.event.AddStatic?
    requires m.event.node.id !in m.mid.wanted && MayStart(cfg, m.mid, m.event.node)
    requires Slots(cfg, next.before) >= |Ready(cfg, next.before)|
    ensures m.event.node.id in next.mid.dialing
  {
    AfterAdd(cfg, m);
    AddedIsReady(cfg, m.mid, m.event.node, next.before);
    LaunchCount(cfg, next);
  }

  lemma AfterAdd(cfg: Config, m: Moment)
    requires Happens(cfg, m) && m.event.AddStatic? && m.event.node.id !in m.mid.wanted
    ensures m.after == m.mid.(wanted := m.mid.wanted[m.event.node.id := m.event.node])
  {
  }

  lemma AddedIsReady(cfg: Config, s: Status, node: Node, t: Status)
    requires t == s.(wanted := s.wanted[node.id := node]) && MayStart(cfg, s, node)
    ensures node.id in Ready(cfg, t)
  {
  }

  /** What a round does to the peers and the dialed count. */
  lemma RoundPeers(cfg: Config, m: Moment)
    requires Happens(cfg, m)
    ensures m.after.peers == DialScheduler.PeersAfter(m.event, m.before.peers)
    ensures m.after.dialPeers == DialScheduler.DialedAfter(m.event, m.before.dialPeers)
  {
    StartsKeep(cfg, m.before, m.started);
  }

  class DialScheduler {
    const cfg: Config
    var dialing: map<ID, DialTask>
    var peers: set<ID>
    var dialPeers: int
    var staticTasks: map<ID, DialTask>
    var staticPool: seq<DialTask>
    var history: map<ID, Time>
    var clock: Time // the last reading of the clock
    ghost var dials: seq<Started> // every dial so far, in order
    ghost var repr: set<DialTask>

    /** The dial task is for node `id` and its pool index, if any, is right. */
    static ghost predicate Filed(pool: seq<DialTask>, task: DialTask, id: ID)
      reads task
    {
      task.dest.id == id && -1 <= task.staticPoolIndex < |pool| && (task.staticPoolIndex >= 0 ==> pool[task.staticPoolIndex] == task)
    }

    /** The pool's entry `i` is a static task that points back at it. */
    static ghost predicate InPool(tasks: map<ID, DialTask>, task: DialTask, i: int)
      reads task
    {
      task.dest.id in tasks && tasks[task.dest.id] == task && task.staticPoolIndex == i
    }

    /** Tasks sit under their own node IDs and pool back references are exact. */
    ghost predicate Structured()
      reads this`staticTasks, this`dialing, this`staticPool, this`repr, repr
    {
      && (forall id <- staticTasks :: staticTasks[id] in repr && Filed(staticPool, staticTasks[id], id))
      && (forall i :: 0 <= i < |staticPool| ==> staticPool[i] in repr && InPool(staticTasks, staticPool[i], i))
      && (forall id <- dialing :: dialing[id] in repr && dialing[id].dest.id == id)
    }

    /** A static task is in the pool exactly when it may be dialed. */
    ghost predicate Matched()
      reads this`staticTasks, this`dialing, this`peers, this`history, this`repr, repr
    {
      forall id <- staticTasks :: staticTasks[id] in repr && Placed(cfg, staticTasks[id], dialing.Keys, peers, history.Keys)
    }

    /** As `Matched`, with the static task of `except` still to be moved. */
    ghost predicate MatchedBut(except: ID)
      reads this`staticTasks, this`dialing, this`peers, this`history, this`repr, repr
    {
      forall id <- staticTasks :: id != except ==> staticTasks[id] in repr && Placed(cfg, staticTasks[id], dialing.Keys, peers, history.Keys)
    }

    static ghost predicate Placed(cfg: Config, task: DialTask, dialing: set<ID>, peers: set<ID>, recent: set<ID>)
      reads task
    {
      task.staticPoolIndex >= 0 <==> CheckDial(cfg, task.dest, dialing, peers, recent).None?
    }

    ghost predicate Valid()
      reads this, repr
    {
      Structured() && Matched() && Remembered(history, dials, clock) && Spaced(dials)
      && |dialing| <= if cfg.maxActiveDials > 0 then cfg.maxActiveDials else 0
    }

    ghost function Wanted(): map<ID, Node>
      reads this`staticTasks, staticTasks.Values`dest
    {
      map id <- staticTasks :: staticTasks[id].dest
    }

    ghost function Runs(): map<ID, Running>
      reads this`staticTasks, this`dialing, dialing.Values`dest
    {
      map id <- dialing :: Running(dialing[id].dest, id in staticTasks && staticTasks[id] == dialing[id])
    }

    ghost predicate IsFiled(task: DialTask)
      reads this`staticTasks, task`dest
    {
      task.dest.id in staticTasks && staticTasks[task.dest.id] == task
    }

    ghost function Now(): Status
      reads this, staticTasks.Values`dest, dialing.Values`dest
    {
      Status(Runs(), peers, dialPeers, Wanted(), history, clock, dials)
    }

    /** The pool holds exactly the static nodes that may be dialed. */
    lemma PoolIsReady()
      requires Valid()
      ensures staticPool == [] <==> Ready(cfg, Now()) == {}
      ensures forall i :: 0 <= i < |staticPool| ==> staticPool[i].dest.id in Ready(cfg, Now())
      ensures forall id <- Ready(cfg, Now()) :: id in staticTasks && staticTasks[id] in staticPool
    {
      assert Runs().Keys == dialing.Keys;
      forall i | 0 <= i < |staticPool| ensures staticPool[i].dest.id in Ready(cfg, Now()) {
        assert InPool(staticTasks, staticPool[i], i);
        assert Placed(cfg, staticTasks[staticPool[i].dest.id], dialing.Keys, peers, history.Keys);
      }
      forall id <- Ready(cfg, Now()) ensures staticTasks[id] in staticPool {
        assert Placed(cfg, staticTasks[id], dialing.Keys, peers, history.Keys) && Filed(staticPool, staticTasks[id], id);
      }
      if staticPool != [] {
        assert staticPool[0].dest.id in Ready(cfg, Now());
      }
    }

    constructor (cfg: Config, now: Time)
      ensures Valid() && fresh(repr) && this.cfg == cfg && peers == {} && dialPeers == 0
    {
      this.cfg := cfg;
      dialing, peers, dialPeers := map[], {}, 0;
      staticTasks, staticPool, history, clock := map[], [], map[], now;
      dials, repr := [], {};
    }

    method AddToStaticPool(task: DialTask)
      requires Structured() && task.dest.id in staticTasks && staticTasks[task.dest.id] == task && task.staticPoolIndex < 0
      modifies this`staticPool, task`staticPoolIndex
      ensures Structured() && staticPool == old(staticPool) + [task]
      ensures task.staticPoolIndex == |staticPool| - 1
    {
      staticPool := staticPool + [task];
      task.staticPoolIndex := |staticPool| - 1;
    }

    /** Moves the last task of the pool to `idx` and shortens the pool. */
    method RemoveFromStaticPool(idx: nat)
      requires Structured() && idx < |staticPool| && MatchedBut(staticPool[idx].dest.id)
      modifies this`staticPool, repr`staticPoolIndex
      ensures Structured() && |staticPool| == |old(staticPool)| - 1
      ensures old(staticPool)[idx].staticPoolIndex == -1
      ensures MatchedBut(old(staticPool)[idx].dest.id)
    {
      var task := staticPool[idx];
      var end := |staticPool| - 1;
      staticPool := staticPool[idx := staticPool[end]];
      staticPool[idx].staticPoolIndex := idx;
      staticPool := staticPool[..end];
      task.staticPoolIndex := -1;
    }

    /** Takes the static task of `id` out of the pool, if there is one in it. */
    method DropFromPool(id: ID)
      requires Structured() && MatchedBut(id)
      modifies this`staticPool, repr`staticPoolIndex
      ensures Structured() && MatchedBut(id)
      ensures id in staticTasks ==> staticTasks[id].staticPoolIndex == -1
    {
      if id in staticTasks {
        var task := staticTasks[id];
        if task.staticPoolIndex >= 0 {
          RemoveFromStaticPool(task.staticPoolIndex);
        }
      }
    }

    function Check(n: Node): Option<DialError>
      reads this`dialing, this`peers, this`history
    {
      CheckDial(cfg, n, dialing.Keys, peers, history.Keys)
    }

    method PoolIfDialable(task: DialTask)
      requires Structured() && MatchedBut(task.dest.id) && task.staticPoolIndex < 0
      requires task.dest.id in staticTasks && staticTasks[task.dest.id] == task
      modifies this`staticPool, task`staticPoolIndex
      ensures Structured() && Matched()
    {
      if Check(task.dest).None? {
        AddToStaticPool(task);
      }
    }

    /** Moves a static task back into the pool if it may be dialed again. */
    method UpdateStaticPool(id: ID)
      requires Structured() && MatchedBut(id)
      requires id in staticTasks && staticTasks[id].staticPoolIndex >= 0 ==> Check(staticTasks[id].dest).None?
      modifies this`staticPool, repr`staticPoolIndex
      ensures Structured() && Matched()
    {
      if id in staticTasks {
        var task := staticTasks[id];
        if task.staticPoolIndex < 0 {
          PoolIfDialable(task);
        }
      }
    }

    /** Runs a task: from the clock's reading on, its node is being dialed and is remembered as dialed. */
    method StartDial(task: DialTask)
      requires Structured() && Matched() && Remembered(history, dials, clock) && Spaced(dials) && Check(task.dest).None? && task in repr
      modifies this`dialing, this`history, this`clock, this`dials
      ensures Structured() && MatchedBut(task.dest.id) && Remembered(history, dials, clock) && Spaced(dials)
      ensures dialing == old(dialing)[task.dest.id := task] && |dialing| == |old(dialing)| + 1
      ensures clock >= old(clock) && dials == old(dials) + [Started(task.dest.id, clock)]
      ensures history == old(history)[task.dest.id := clock + DIAL_HISTORY_EXPIRATION]
      ensures Runs() == old(Runs())[task.dest.id := Running(task.dest, IsFiled(task))]
    {
      var id := task.dest.id;
      var now :| clock <= now;
      Redial(history, dials, clock, id, now);
      StartAt(task, now);
    }

    method StartAt(task: DialTask, now: Time)
      requires Structured() && Matched() && Check(task.dest).None? && task in repr
      modifies this`dialing, this`history, this`clock, this`dials
      ensures Structured() && MatchedBut(task.dest.id)
      ensures dialing == old(dialing)[task.dest.id := task] && |dialing| == |old(dialing)| + 1
      ensures history == old(history)[task.dest.id := now + DIAL_HISTORY_EXPIRATION]
      ensures clock == now && dials == old(dials) + [Started(task.dest.id, now)]
      ensures Runs() == old(Runs())[task.dest.id := Running(task.dest, IsFiled(task))]
    {
      LogDial(task.dest.id, now);
      BeginDial(task, now + DIAL_HISTORY_EXPIRATION);
    }

    method BeginDial(task: DialTask, expires: Time)
      requires Structured() && Matched() && Check(task.dest).None? && task in repr
      modifies this`dialing, this`history
      ensures Structured() && MatchedBut(task.dest.id)
      ensures dialing == old(dialing)[task.dest.id := task] && |dialing| == |old(dialing)| + 1
      ensures history == old(history)[task.dest.id := expires]
      ensures Runs() == old(Runs())[task.dest.id := Running(task.dest, IsFiled(task))]
    {
      Remember(task.dest.id, expires);
      Occupy(task);
    }

    method LogDial(id: ID, now: Time)
      modifies this`clock, this`dials
      ensures clock == now && dials == old(dials) + [Started(id, now)]
    {
      clock := now;
      dials := dials + [Started(id, now)];
    }

    method Remember(id: ID, expires: Time)
      requires Structured() && Matched()
      modifies this`history
      ensures MatchedBut(id) && history == old(history)[id := expires]
    {
      history := history[id := expires];
      assert history.Keys == old(history.Keys) + {id};
    }

    method Occupy(task: DialTask)
      requires Structured() && MatchedBut(task.dest.id) && task.dest.id !in dialing && task in repr
      modifies this`dialing
      ensures Structured() && MatchedBut(task.dest.id)
      ensures dialing == old(dialing)[task.dest.id := task] && |dialing| == |old(dialing)| + 1
      ensures Runs() == old(Runs())[task.dest.id := Running(task.dest, IsFiled(task))]
    {
      PutDialing(task);
    }

    method PutDialing(task: DialTask)
      modifies this`dialing
      ensures dialing == old(dialing)[task.dest.id := task] && dialing.Keys == old(dialing.Keys) + {task.dest.id}
      ensures Runs() == old(Runs())[task.dest.id := Running(task.dest, IsFiled(task))]
    {
      dialing := dialing[task.dest.id := task];
      assert Runs() == old(Runs())[task.dest.id := Running(task.dest, IsFiled(task))];
    }

    function FreeDialSlots(): int
      reads this`dialing, this`dialPeers
    {
      Min((cfg.maxDialPeers - dialPeers) * 2, cfg.maxActiveDials) - |dialing|
    }

    /** Starts the pool's task at `idx`. */
    method StartFromPool(idx: nat)
      requires Valid() && idx < |staticPool| && |dialing| < cfg.maxActiveDials
      modifies this`dialing, this`history, this`clock, this`dials, this`staticPool, repr`staticPoolIndex
      ensures Valid()
      ensures |dialing| == |old(dialing)| + 1 && |staticPool| == |old(staticPool)| - 1
      ensures var task := old(staticPool)[idx];
        dialing == old(dialing)[task.dest.id := task] && dials == old(dials) + [Started(task.dest.id, clock)] && clock >= old(clock)
      ensures history == old(history)[old(staticPool)[idx].dest.id := clock + DIAL_HISTORY_EXPIRATION]
      ensures var task := old(staticPool)[idx]; Runs() == old(Runs())[task.dest.id := Running(task.dest, true)]
    {
      assert InPool(staticTasks, staticPool[idx], idx);
      var task := staticPool[idx];
      StartDial(task);
      RemoveFromStaticPool(idx);
    }

    /** The same as a step of a launch. */
    method LaunchOne(idx: nat, ghost s: Status, ghost ds: seq<Started>) returns (ghost ds': seq<Started>)
      requires Valid() && idx < |staticPool| && |dialing| < cfg.maxActiveDials
      requires Startable(cfg, s, ds) && Now() == AfterStarts(s, ds)
      modifies this`dialing, this`history, this`clock, this`dials, this`staticPool, repr`staticPoolIndex
      ensures Valid() && |dialing| == |old(dialing)| + 1 && |staticPool| == |old(staticPool)| - 1
      ensures |ds'| == |ds| + 1 && Startable(cfg, s, ds') && Now() == AfterStarts(s, ds')
    {
      ghost var d := StartReady(idx);
      StartsNext(cfg, s, ds, d);
      ds' := ds + [d];
    }

    method StartReady(idx: nat) returns (ghost d: Started)
      requires Valid() && idx < |staticPool| && |dialing| < cfg.maxActiveDials
      modifies this`dialing, this`history, this`clock, this`dials, this`staticPool, repr`staticPoolIndex
      ensures Valid() && |dialing| == |old(dialing)| + 1 && |staticPool| == |old(staticPool)| - 1
      ensures d.id in Ready(cfg, old(Now())) && d.at >= old(clock) && Now() == StartsStatic(old(Now()), d)
    {
      PoolIsReady();
      ghost var task := staticPool[idx];
      assert InPool(staticTasks, task, idx);
      StartFromPool(idx);
      d := Started(task.dest.id, clock);
      assert Wanted() == old(Wanted());
    }

    /** Starts up to `n` tasks picked from the pool in any order. */
    method StartStaticDials(n: int) returns (started: nat, ghost ds: seq<Started>)
      requires Valid() && |dialing| + n <= cfg.maxActiveDials
      modifies this`dialing, this`history, this`clock, this`dials, this`staticPool, repr`staticPoolIndex
      ensures Valid()
      ensures |dialing| == |old(dialing)| + started && (n > 0 ==> started <= n) && (n <= 0 ==> started == 0)
      ensures started < n ==> staticPool == []
      ensures |ds| == started && Startable(cfg, old(Now()), ds) && Now() == AfterStarts(old(Now()), ds)
    {
      started, ds := 0, [];
      while started < n && |staticPool| > 0
        invariant Valid()
        invariant |dialing| == |old(dialing)| + started && (n > 0 ==> started <= n) && (n <= 0 ==> started == 0)
        invariant |ds| == started && Startable(cfg, old(Now()), ds) && Now() == AfterStarts(old(Now()), ds)
        decreases n - started
      {
        var idx :| 0 <= idx < |staticPool|;
        ds := LaunchOne(idx, old(Now()), ds);
        started := started + 1;
      }
    }

    /** The top of the loop: fills free slots from the pool. `dynamic` is whether candidates from
        the iterator are accepted in the coming select; then the pool is empty. */
    method Launch() returns (dynamic: bool, ghost ds: seq<Started>)
      requires Valid()
      modifies this`dialing, this`history, this`clock, this`dials, this`staticPool, repr`staticPoolIndex
      ensures Valid()
      ensures dynamic <==> FreeDialSlots() > 0
      ensures dynamic ==> staticPool == []
      ensures Launches(cfg, old(Now()), ds, Now())
    {
      SameSlots();
      var slots := FreeDialSlots();
      var started;
      started, ds := StartStaticDials(slots);
      PoolIsReady();
      slots := slots - started;
      dynamic := slots > 0;
    }

    lemma SameSlots()
      requires Structured()
      ensures Slots(cfg, Now()) == FreeDialSlots() && |Runs()| == |dialing|
    {
      assert Runs().Keys == dialing.Keys;
      assert |Runs()| == |Runs().Keys| == |dialing.Keys| == |dialing|;
    }

    /** A candidate from the iterator, accepted only with room and an empty pool. */
    method HandleCandidate(node: Node)
      requires Valid() && FreeDialSlots() > 0 && staticPool == []
      modifies this`dialing, this`history, this`clock, this`dials, this`repr
      ensures Valid() && fresh(repr - old(repr)) && Handles(cfg, old(Now()), Candidate(node), Now())
    {
      assert Runs().Keys == dialing.Keys;
      if Check(node).None? {
        var _ := DialCandidate(node);
      }
    }

    method DialCandidate(node: Node) returns (task: DialTask)
      requires Valid() && FreeDialSlots() > 0 && staticPool == [] && Check(node).None?
      modifies this`dialing, this`history, this`clock, this`dials, this`repr
      ensures Valid() && repr == old(repr) + {task} && fresh(task) && task.dest == node
      ensures dialing == old(dialing)[node.id := task] && clock >= old(clock) && dials == old(dials) + [Started(node.id, clock)]
      ensures history == old(history)[node.id := clock + DIAL_HISTORY_EXPIRATION]
      ensures Runs() == old(Runs())[node.id := Running(node, false)] && Wanted() == old(Wanted())
    {
      task := NewTask(node);
      StartDial(task);
    }

    method NewTask(node: Node) returns (task: DialTask)
      requires Structured() && Matched()
      modifies this`repr
      ensures repr == old(repr) + {task} && fresh(task) && task.dest == node && Structured() && Matched() && !IsFiled(task)
    {
      task := new DialTask(node, false);
      repr := repr + {task};
    }

    method HandleDone(id: ID)
      requires Valid() && id in dialing
      modifies this`dialing, this`staticPool, repr`staticPoolIndex
      ensures Valid() && Handles(cfg, old(Now()), Done(id), Now())
    {
      FinishTask(id);
      assert Runs() == old(Runs()) - {id} && Wanted() == old(Wanted());
    }

    method FinishTask(id: ID)
      requires Valid() && id in dialing
      modifies this`dialing, this`staticPool, repr`staticPoolIndex
      ensures Valid() && dialing == old(dialing) - {id}
    {
      dialing := dialing - {id};
      UpdateStaticPool(id);
    }

    /** Records that a peer came or went; its static task is then still to be moved. */
    method CountPeer(id: ID, dialed: bool, present: bool)
      requires Structured() && Matched()
      modifies this`peers, this`dialPeers
      ensures Structured() && MatchedBut(id) && peers == if present then old(peers) + {id} else old(peers) - {id}
      ensures dialPeers == old(dialPeers) + if !dialed then 0 else if present then 1 else -1
    {
      dialPeers := dialPeers + if !dialed then 0 else if present then 1 else -1;
      peers := if present then peers + {id} else peers - {id};
    }

    method HandlePeerAdded(id: ID, dialed: bool)
      requires Valid()
      modifies this`peers, this`dialPeers, this`staticPool, repr`staticPoolIndex
      ensures Valid() && Handles(cfg, old(Now()), PeerAdded(id, dialed), Now())
    {
      EnterPeer(id, dialed);
      assert Runs() == old(Runs()) && Wanted() == old(Wanted());
    }

    method EnterPeer(id: ID, dialed: bool)
      requires Valid()
      modifies this`peers, this`dialPeers, this`staticPool, repr`staticPoolIndex
      ensures Valid() && peers == old(peers) + {id} && dialPeers == old(dialPeers) + if dialed then 1 else 0
    {
      CountPeer(id, dialed, true);
      DropFromPool(id);
    }

    method HandlePeerRemoved(id: ID, dialed: bool)
      requires Valid()
      modifies this`peers, this`dialPeers, this`staticPool, repr`staticPoolIndex
      ensures Valid() && Handles(cfg, old(Now()), PeerRemoved(id, dialed), Now())
    {
      LeavePeer(id, dialed);
      assert Runs() == old(Runs()) && Wanted() == old(Wanted());
    }

    method LeavePeer(id: ID, dialed: bool)
      requires Valid()
      modifies this`peers, this`dialPeers, this`staticPool, repr`staticPoolIndex
      ensures Valid() && peers == old(peers) - {id} && dialPeers == old(dialPeers) - if dialed then 1 else 0
    {
      CountPeer(id, dialed, false);
      UpdateStaticPool(id);
    }

    /** Files a new static task, not yet in the pool. */
    method FileTask(node: Node) returns (task: DialTask)
      requires Structured() && Matched() && node.id !in staticTasks
      modifies this`staticTasks, this`repr
      ensures repr == old(repr) + {task} && fresh(task) && task.dest == node && task.staticPoolIndex == -1
      ensures staticTasks == old(staticTasks)[node.id := task]
      ensures Structured() && MatchedBut(node.id)
      ensures Runs() == old(Runs()) && Wanted() == old(Wanted())[node.id := node]
    {
      task := PutTask(node);
    }

    method PutTask(node: Node) returns (task: DialTask)
      requires node.id !in staticTasks
      modifies this`staticTasks, this`repr
      ensures repr == old(repr) + {task} && fresh(task) && task.dest == node && task.staticPoolIndex == -1
      ensures staticTasks == old(staticTasks)[node.id := task]
      ensures Runs() == old(Runs()) && Wanted() == old(Wanted())[node.id := node]
    {
      task := new DialTask(node, true);
      repr := repr + {task};
      staticTasks := staticTasks[node.id := task];
      assert Runs() == old(Runs()) && Wanted() == old(Wanted())[node.id := node];
    }

    method HandleAddStatic(node: Node)
      requires Valid()
      modifies this`staticTasks, this`staticPool, this`repr
      ensures Valid() && fresh(repr - old(repr)) && Handles(cfg, old(Now()), AddStatic(node), Now())
    {
      if node.id in staticTasks {
        return;
      }
      var _ := FileStatic(node);
    }

    method FileStatic(node: Node) returns (task: DialTask)
      requires Valid() && node.id !in staticTasks
      modifies this`staticTasks, this`staticPool, this`repr
      ensures Valid() && repr == old(repr) + {task} && fresh(task) && task.dest == node
      ensures staticTasks == old(staticTasks)[node.id := task]
      ensures Runs() == old(Runs()) && Wanted() == old(Wanted())[node.id := node]
    {
      task := FileTask(node);
      PoolIfDialable(task);
    }

    /** Deletes a static task that is not in the pool. */
    method Unfile(id: ID)
      requires Structured() && MatchedBut(id)
      requires id in staticTasks ==> staticTasks[id].staticPoolIndex == -1
      modifies this`staticTasks
      ensures Structured() && Matched() && staticTasks == old(staticTasks) - {id}
    {
      staticTasks := staticTasks - {id};
    }

    method HandleRemoveStatic(id: ID)
      requires Valid()
      modifies this`staticTasks, this`staticPool, repr`staticPoolIndex
      ensures Valid() && Handles(cfg, old(Now()), RemoveStatic(id), Now())
    {
      DropStatic(id);
      assert Runs() == Unfiled(old(Runs()), id) && Wanted() == old(Wanted()) - {id};
    }

    method DropStatic(id: ID)
      requires Valid()
      modifies this`staticTasks, this`staticPool, repr`staticPoolIndex
      ensures Valid() && staticTasks == old(staticTasks) - {id}
    {
      DropFromPool(id);
      Unfile(id);
    }

    /** The callback for one expired node. */
    method Forget(id: ID)
      requires Valid() && id in history && history[id] < clock
      modifies this`history, this`staticPool, repr`staticPoolIndex
      ensures Valid() && history == old(history) - {id}
    {
      history := history - {id};
      UpdateStaticPool(id);
    }

    /** Drops the nodes whose time is over at the clock's reading, in any order. */
    method HandleHistoryTimer()
      requires Valid()
      modifies this`history, this`clock, this`staticPool, repr`staticPoolIndex
      ensures Valid() && Handles(cfg, old(Now()), HistoryTimer, Now())
    {
      ExpireHistory();
      assert Runs() == old(Runs()) && Wanted() == old(Wanted());
    }

    method ExpireHistory()
      requires Valid()
      modifies this`history, this`clock, this`staticPool, repr`staticPoolIndex
      ensures Valid() && clock >= old(clock) && history == Unexpired(old(history), clock)
    {
      var now :| clock <= now;
      clock := now;
      var expired := set id <- history | history[id] < now;
      var todo := expired;
      while todo != {}
        invariant Valid() && clock == now
        invariant todo <= expired && history == old(history) - (expired - todo)
        decreases todo
      {
        var id :| id in todo;
        Forget(id);
        todo := todo - {id};
      }
      assert history == Unexpired(old(history), now);
    }

    /** A running task found a new endpoint for its node. */
    method HandleResolved(id: ID, ip: Option<nat>, tcp: nat)
      requires Valid() && id in dialing
      modifies repr`dest
      ensures Valid() && Handles(cfg, old(Now()), Resolved(id, ip, tcp), Now())
    {
      Redirect(id, ip, tcp);
      assert Runs() == old(Runs())[id := Running(Node(id, ip, tcp), old(Runs())[id].filed)];
      assert Wanted() == if old(Runs())[id].filed then old(Wanted())[id := Node(id, ip, tcp)] else old(Wanted());
    }

    method Redirect(id: ID, ip: Option<nat>, tcp: nat)
      requires Valid() && id in dialing
      modifies repr`dest
      ensures Valid() && dialing[id].dest == Node(id, ip, tcp)
      ensures forall task <- repr :: task != dialing[id] ==> task.dest == old(task.dest)
    {
      var task := dialing[id];
      task.dest := Node(id, ip, tcp);
    }

    /** Whether the loop's select can take the event: candidates need free slots, and only running
        tasks finish or resolve their node. */
    predicate Enabled(e: Event, dynamic: bool)
      reads this`dialing
    {
      match e
      case Candidate(_) => dynamic
      case Done(id) => id in dialing
      case Resolved(id, _, _) => id in dialing
      case _ => true
    }

    /** What an event does to the peers and the dialed count. */
    static function PeersAfter(e: Event, peers: set<ID>): set<ID> {
      match e
      case PeerAdded(id, _) => peers + {id}
      case PeerRemoved(id, _) => peers - {id}
      case _ => peers
    }

    static function DialedAfter(e: Event, dialPeers: int): int {
      match e
      case PeerAdded(_, dialed) => dialPeers + if dialed then 1 else 0
      case PeerRemoved(_, dialed) => dialPeers - if dialed then 1 else 0
      case _ => dialPeers
    }

    /** The events that come from the server. */
    method HandleRequest(e: Event)
      requires Valid() && (e.PeerAdded? || e.PeerRemoved? || e.AddStatic? || e.RemoveStatic?)
      modifies this`peers, this`dialPeers, this`staticTasks, this`staticPool, this`repr, repr`staticPoolIndex, repr`dest
      ensures Valid() && Handles(cfg, old(Now()), e, Now())
      ensures fresh(repr - old(repr))
    {
      match e
      case PeerAdded(id, dialed) => HandlePeerAdded(id, dialed);
      case PeerRemoved(id, dialed) => HandlePeerRemoved(id, dialed);
      case AddStatic(node) => HandleAddStatic(node);
      case RemoveStatic(id) => HandleRemoveStatic(id);
    }

    /** Its own events. */
    method HandleOwn(e: Event)
      requires Valid() && Enabled(e, FreeDialSlots() > 0 && staticPool == [])
      requires e.Candidate? || e.Done? || e.HistoryTimer? || e.Resolved?
      modifies this`dialing, this`history, this`clock, this`dials, this`staticPool, this`repr, repr`staticPoolIndex, repr`dest
      ensures Valid() && Handles(cfg, old(Now()), e, Now())
      ensures fresh(repr - old(repr))
    {
      match e
      case Candidate(node) => HandleCandidate(node);
      case Done(id) => HandleDone(id);
      case HistoryTimer => HandleHistoryTimer();
      case Resolved(id, ip, tcp) => HandleResolved(id, ip, tcp);
    }

    method Handle(e: Event)
      requires Valid() && Enabled(e, FreeDialSlots() > 0 && staticPool == [])
      modifies this, repr`staticPoolIndex, repr`dest
      ensures Valid() && Handles(cfg, old(Now()), e, Now())
      ensures fresh(repr - old(repr))
    {
      if e.PeerAdded? || e.PeerRemoved? || e.AddStatic? || e.RemoveStatic? {
        HandleRequest(e);
      } else {
        HandleOwn(e);
      }
    }

    /** One round of the loop: launch, then take an event if the select can. */
    method Iterate(e: Event) returns (ghost m: Moment)
      requires Valid()
      modifies this, repr`staticPoolIndex, repr`dest
      ensures Valid() && fresh(repr - old(repr))
      ensures m.before == old(Now()) && m.event == e && m.after == Now() && Happens(cfg, m)
      ensures peers == PeersAfter(e, old(peers)) && dialPeers == DialedAfter(e, old(dialPeers))
    {
      ghost var before := Now();
      assert Keyed(before);
      var dynamic, ds := Launch();
      ghost var mid := Now();
      TakeEvent(e, dynamic);
      m := Moment(before, ds, mid, e, Now());
      RoundPeers(cfg, m);
    }

    method TakeEvent(e: Event, dynamic: bool)
      requires Valid() && (dynamic <==> FreeDialSlots() > 0) && (dynamic ==> staticPool == [])
      modifies this, repr`staticPoolIndex, repr`dest
      ensures Valid() && fresh(repr - old(repr))
      ensures if CanTake(cfg, old(Now()), e) then Handles(cfg, old(Now()), e, Now()) else Now() == old(Now())
    {
      SameSlots();
      assert Runs().Keys == dialing.Keys;
      if Enabled(e, dynamic) {
        Handle(e);
      }
    }

    /** Over every run of the loop, at each select: the pool holds exactly the static tasks that may
        be dialed, with exact back references, at most `maxActiveDials` nodes are being dialed, each by
        one task, and no node was dialed twice within the expiration time. The trace tells every round. */
    method Run(events: seq<Event>) returns (ghost trace: seq<Moment>)
      requires Valid()
      modifies this, repr`staticPoolIndex, repr`dest
      ensures Valid() && fresh(repr - old(repr))
      ensures Structured() && Matched() && Spaced(dials)
      ensures Trace(cfg, old(Now()), events, trace, Now())
    {
      trace := RunAll(events, |events|);
      assert events[..|events|] == events;
    }

    method RunAll(events: seq<Event>, n: nat) returns (ghost trace: seq<Moment>)
      requires n <= |events| && Valid()
      modifies this, repr`staticPoolIndex, repr`dest
      ensures Valid() && fresh(repr - old(repr)) && Trace(cfg, old(Now()), events[..n], trace, Now())
    {
      if n == 0 {
        return [];
      }
      trace := RunAll(events, n - 1);
      trace := RunNext(events, n - 1, old(Now()), trace);
    }

    method RunNext(events: seq<Event>, i: nat, ghost start: Status, ghost trace: seq<Moment>) returns (ghost trace': seq<Moment>)
      requires i < |events| && Valid() && Trace(cfg, start, events[..i], trace, Now())
      modifies this, repr`staticPoolIndex, repr`dest
      ensures Valid() && fresh(repr - old(repr)) && Trace(cfg, start, events[..i + 1], trace', Now())
    {
      ghost var m := Iterate(events[i]);
      TraceGrows(cfg, start, events, i, trace, m);
      trace' := trace + [m];
    }
  }
}
