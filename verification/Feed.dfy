/** One-to-many event delivery. Subscribing, unsubscribing and sending run concurrently; their
    atomic steps are methods here and any interleaving of them is a run. */
module Feed {

  /** A subscriber's channel. Zero stands for the feed's own channel of removal requests. */
  type Channel = nat

  const REMOVE_SUB: Channel := 0
  const FIRST_SUB_SEND_CASE := 1

  // ---- case lists

  function Removed(s: seq<Channel>, i: nat): seq<Channel>
    requires i < |s|
  {
    seq(|s| - 1, k requires 0 <= k < |s| - 1 => if k < i then s[k] else s[k + 1])
  }

  function Swapped(s: seq<Channel>, i: nat, j: nat): seq<Channel>
    requires i < |s| && j < |s|
  {
    s[i := s[j]][j := s[i]]
  }

  /** Removes a case by shifting the ones after it down. */
  method Delete(a: array<Channel>, whole: nat, index: nat)
    requires index < whole <= a.Length
    modifies a
    ensures a[..whole - 1] == Removed(old(a[..whole]), index)
  {
    for i := index to whole - 1
      invariant forall k :: 0 <= k < index || i <= k < whole ==> a[k] == old(a[k])
      invariant forall k :: index <= k < i ==> a[k] == old(a[k + 1])
    {
      a[i] := a[i + 1];
    }
  }

  /** The list and its prefix of `active` cases share the array, so the prefix loses the case too, if
      it was in it, and is not affected otherwise. */
  lemma RemovedPrefix(s: seq<Channel>, active: nat, i: nat)
    requires i < |s| && active <= |s|
    ensures if i < active then Removed(s, i)[..active - 1] == Removed(s[..active], i)
            else Removed(s, i)[..active] == s[..active]
  {
  }

  /** Swaps a case of the prefix behind it and shortens the prefix; the whole list is permuted. */
  method Deactivate(a: array<Channel>, active: nat, index: nat, ghost whole: nat) returns (active': nat)
    requires index < active <= whole <= a.Length
    modifies a
    ensures a[..whole] == Swapped(old(a[..whole]), index, active - 1) && active' == active - 1
  {
    a[index], a[active - 1] := a[active - 1], a[index];
    return active - 1;
  }

  /** Appends cases, in place if the array has room and else in a larger one. */
  method Append(a: array<Channel>, whole: nat, extra: seq<Channel>) returns (b: array<Channel>)
    requires whole <= a.Length
    modifies a
    ensures whole + |extra| <= b.Length && b[..whole + |extra|] == old(a[..whole]) + extra
    ensures b == a || fresh(b)
  {
    b := a;
    if whole + |extra| > a.Length {
      var capacity :| capacity >= whole + |extra|;
      b := new Channel[capacity];
      forall k | 0 <= k < whole {
        b[k] := a[k];
      }
    }
    forall k | 0 <= k < |extra| {
      b[whole + k] := extra[k];
    }
  }

  method IndexOf(s: seq<Channel>, ch: Channel) returns (index: int)
    ensures if index == -1 then ch !in s else 0 <= index && FirstAt(s, index, ch)
  {
    for i := 0 to |s|
      invariant forall k :: 0 <= k < i ==> s[k] != ch
    {
      if s[i] == ch {
        return i;
      }
    }
    return -1;
  }

  // ---- what the lists mean

  /** How often the channel occurs at the positions from `lo` up to `hi`. */
  ghost function Num(s: seq<Channel>, lo: nat, hi: nat, c: Channel): nat
    requires hi <= |s|
  {
    if lo >= hi then 0 else Num(s, lo, hi - 1, c) + One(s[hi - 1], c)
  }

  function One(x: Channel, c: Channel): nat {
    if x == c then 1 else 0
  }

  ghost predicate Balanced(
    cases: seq<Channel>, inbox: seq<Channel>, live: multiset<Channel>, leaving: multiset<Channel>, c: Channel)
  {
    && Num(cases, 1, |cases|, c) + Num(inbox, 0, |inbox|, c) == live[c] + leaving[c]
    && leaving[c] <= Num(cases, 1, |cases|, c)
  }

  /** Inbox and send cases hold exactly the live subscriptions and those on their way out, and
      the latter are all among the send cases. */
  ghost predicate Registered(
    cases: seq<Channel>, inbox: seq<Channel>, live: multiset<Channel>, leaving: multiset<Channel>)
  {
    && |cases| > 0 && cases[0] == REMOVE_SUB
    && REMOVE_SUB !in live && REMOVE_SUB !in leaving
    && forall c: Channel :: Balanced(cases, inbox, live, leaving, c)
  }

  ghost predicate Accounted(cases: seq<Channel>, active: nat, targets: multiset<Channel>,
                            delivered: multiset<Channel>, withdrawn: multiset<Channel>, c: Channel)
    requires active <= |cases|
  {
    && Num(cases, 1, active, c) + delivered[c] + withdrawn[c] == targets[c]
    && Num(cases, active, |cases|, c) <= delivered[c]
  }

  /** During a send, the first `active` cases still wait; the others have been served. Of the
      cases the send started with, each one waits, was served or was withdrawn while waiting. */
  ghost predicate Delivering(cases: seq<Channel>, active: nat, nsent: nat, targets: multiset<Channel>,
                             delivered: multiset<Channel>, withdrawn: multiset<Channel>)
  {
    && 1 <= active <= |cases| && nsent == |delivered|
    && forall c: Channel :: Accounted(cases, active, targets, delivered, withdrawn, c)
  }

  lemma {:induction false} NumSame(s: seq<Channel>, lo: nat, hi: nat, t: seq<Channel>, lo': nat, c: Channel)
    requires lo <= hi <= |s| && lo' + (hi - lo) <= |t|
    requires forall k :: lo <= k < hi ==> s[k] == t[lo' + (k - lo)]
    ensures Num(s, lo, hi, c) == Num(t, lo', lo' + (hi - lo), c)
    decreases hi
  {
    if lo < hi {
      NumSame(s, lo, hi - 1, t, lo', c);
    }
  }

  lemma {:induction false} NumSplits(s: seq<Channel>, lo: nat, mid: nat, hi: nat, c: Channel)
    requires lo <= mid <= hi <= |s|
    ensures Num(s, lo, hi, c) == Num(s, lo, mid, c) + Num(s, mid, hi, c)
    decreases hi
  {
    if mid < hi {
      NumSplits(s, lo, mid, hi - 1, c);
    }
  }

  lemma {:induction false} NumUpdate(s: seq<Channel>, lo: nat, hi: nat, i: nat, v: Channel, c: Channel)
    requires lo <= i < hi <= |s|
    ensures Num(s[i := v], lo, hi, c) + One(s[i], c) == Num(s, lo, hi, c) + One(v, c)
    decreases hi
  {
    if i < hi - 1 {
      NumUpdate(s, lo, hi - 1, i, v, c);
    } else {
      NumSame(s, lo, i, s[i := v], lo, c);
    }
  }

  lemma NumRemoved(s: seq<Channel>, lo: nat, i: nat, hi: nat, c: Channel)
    requires lo <= i < hi <= |s|
    ensures Num(s, lo, hi, c) == Num(Removed(s, i), lo, hi - 1, c) + One(s[i], c)
  {
    var t := Removed(s, i);
    NumSplits(s, lo, i, hi, c);
    NumSplits(s, i, i + 1, hi, c);
    NumSplits(t, lo, i, hi - 1, c);
    NumSame(s, lo, i, t, lo, c);
    NumSame(s, i + 1, hi, t, i, c);
    assert Num(s, i, i + 1, c) == Num(s, i, i, c) + One(s[i], c);
  }

  lemma {:induction false} NumFinds(s: seq<Channel>, lo: nat, hi: nat, c: Channel)
    requires hi <= |s|
    ensures Num(s, lo, hi, c) > 0 <==> exists k :: lo <= k < hi && s[k] == c
  {
    if lo < hi {
      NumFinds(s, lo, hi - 1, c);
    }
  }

  ghost predicate FirstAt(cases: seq<Channel>, i: nat, c: Channel) {
    i < |cases| && cases[i] == c && forall k :: 0 <= k < i ==> cases[k] != c
  }

  ghost predicate Waits(cases: seq<Channel>, active: nat, c: Channel) {
    exists k :: 1 <= k < active && k < |cases| && cases[k] == c
  }

  /** The channel of a queued removal is a send case, and not the feed's own one. */
  lemma LeavingIsListed(cases: seq<Channel>, inbox: seq<Channel>, live: multiset<Channel>, leaving: multiset<Channel>, c: Channel)
    requires Registered(cases, inbox, live, leaving) && c in leaving
    ensures c != REMOVE_SUB && exists k :: 1 <= k < |cases| && cases[k] == c
  {
    assert Balanced(cases, inbox, live, leaving, c);
    NumFinds(cases, 1, |cases|, c);
  }

  lemma UnregisterCase(cases: seq<Channel>, inbox: seq<Channel>, live: multiset<Channel>, leaving: multiset<Channel>, i: nat)
    requires Registered(cases, inbox, live, leaving) && 1 <= i < |cases| && cases[i] in leaving
    ensures Registered(Removed(cases, i), inbox, live, leaving - multiset{cases[i]})
  {
    forall c: Channel ensures Balanced(Removed(cases, i), inbox, live, leaving - multiset{cases[i]}, c) {
      assert Balanced(cases, inbox, live, leaving, c);
      NumRemoved(cases, 1, i, |cases|, c);
    }
  }

  lemma EnterInbox(cases: seq<Channel>, inbox: seq<Channel>, live: multiset<Channel>, leaving: multiset<Channel>, x: Channel)
    requires Registered(cases, inbox, live, leaving) && x != REMOVE_SUB
    ensures Registered(cases, inbox + [x], live + multiset{x}, leaving)
  {
    forall c: Channel ensures Balanced(cases, inbox + [x], live + multiset{x}, leaving, c) {
      assert Balanced(cases, inbox, live, leaving, c);
      NumSame(inbox, 0, |inbox|, inbox + [x], 0, c);
    }
  }

  lemma LeaveInbox(cases: seq<Channel>, inbox: seq<Channel>, live: multiset<Channel>, leaving: multiset<Channel>, i: nat)
    requires Registered(cases, inbox, live, leaving) && i < |inbox| && inbox[i] in live
    ensures Registered(cases, Removed(inbox, i), live - multiset{inbox[i]}, leaving)
  {
    forall c: Channel ensures Balanced(cases, Removed(inbox, i), live - multiset{inbox[i]}, leaving, c) {
      assert Balanced(cases, inbox, live, leaving, c);
      NumRemoved(inbox, 0, i, |inbox|, c);
    }
  }

  /** A live channel that is not in the inbox is among the send cases, beyond those leaving. */
  lemma QueueUp(cases: seq<Channel>, inbox: seq<Channel>, live: multiset<Channel>, leaving: multiset<Channel>, x: Channel)
    requires Registered(cases, inbox, live, leaving) && x in live && x !in inbox
    ensures Registered(cases, inbox, live - multiset{x}, leaving + multiset{x})
  {
    forall c: Channel ensures Balanced(cases, inbox, live - multiset{x}, leaving + multiset{x}, c) {
      assert Balanced(cases, inbox, live, leaving, c);
      NumFinds(inbox, 0, |inbox|, c);
    }
  }

  lemma MergeInbox(cases: seq<Channel>, inbox: seq<Channel>, live: multiset<Channel>, leaving: multiset<Channel>)
    requires Registered(cases, inbox, live, leaving)
    ensures Registered(cases + inbox, [], live, leaving)
    ensures Delivering(cases + inbox, |cases + inbox|, 0, live + leaving, multiset{}, multiset{})
  {
    var merged := cases + inbox;
    forall c: Channel
      ensures Balanced(merged, [], live, leaving, c)
      ensures Accounted(merged, |merged|, live + leaving, multiset{}, multiset{}, c)
    {
      assert Balanced(cases, inbox, live, leaving, c);
      NumSplits(merged, 1, |cases|, |merged|, c);
      NumSame(cases, 1, |cases|, merged, 1, c);
      NumSame(inbox, 0, |inbox|, merged, |cases|, c);
    }
  }

  lemma RemoveWaiting(cases: seq<Channel>, active: nat, nsent: nat, targets: multiset<Channel>,
                      delivered: multiset<Channel>, withdrawn: multiset<Channel>, i: nat)
    requires Delivering(cases, active, nsent, targets, delivered, withdrawn) && 1 <= i < active
    ensures Delivering(Removed(cases, i), active - 1, nsent, targets, delivered, withdrawn + multiset{cases[i]})
  {
    var rest, waiting := Removed(cases, i), active - 1;
    forall c: Channel ensures Accounted(rest, waiting, targets, delivered, withdrawn + multiset{cases[i]}, c) {
      assert Accounted(cases, active, targets, delivered, withdrawn, c);
      NumRemoved(cases, 1, i, active, c);
      NumSame(cases, active, |cases|, rest, active - 1, c);
    }
  }

  lemma RemoveServed(cases: seq<Channel>, active: nat, nsent: nat, targets: multiset<Channel>,
                     delivered: multiset<Channel>, withdrawn: multiset<Channel>, i: nat)
    requires Delivering(cases, active, nsent, targets, delivered, withdrawn) && active <= i < |cases|
    ensures Delivering(Removed(cases, i), active, nsent, targets, delivered, withdrawn)
  {
    var rest := Removed(cases, i);
    forall c: Channel ensures Accounted(rest, active, targets, delivered, withdrawn, c) {
      assert Accounted(cases, active, targets, delivered, withdrawn, c);
      NumRemoved(cases, active, i, |cases|, c);
      NumSame(cases, 1, active, rest, 1, c);
    }
  }

  /** A removal request: the case leaves the waiting ones if it was still among them. */
  lemma RemoveEither(cases: seq<Channel>, active: nat, nsent: nat, targets: multiset<Channel>,
                     delivered: multiset<Channel>, withdrawn: multiset<Channel>, i: nat, c: Channel)
    requires Delivering(cases, active, nsent, targets, delivered, withdrawn)
    requires 1 <= i && FirstAt(cases, i, c)
    ensures i < active <==> Waits(cases, active, c)
    ensures Delivering(Removed(cases, i), if i < active then active - 1 else active, nsent, targets, delivered,
                       if i < active then withdrawn + multiset{c} else withdrawn)
  {
    if i < active {
      RemoveWaiting(cases, active, nsent, targets, delivered, withdrawn, i);
    } else {
      RemoveServed(cases, active, nsent, targets, delivered, withdrawn, i);
    }
  }

  /** The swap moves one occurrence of the case out of the prefix. */
  lemma SwapNum(cases: seq<Channel>, active: nat, i: nat, c: Channel)
    requires 1 <= i < active <= |cases|
    ensures var swapped := Swapped(cases, i, active - 1);
      && Num(swapped, 1, active - 1, c) + One(cases[i], c) == Num(cases, 1, active, c)
      && Num(swapped, active - 1, |cases|, c) == Num(cases, active, |cases|, c) + One(cases[i], c)
      && Num(swapped, 1, |cases|, c) == Num(cases, 1, |cases|, c)
  {
    var n, j := |cases|, active - 1;
    var moved, swapped := cases[i := cases[j]], Swapped(cases, i, j);
    NumUpdate(cases, 1, active, i, cases[j], c);
    NumSame(moved, 1, j, swapped, 1, c);
    NumSplits(swapped, j, active, n, c);
    NumSame(cases, active, n, swapped, active, c);
    assert Num(swapped, j, active, c) == Num(swapped, j, j, c) + One(cases[i], c);
    NumSplits(swapped, 1, j, n, c);
    NumSplits(cases, 1, active, n, c);
  }

  lemma Serve(cases: seq<Channel>, active: nat, nsent: nat, targets: multiset<Channel>,
              delivered: multiset<Channel>, withdrawn: multiset<Channel>, i: nat)
    requires Delivering(cases, active, nsent, targets, delivered, withdrawn) && 1 <= i < active
    ensures Delivering(Swapped(cases, i, active - 1), active - 1, nsent + 1, targets, delivered + multiset{cases[i]}, withdrawn)
  {
    var swapped, waiting := Swapped(cases, i, active - 1), active - 1;
    forall c: Channel ensures Accounted(swapped, waiting, targets, delivered + multiset{cases[i]}, withdrawn, c) {
      assert Accounted(cases, active, targets, delivered, withdrawn, c);
      SwapNum(cases, active, i, c);
    }
  }

  lemma SwapRegistered(cases: seq<Channel>, inbox: seq<Channel>, live: multiset<Channel>,
                       leaving: multiset<Channel>, active: nat, i: nat)
    requires Registered(cases, inbox, live, leaving) && 1 <= i < active <= |cases|
    ensures Registered(Swapped(cases, i, active - 1), inbox, live, leaving)
  {
    var swapped := Swapped(cases, i, active - 1);
    forall c: Channel ensures Balanced(swapped, inbox, live, leaving, c) {
      assert Balanced(cases, inbox, live, leaving, c);
      SwapNum(cases, active, i, c);
    }
  }

  /** With no case waiting, every target was served or withdrawn. */
  lemma AllServed(cases: seq<Channel>, nsent: nat, targets: multiset<Channel>, delivered: multiset<Channel>, withdrawn: multiset<Channel>)
    requires Delivering(cases, 1, nsent, targets, delivered, withdrawn)
    ensures delivered + withdrawn == targets
  {
    forall c: Channel ensures (delivered + withdrawn)[c] == targets[c] {
      assert Accounted(cases, 1, targets, delivered, withdrawn, c);
    }
  }

  /** Where a send stands. The first `active` cases of the list are its `cases`: it tries them one
      by one without blocking, `next` being the one to try, or blocks on all of them at once. */
  datatype Phase =
    | Idle
    | Trying(active: nat, next: nat, nsent: nat)
    | Selecting(active: nat, nsent: nat)

  datatype Event =
    | Subscribe(ch: Channel)
    | Unsubscribe(ch: Channel)
    | RemoveIdle(ch: Channel)
    | StartSend
    | TrySend(accepted: bool)
    | EndScan
    | SelectSend(chosen: nat)
    | SelectRemove(ch: Channel)

  /** What callers and the send in progress, or the last one, have seen. */
  datatype Status = Status(phase: Phase, live: multiset<Channel>, leaving: multiset<Channel>,
                           targets: multiset<Channel>, delivered: multiset<Channel>, withdrawn: multiset<Channel>)

  predicate Enabled(s: Status, e: Event) {
    match e
    case Subscribe(ch) => ch != REMOVE_SUB
    case Unsubscribe(ch) => ch in s.live
    case RemoveIdle(ch) => s.phase.Idle? && ch in s.leaving
    case StartSend => s.phase.Idle?
    case TrySend(_) => s.phase.Trying? && s.phase.next < s.phase.active
    case EndScan => s.phase.Trying? && s.phase.next == s.phase.active
    case SelectSend(chosen) => s.phase.Selecting? && FIRST_SUB_SEND_CASE <= chosen < s.phase.active
    case SelectRemove(ch) => s.phase.Selecting? && ch in s.leaving
  }

  /** A step of a run; `served` is the channel that was sent to, if any. */
  datatype Moment = Moment(before: Status, event: Event, served: Channel, after: Status)

  predicate Starts(m: Moment) {
    m.event.StartSend? && Enabled(m.before, m.event)
  }

  predicate Ends(m: Moment) {
    m.event.EndScan? && Enabled(m.before, m.event) && m.before.phase.active == FIRST_SUB_SEND_CASE
  }

  /** What a step does, if it can happen. */
  ghost predicate Happens(m: Moment) {
    var s, t := m.before, m.after;
    if !Enabled(s, m.event) then t == s
    else
      match m.event
      case Subscribe(ch) => t == s.(live := s.live + multiset{ch})
      case Unsubscribe(ch) =>
        t == s.(live := s.live - multiset{ch}, leaving := t.leaving)
        && (t.leaving == s.leaving || t.leaving == s.leaving + multiset{ch})
      case RemoveIdle(ch) => t == s.(leaving := s.leaving - multiset{ch})
      case StartSend =>
        t == s.(phase := t.phase, targets := s.live + s.leaving, delivered := multiset{}, withdrawn := multiset{})
        && t.phase.Trying? && t.phase.next == FIRST_SUB_SEND_CASE && t.phase.nsent == 0
      case TrySend(accepted) =>
        var Trying(active, next, nsent) := s.phase;
        if accepted then t == s.(phase := Trying(active - 1, next, nsent + 1), delivered := s.delivered + multiset{m.served})
        else t == s.(phase := Trying(active, next + 1, nsent))
      case EndScan =>
        t == s.(phase := if Ends(m) then Idle else Selecting(s.phase.active, s.phase.nsent))
        && (Ends(m) ==> s.phase.nsent == |s.delivered| && s.delivered + s.withdrawn == s.targets)
      case SelectSend(_) =>
        t == s.(phase := Trying(s.phase.active - 1, FIRST_SUB_SEND_CASE, s.phase.nsent + 1), delivered := s.delivered + multiset{m.served})
      case SelectRemove(ch) =>
        t == s.(phase := t.phase, leaving := s.leaving - multiset{ch}, withdrawn := t.withdrawn)
        && t.phase.Trying?
        && t.phase == Trying(t.phase.active, FIRST_SUB_SEND_CASE, s.phase.nsent)
        && if t.phase.active == s.phase.active then t.withdrawn == s.withdrawn
           else t.phase.active == s.phase.active - 1 && t.withdrawn == s.withdrawn + multiset{ch}
  }

  /** The steps of a run, each from where the last one ended. */
  ghost predicate Trace(start: Status, events: seq<Event>, trace: seq<Moment>, end: Status) {
    && |trace| == |events|
    && if |trace| == 0 then end == start
       else
         var n := |trace| - 1;
         && trace[n].event == events[n] && Happens(trace[n]) && trace[n].after == end
         && Trace(start, events[..n], trace[..n], trace[n].before)
  }

  /** The counts that the finished sends of a run return, in order. */
  ghost function Counts(trace: seq<Moment>): seq<nat> {
    if |trace| == 0 then []
    else
      var n := |trace| - 1;
      Counts(trace[..n]) + if Ends(trace[n]) then [trace[n].before.phase.nsent] else []
  }

  lemma TraceGrows(start: Status, events: seq<Event>, i: nat, trace: seq<Moment>, m: Moment)
    requires i < |events| && Trace(start, events[..i], trace, m.before) && Happens(m) && m.event == events[i]
    ensures Trace(start, events[..i + 1], trace + [m], m.after)
    ensures Counts(trace + [m]) == Counts(trace) + if Ends(m) then [m.before.phase.nsent] else []
  {
    assert (trace + [m])[..|trace|] == trace && events[..i + 1][..i] == events[..i];
  }

  /** Between its start and its end a send is in progress and its targets stay. */
  lemma {:induction false} SendGoesOn(start: Status, events: seq<Event>, trace: seq<Moment>, end: Status, i: nat)
    requires Trace(start, events, trace, end) && i < |trace| && Starts(trace[i]) && NoEnd(trace, i, |trace|)
    ensures !end.phase.Idle? && end.targets == trace[i].before.live + trace[i].before.leaving
    decreases |trace|
  {
    var n := |trace| - 1;
    if i < n {
      SendGoesOn(start, events[..n], trace[..n], trace[n].before, i);
      StepKeeps(trace[n]);
    }
  }

  ghost predicate NoEnd(trace: seq<Moment>, i: nat, j: nat)
    requires j <= |trace|
  {
    forall k :: i < k < j ==> !Ends(trace[k])
  }

  lemma StepKeeps(m: Moment)
    requires Happens(m) && !m.before.phase.Idle? && !Ends(m)
    ensures !m.after.phase.Idle? && m.after.targets == m.before.targets
  {
  }

  /** Every finished send of a run: of the subscriptions in force when it started, and those then on
      their way out, each got the value exactly once or was withdrawn during the send, and the count
      it returned is the number of values delivered. */
  lemma SendReachesAll(start: Status, events: seq<Event>, trace: seq<Moment>, end: Status, i: nat)
    requires Trace(start, events, trace, end) && i < |trace| - 1 && Starts(trace[i]) && Ends(trace[|trace| - 1])
    requires NoEnd(trace, i, |trace| - 1)
    ensures end.delivered + end.withdrawn == trace[i].before.live + trace[i].before.leaving
    ensures Counts(trace) == Counts(trace[..|trace| - 1]) + [|end.delivered|]
  {
    var n := |trace| - 1;
    SendGoesOn(start, events[..n], trace[..n], trace[n].before, i);
  }

  class Feed {
    var slots: array<Channel> // the send cases, and room for more
    var whole: nat // how many there are; the first one is the feed's own removal channel
    var inbox: seq<Channel>
    var phase: Phase
    // the callers: subscriptions in force, and unsubscribers past the inbox that now wait for
    // either a sender to take their request or the send lock
    var live: multiset<Channel>
    var leaving: multiset<Channel>
    // of the send in progress or the last one
    ghost var targets: multiset<Channel>
    ghost var delivered: multiset<Channel>
    ghost var withdrawn: multiset<Channel>

    ghost function SendCases(): seq<Channel>
      requires whole <= slots.Length
      reads this`slots, this`whole, slots
    {
      slots[..whole]
    }

    ghost predicate Valid()
      reads this, slots
    {
      && whole <= slots.Length && Registered(SendCases(), inbox, live, leaving)
      && match phase
         case Idle => true
         case Trying(active, next, nsent) =>
           1 <= next <= active && Delivering(SendCases(), active, nsent, targets, delivered, withdrawn)
         case Selecting(active, nsent) =>
           1 < active && Delivering(SendCases(), active, nsent, targets, delivered, withdrawn)
    }

    constructor ()
      ensures Valid() && phase.Idle? && live == multiset{} && leaving == multiset{} && fresh(slots)
    {
      slots, whole := new Channel[1](_ => REMOVE_SUB), 1;
      inbox, phase := [], Idle;
      live, leaving := multiset{}, multiset{};
      targets, delivered, withdrawn := multiset{}, multiset{}, multiset{};
    }

    method Subscribe(ch: Channel)
      requires Valid() && ch != REMOVE_SUB
      modifies this`inbox, this`live
      ensures Valid() && inbox == old(inbox) + [ch] && live == old(live) + multiset{ch}
    {
      EnterInbox(SendCases(), inbox, live, leaving, ch);
      inbox := inbox + [ch];
      live := live + multiset{ch};
    }

    /** The first step of unsubscribing: leave by the inbox, or else queue up for removal. */
    method Unsubscribe(ch: Channel)
      requires Valid() && ch in live
      modifies this`inbox, this`live, this`leaving
      ensures Valid() && live == old(live) - multiset{ch}
      ensures if ch in old(inbox)
              then leaving == old(leaving) && exists i :: 0 <= i && FirstAt(old(inbox), i, ch) && inbox == Removed(old(inbox), i)
              else leaving == old(leaving) + multiset{ch} && inbox == old(inbox)
    {
      var index := IndexOf(inbox, ch);
      if index != -1 {
        LeaveInbox(SendCases(), inbox, live, leaving, index);
        inbox := Removed(inbox, index);
      } else {
        QueueUp(SendCases(), inbox, live, leaving, ch);
        leaving := leaving + multiset{ch};
      }
      live := live - multiset{ch};
    }

    /** Takes a queued removal out of the case list; its channel is always found there. */
    method RemoveCase(ch: Channel) returns (index: nat)
      requires whole <= slots.Length && Registered(SendCases(), inbox, live, leaving) && ch in leaving
      modifies this`whole, this`leaving, slots
      ensures whole == old(whole) - 1 && 1 <= index && FirstAt(old(SendCases()), index, ch)
      ensures SendCases() == Removed(old(SendCases()), index)
      ensures leaving == old(leaving) - multiset{ch}
      ensures Registered(SendCases(), inbox, live, leaving)
    {
      var found := IndexOf(slots[..whole], ch);
      LeavingIsListed(SendCases(), inbox, live, leaving, ch);
      index := found;
      UnregisterCase(SendCases(), inbox, live, leaving, index);
      Delete(slots, whole, index);
      whole := whole - 1;
      leaving := leaving - multiset{ch};
    }

    /** With no send in progress the unsubscriber takes the lock and removes its case itself. */
    method RemoveIdle(ch: Channel)
      requires Valid() && phase.Idle? && ch in leaving
      modifies this`whole, this`leaving, slots
      ensures Valid() && leaving == old(leaving) - multiset{ch}
    {
      var _ := RemoveCase(ch);
    }

    /** Takes the send lock and the inbox, and starts over all cases. */
    method StartSend()
      requires Valid() && phase.Idle?
      modifies this`slots, this`whole, this`inbox, this`phase, this`targets, this`delivered, this`withdrawn, slots
      ensures Valid() && phase == Trying(whole, FIRST_SUB_SEND_CASE, 0) && (slots == old(slots) || fresh(slots))
      ensures SendCases() == old(SendCases()) + old(inbox) && inbox == []
      ensures targets == live + leaving && delivered == multiset{} && withdrawn == multiset{}
    {
      MergeInbox(SendCases(), inbox, live, leaving);
      targets, delivered, withdrawn := live + leaving, multiset{}, multiset{};
      TakeInbox();
      phase := Trying(whole, FIRST_SUB_SEND_CASE, 0);
    }

    method TakeInbox()
      requires whole <= slots.Length
      modifies this`slots, this`whole, this`inbox, slots
      ensures whole <= slots.Length && SendCases() == old(SendCases()) + old(inbox) && inbox == []
      ensures slots == old(slots) || fresh(slots)
    {
      slots := Append(slots, whole, inbox);
      whole := whole + |inbox|;
      inbox := [];
    }

    /** The fast path at one case: served at once if its channel has room. */
    method TrySend(accepted: bool)
      requires Valid() && phase.Trying? && phase.next < phase.active
      modifies this`phase, this`delivered, slots
      ensures Valid()
      ensures var Trying(active, next, nsent) := old(phase);
        if accepted then phase == Trying(active - 1, next, nsent + 1) && delivered == old(delivered) + multiset{old(SendCases()[next])}
        else phase == Trying(active, next + 1, nsent) && delivered == old(delivered) && SendCases() == old(SendCases())
    {
      var Trying(active, next, nsent) := phase;
      if accepted {
        ServeNext();
      } else {
        phase := Trying(active, next + 1, nsent);
      }
    }

    method ServeNext()
      requires Valid() && phase.Trying? && phase.next < phase.active
      modifies this`phase, this`delivered, slots
      ensures Valid() && phase == Trying(old(phase).active - 1, old(phase).next, old(phase).nsent + 1)
      ensures delivered == old(delivered) + multiset{old(SendCases()[phase.next])}
    {
      var Trying(active, next, nsent) := phase;
      var active' := ServeCase(active, next, nsent);
      phase := Trying(active', next, nsent + 1);
    }

    /** Marks a waiting case as served by swapping it behind the waiting ones. */
    method ServeCase(active: nat, i: nat, ghost nsent: nat) returns (active': nat)
      requires 1 <= i < active <= whole <= slots.Length && Registered(SendCases(), inbox, live, leaving)
      requires Delivering(SendCases(), active, nsent, targets, delivered, withdrawn)
      modifies this`delivered, slots
      ensures active' == active - 1 && SendCases() == Swapped(old(SendCases()), i, active')
      ensures delivered == old(delivered) + multiset{old(SendCases()[i])}
      ensures Registered(SendCases(), inbox, live, leaving)
      ensures Delivering(SendCases(), active', nsent + 1, targets, delivered, withdrawn)
    {
      SwapRegistered(SendCases(), inbox, live, leaving, active, i);
      Serve(SendCases(), active, nsent, targets, delivered, withdrawn, i);
      delivered := delivered + multiset{slots[i]};
      active' := Deactivate(slots, active, i, whole);
    }

    /** The fast path is through: with no case left the send ends, otherwise it blocks. When it
        ends, each case it started with was served exactly once or withdrawn while it waited. */
    method EndScan() returns (sent: int)
      requires Valid() && phase.Trying? && phase.next == phase.active
      modifies this`phase
      ensures Valid()
      ensures phase.Idle? <==> old(phase).active == FIRST_SUB_SEND_CASE
      ensures phase.Idle? ==> sent == old(phase).nsent == |delivered| && delivered + withdrawn == targets
      ensures !phase.Idle? ==> phase == Selecting(old(phase).active, old(phase).nsent) && sent == -1
    {
      var Trying(active, _, nsent) := phase;
      if active == FIRST_SUB_SEND_CASE {
        AllServed(SendCases(), nsent, targets, delivered, withdrawn);
        phase := Idle;
        return nsent;
      }
      phase := Selecting(active, nsent);
      return -1;
    }

    /** The blocking select chose a subscriber. */
    method SelectSend(chosen: nat)
      requires Valid() && phase.Selecting? && FIRST_SUB_SEND_CASE <= chosen < phase.active
      modifies this`phase, this`delivered, slots
      ensures Valid() && phase == Trying(old(phase).active - 1, FIRST_SUB_SEND_CASE, old(phase).nsent + 1)
      ensures delivered == old(delivered) + multiset{old(SendCases()[chosen])}
    {
      var Selecting(active, nsent) := phase;
      var active' := ServeCase(active, chosen, nsent);
      phase := Trying(active', FIRST_SUB_SEND_CASE, nsent + 1);
    }

    /** The blocking select took a removal request. */
    method SelectRemove(ch: Channel)
      requires Valid() && phase.Selecting? && ch in leaving
      modifies this`whole, this`leaving, this`phase, this`withdrawn, slots
      ensures Valid() && leaving == old(leaving) - multiset{ch}
      ensures phase.Trying? && phase.next == FIRST_SUB_SEND_CASE && phase.nsent == old(phase).nsent
      ensures if Waits(old(SendCases()), old(phase).active, ch)
              then phase.active == old(phase).active - 1 && withdrawn == old(withdrawn) + multiset{ch}
              else phase.active == old(phase).active && withdrawn == old(withdrawn)
    {
      var Selecting(active, nsent) := phase;
      var active' := Withdraw(ch, active, nsent);
      phase := Trying(active', FIRST_SUB_SEND_CASE, nsent);
    }

    method Withdraw(ch: Channel, active: nat, ghost nsent: nat) returns (active': nat)
      requires active <= whole <= slots.Length && Registered(SendCases(), inbox, live, leaving) && ch in leaving
      requires Delivering(SendCases(), active, nsent, targets, delivered, withdrawn)
      modifies this`whole, this`leaving, this`withdrawn, slots
      ensures whole <= slots.Length && leaving == old(leaving) - multiset{ch}
      ensures Registered(SendCases(), inbox, live, leaving)
      ensures Delivering(SendCases(), active', nsent, targets, delivered, withdrawn)
      ensures if Waits(old(SendCases()), active, ch) then active' == active - 1 && withdrawn == old(withdrawn) + multiset{ch}
              else active' == active && withdrawn == old(withdrawn)
    {
      ghost var cases := SendCases();
      var index := RemoveCase(ch);
      RemoveEither(cases, active, nsent, targets, delivered, withdrawn, index, ch);
      if index < active {
        withdrawn := withdrawn + multiset{ch};
        return active - 1;
      }
      return active;
    }

    ghost function Now(): Status
      reads this
    {
      Status(phase, live, leaving, targets, delivered, withdrawn)
    }

    /** Any interleaving of the steps; an event that cannot happen in the current state is skipped.
        `sent` is what the sends that ended returned. */
    method Run(events: seq<Event>) returns (sent: seq<nat>, ghost trace: seq<Moment>)
      requires Valid()
      modifies this, slots
      ensures Valid() && (slots == old(slots) || fresh(slots))
      ensures Trace(old(Now()), events, trace, Now()) && sent == Counts(trace)
    {
      sent, trace := RunAll(events, |events|);
      assert events[..|events|] == events;
    }

    method RunAll(events: seq<Event>, n: nat) returns (sent: seq<nat>, ghost trace: seq<Moment>)
      requires n <= |events| && Valid()
      modifies this, slots
      ensures Valid() && (slots == old(slots) || fresh(slots))
      ensures Trace(old(Now()), events[..n], trace, Now()) && sent == Counts(trace)
    {
      if n == 0 {
        return [], [];
      }
      sent, trace := RunAll(events, n - 1);
      var ended, m := Apply(events[n - 1]);
      TraceGrows(old(Now()), events, n - 1, trace, m);
      sent, trace := sent + ended, trace + [m];
    }

    /** One step. `ended` is what a send returned that it ended. */
    method Apply(e: Event) returns (ended: seq<nat>, ghost m: Moment)
      requires Valid()
      modifies this, slots
      ensures Valid() && (slots == old(slots) || fresh(slots))
      ensures m.before == old(Now()) && m.event == e && m.after == Now() && Happens(m)
      ensures ended == if Ends(m) then [m.before.phase.nsent] else []
    {
      ended := [];
      ghost var before, served := Now(), REMOVE_SUB;
      if e.StartSend? {
        if phase.Idle? { StartSend(); }
      } else if e.Subscribe? || e.Unsubscribe? || e.RemoveIdle? {
        CallerStep(e);
      } else {
        ended, served := SenderStep(e);
      }
      m := Moment(before, e, served, Now());
    }

    method CallerStep(e: Event)
      requires Valid() && (e.Subscribe? || e.Unsubscribe? || e.RemoveIdle?)
      modifies this`inbox, this`live, this`leaving, this`whole, slots
      ensures Valid() && Happens(Moment(old(Now()), e, REMOVE_SUB, Now()))
    {
      match e
      case Subscribe(ch) => if ch != REMOVE_SUB { Subscribe(ch); }
      case Unsubscribe(ch) => StepUnsubscribe(ch);
      case RemoveIdle(ch) => if phase.Idle? && ch in leaving { RemoveIdle(ch); }
    }

    method StepUnsubscribe(ch: Channel)
      requires Valid()
      modifies this`inbox, this`live, this`leaving
      ensures Valid() && Happens(Moment(old(Now()), Event.Unsubscribe(ch), REMOVE_SUB, Now()))
    {
      if ch in live {
        Unsubscribe(ch);
      }
    }

    method SenderStep(e: Event) returns (ended: seq<nat>, ghost served: Channel)
      requires Valid() && (e.TrySend? || e.EndScan? || e.SelectSend? || e.SelectRemove?)
      modifies this`phase, this`delivered, this`withdrawn, this`leaving, this`whole, slots
      ensures Valid() && Happens(Moment(old(Now()), e, served, Now()))
      ensures ended == if Ends(Moment(old(Now()), e, served, Now())) then [old(phase).nsent] else []
    {
      ended, served := [], REMOVE_SUB;
      match e
      case TrySend(accepted) => served := StepTry(accepted);
      case EndScan => ended := StepEnd();
      case SelectSend(chosen) => served := StepSelect(chosen);
      case SelectRemove(ch) => StepRemove(ch);
    }

    method StepTry(accepted: bool) returns (ghost served: Channel)
      requires Valid()
      modifies this`phase, this`delivered, slots
      ensures Valid() && Happens(Moment(old(Now()), Event.TrySend(accepted), served, Now()))
    {
      served := REMOVE_SUB;
      if phase.Trying? && phase.next < phase.active {
        served := SendCases()[phase.next];
        TrySend(accepted);
      }
    }

    method StepEnd() returns (ended: seq<nat>)
      requires Valid()
      modifies this`phase
      ensures Valid() && Happens(Moment(old(Now()), Event.EndScan, REMOVE_SUB, Now()))
      ensures ended == if Ends(Moment(old(Now()), Event.EndScan, REMOVE_SUB, Now())) then [old(phase).nsent] else []
    {
      ended := [];
      if phase.Trying? && phase.next == phase.active {
        var sent := EndScan();
        if sent >= 0 {
          ended := [sent];
        }
      }
    }

    method StepSelect(chosen: nat) returns (ghost served: Channel)
      requires Valid()
      modifies this`phase, this`delivered, slots
      ensures Valid() && Happens(Moment(old(Now()), Event.SelectSend(chosen), served, Now()))
    {
      served := REMOVE_SUB;
      if phase.Selecting? && FIRST_SUB_SEND_CASE <= chosen < phase.active {
        served := SendCases()[chosen];
        SelectSend(chosen);
      }
    }

    method StepRemove(ch: Channel)
      requires Valid()
      modifies this`whole, this`leaving, this`phase, this`withdrawn, slots
      ensures Valid() && Happens(Moment(old(Now()), Event.SelectRemove(ch), REMOVE_SUB, Now()))
    {
      if phase.Selecting? && ch in leaving {
        SelectRemove(ch);
      }
    }
  }

  /** At the end of a send, a channel that was not withdrawn got one value for each case it had. */
  lemma ServedOnce(targets: multiset<Channel>, delivered: multiset<Channel>, withdrawn: multiset<Channel>, ch: Channel)
    requires delivered + withdrawn == targets && ch !in withdrawn
    ensures delivered[ch] == targets[ch]
  {
    assert (delivered + withdrawn)[ch] == targets[ch];
  }
}
