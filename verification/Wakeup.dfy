/** No lost wakeup: a reactor never stays blocked on a non-empty queue with nobody left to signal it. */
module Wakeup {
  import opened Bits
  import opened Inboxes
  import opened Commands
  import opened Reactors

  // ----- the invariant -----

  /** Program points at which a reactor has notified everyone it owes. */
  predicate Quiet(pc: Pc)
  {
    pc.Sleepy? || pc.Checking? || pc.Unsleeping? || pc.Blocked? || pc.Woken? || pc == Polling(0)
  }

  /** The number of callbacks run is positive wherever a callback has run. */
  predicate Counted(task: Task)
  {
    (task.Replied? ==> task.n > 0) && (task.Served? ==> task.n > 0)
  }

  predicate TaskOf(pc: Pc, task: Task)
  {
    match pc
    case Working(t) => t == task
    case Sending(_, _, t) => t == task
    case Publishing(_, _, t) => t == task
    case Marking(_, _, t) => t == task
    case _ => false
  }

  ghost predicate Tidy(x: Reactor, n: nat)
  {
    && (Quiet(x.pc) ==> x.soft == {})
    && (forall i | i in x.soft :: i < n)
    && (forall task | TaskOf(x.pc, task) :: Counted(task))
    && (x.pc.Sending? ==> x.pc.to < n) && (x.pc.Publishing? ==> x.pc.to < n) && (x.pc.Marking? ==> x.pc.to < n)
    && (x.pc.Signalling? ==> x.pc.i < n)
  }

  /** Reactor `x` has put a message in the queue of `r` and has yet to exchange its flag or write its eventfd. */
  predicate Owes(x: Reactor, r: nat)
  {
    match x.pc
    case Publishing(to, _, _) => to == r || r in x.soft
    case Marking(to, _, _) => to == r || r in x.soft
    case Waking(i) => r in x.soft && i <= r
    case Signalling(i) => i == r || (r in x.soft && i < r)
    case _ => r in x.soft
  }

  ghost predicate Signaller(rs: seq<Reactor>, r: nat)
  {
    exists x :: 0 <= x < |rs| && rs[x].pc == Signalling(r)
  }

  ghost predicate Debtor(rs: seq<Reactor>, r: nat)
  {
    exists x :: 0 <= x < |rs| && Owes(rs[x], r)
  }

  /** A reactor going to sleep whose flag was exchanged has its eventfd written, or about to be. */
  ghost predicate Flagged(rs: seq<Reactor>, r: nat)
    requires r < |rs|
  {
    (rs[r].pc.Checking? || rs[r].pc.Blocked?) && !rs[r].sleeping ==> rs[r].eventfd > 0 || Signaller(rs, r)
  }

  ghost predicate Attended(rs: seq<Reactor>, r: nat)
    requires r < |rs|
  {
    rs[r].pc.Blocked? && rs[r].inbox != [] ==> rs[r].eventfd > 0 || Debtor(rs, r)
  }

  ghost predicate Alert(rs: seq<Reactor>)
  {
    && (forall r | 0 <= r < |rs| :: Tidy(rs[r], |rs|))
    && (forall r | 0 <= r < |rs| :: Flagged(rs, r))
    && (forall r | 0 <= r < |rs| :: Attended(rs, r))
  }

  // ----- framing -----

  /** Only reactor `x` moved; everybody else kept program point and marks. */
  ghost predicate OnlyMoved(rs: seq<Reactor>, ts: seq<Reactor>, x: nat)
  {
    |ts| == |rs| && forall y | 0 <= y < |rs| && y != x :: ts[y].pc == rs[y].pc && ts[y].soft == rs[y].soft
  }

  lemma SignallerStays(rs: seq<Reactor>, ts: seq<Reactor>, x: nat, r: nat)
    requires OnlyMoved(rs, ts, x) && x < |rs| && Signaller(rs, r)
    requires rs[x].pc == Signalling(r) ==> ts[x].pc == Signalling(r)
    ensures Signaller(ts, r)
  {
    var y :| 0 <= y < |rs| && rs[y].pc == Signalling(r);
    assert ts[y].pc == Signalling(r);
  }

  lemma DebtorStays(rs: seq<Reactor>, ts: seq<Reactor>, x: nat, r: nat)
    requires OnlyMoved(rs, ts, x) && x < |rs| && Debtor(rs, r)
    requires Owes(rs[x], r) ==> Owes(ts[x], r)
    ensures Debtor(ts, r)
  {
    var y :| 0 <= y < |rs| && Owes(rs[y], r);
    assert Owes(ts[y], r);
  }

  /** The step of `x` leaves reactor `r` as well attended as it was. */
  ghost predicate Harmless(rs: seq<Reactor>, ts: seq<Reactor>, x: nat, r: nat)
    requires x < |rs| == |ts| && r < |rs|
  {
    && (ts[r].pc == rs[r].pc || !(ts[r].pc.Checking? || ts[r].pc.Blocked?)
        || (ts[r].pc.Checking? && ts[r].sleeping) || (ts[r].pc.Blocked? && rs[r].pc.Checking? && ts[r].inbox == []))
    && (ts[r].sleeping == rs[r].sleeping || ts[r].sleeping || !(ts[r].pc.Checking? || ts[r].pc.Blocked?))
    && (ts[r].eventfd >= rs[r].eventfd || !(ts[r].pc.Checking? || ts[r].pc.Blocked?))
    && (ts[r].inbox == [] || rs[r].inbox != [])
    && (rs[x].pc == Signalling(r) ==> ts[x].pc == Signalling(r))
    && (Owes(rs[x], r) ==> Owes(ts[x], r))
  }

  lemma HarmlessKeeps(rs: seq<Reactor>, ts: seq<Reactor>, x: nat, r: nat)
    requires x < |rs| && r < |rs| && OnlyMoved(rs, ts, x) && Harmless(rs, ts, x, r)
    requires Flagged(rs, r) && Attended(rs, r)
    ensures Flagged(ts, r) && Attended(ts, r)
  {
    if Signaller(rs, r) {
      SignallerStays(rs, ts, x, r);
    }
    if Debtor(rs, r) {
      DebtorStays(rs, ts, x, r);
    }
  }

  /** A step harmless to everyone keeps the invariant. */
  lemma AlertKept(rs: seq<Reactor>, ts: seq<Reactor>, x: nat)
    requires x < |rs| && OnlyMoved(rs, ts, x) && Alert(rs)
    requires forall r | 0 <= r < |rs| :: Harmless(rs, ts, x, r) || (Flagged(ts, r) && Attended(ts, r))
    requires Tidy(ts[x], |ts|)
    ensures Alert(ts)
  {
    forall r | 0 <= r < |ts|
      ensures Flagged(ts, r) && Attended(ts, r) && Tidy(ts[r], |ts|)
    {
      if Harmless(rs, ts, x, r) {
        HarmlessKeeps(rs, ts, x, r);
      }
      assert Tidy(rs[r], |rs|);
      if r != x {
        assert Tidy(ts[r], |ts|);
      }
    }
  }

  // ----- steps -----

  lemma StartAlert(s: Server)
    requires Start(s)
    ensures Alert(s.rs)
  {
  }

  lemma WakeKeeps(s: Server, x: nat)
    requires Alert(s.rs) && x < |s.rs| && s.rs[x].pc.Waking?
    ensures Alert(Wake(s, x).rs)
  {
    var i := s.rs[x].pc.i;
    hide Alert, Wake;
    if i < |s.rs| && i in s.rs[x].soft && s.rs[i].sleeping {
      WakeExchanges(s, x);
    } else {
      WakePasses(s, x);
    }
  }

  /** A flag found set is exchanged, and its eventfd will be written next. */
  lemma WakeExchanges(s: Server, x: nat)
    requires Alert(s.rs) && x < |s.rs| && s.rs[x].pc.Waking?
    requires var i := s.rs[x].pc.i; i < |s.rs| && i in s.rs[x].soft && s.rs[i].sleeping
    ensures Alert(Wake(s, x).rs)
  {
    var rs, ts, i := s.rs, Wake(s, x).rs, s.rs[x].pc.i;
    assert Tidy(rs[x], |rs|);
    assert Flagged(rs, i);
    assert ts[x].pc == Signalling(i) && Owes(ts[x], i);
    assert Signaller(ts, i) && Debtor(ts, i);
    AlertKept(rs, ts, x);
  }

  /** A reactor not marked, or awake, is passed over: somebody else who found it asleep is about to write its
      eventfd. */
  lemma WakePasses(s: Server, x: nat)
    requires Alert(s.rs) && x < |s.rs| && s.rs[x].pc.Waking?
    requires var i := s.rs[x].pc.i; i < |s.rs| && i in s.rs[x].soft ==> !s.rs[i].sleeping
    ensures Alert(Wake(s, x).rs)
  {
    var rs, ts, i := s.rs, Wake(s, x).rs, s.rs[x].pc.i;
    assert Tidy(rs[x], |rs|);
    if i < |rs| {
      assert Flagged(rs, i);
      if rs[i].pc.Blocked? && Signaller(rs, i) {
        SignallerStays(rs, ts, x, i);
        var y :| 0 <= y < |ts| && ts[y].pc == Signalling(i);
        assert Owes(ts[y], i);
      }
    }
    AlertKept(rs, ts, x);
  }

  lemma SignalKeeps(s: Server, x: nat)
    requires Alert(s.rs) && x < |s.rs| && s.rs[x].pc.Signalling?
    ensures Alert(Signal(s, x).rs)
  {
    var rs, ts, i := s.rs, Signal(s, x).rs, s.rs[x].pc.i;
    assert Tidy(rs[x], |rs|);
    AlertKept(rs, ts, x);
  }

  lemma PollKeeps(s: Server, x: nat)
    requires Alert(s.rs) && x < |s.rs| && s.rs[x].pc.Polling?
    requires s.rs[x].inbox != [] && s.rs[x].inbox[0].item.Request? ==> s.rs[x].inbox[0].item.from < |s.rs|
    ensures Alert(Poll(s, x).rs)
  {
    hide Apply, ReplyTo;
    var rs, ts := s.rs, Poll(s, x).rs;
    assert Tidy(rs[x], |rs|);
    AlertKept(rs, ts, x);
  }

  /** Only a send can put a message before a blocked reactor, and its sender then owes it a wakeup. */
  lemma SendKeeps(s: Server, x: nat)
    requires Alert(s.rs) && x < |s.rs| && s.rs[x].pc.Sending?
    ensures Alert(Send(s, x).rs)
  {
    hide After;
    var rs, ts := s.rs, Send(s, x).rs;
    assert Tidy(rs[x], |rs|);
    if ts != rs {
      SendTarget(s, x);
      hide Flagged, Attended;
      AlertKept(rs, ts, x);
    }
  }

  /** The reactor whose queue is no longer empty has a debtor now. */
  lemma SendTarget(s: Server, x: nat)
    requires Alert(s.rs) && x < |s.rs| && s.rs[x].pc.Sending? && Send(s, x).rs != s.rs
    ensures var ts, to := Send(s, x).rs, s.rs[x].pc.to;
      |ts| == |s.rs| && to < |ts| && Flagged(ts, to) && Attended(ts, to)
  {
    hide After;
    var rs, ts, to := s.rs, Send(s, x).rs, s.rs[x].pc.to;
    assert ts[x].pc.Publishing? && Owes(ts[x], to);
    assert Debtor(ts, to);
    assert Flagged(rs, to);
    if Signaller(rs, to) {
      SignallerStays(rs, ts, x, to);
    }
  }

  lemma PublishKeeps(s: Server, x: nat)
    requires Alert(s.rs) && x < |s.rs| && s.rs[x].pc.Publishing?
    ensures Alert(Publish(s, x).rs)
  {
    var rs, ts := s.rs, Publish(s, x).rs;
    assert Tidy(rs[x], |rs|);
    AlertKept(rs, ts, x);
  }

  lemma MarkKeeps(s: Server, x: nat)
    requires Alert(s.rs) && x < |s.rs| && s.rs[x].pc.Marking?
    ensures Alert(Mark(s, x).rs)
  {
    var rs, ts := s.rs, Mark(s, x).rs;
    assert Tidy(rs[x], |rs|);
    AlertKept(rs, ts, x);
  }

  lemma IssueKeeps(s: Server, H: Hash, x: nat)
    requires Alert(s.rs) && x < |s.rs|
    ensures Alert(Do(s, H, Handle(x)).rs)
  {
    hide Apply, ReplyTo;
    var rs, ts := s.rs, Do(s, H, Handle(x)).rs;
    assert Tidy(rs[x], |rs|);
    AlertKept(rs, ts, x);
  }

  /** Falling asleep: the flag is set before the queue is looked at, so a queue found empty stays attended. */
  lemma SleepKeeps(s: Server, x: nat)
    requires Alert(s.rs) && x < |s.rs|
    requires s.rs[x].pc.Sleepy? || s.rs[x].pc.Checking? || s.rs[x].pc.Unsleeping? || s.rs[x].pc.Blocked?
            || s.rs[x].pc.Woken?
    ensures Alert(DoTick(s, x).rs)
  {
    var rs, ts := s.rs, DoTick(s, x).rs;
    assert Tidy(rs[x], |rs|);
    AlertKept(rs, ts, x);
  }

  /** Between callbacks only the reactor's own program point and eventfd move. */
  lemma LoopTidy(s: Server, H: Hash, a: Action)
    requires a.r < |s.rs| && Tidy(s.rs[a.r], |s.rs|) && (a.Drain? || a.Open? || a.Stop?)
    ensures var ts := Do(s, H, a).rs; OnlyMoved(s.rs, ts, a.r) && Tidy(ts[a.r], |ts|)
  {
    assert s.rs[a.r].pc.Working? ==> TaskOf(s.rs[a.r].pc, s.rs[a.r].pc.task);
  }

  lemma LoopHarmless(s: Server, H: Hash, a: Action, r: nat)
    requires a.r < |s.rs| && r < |s.rs| && Tidy(s.rs[a.r], |s.rs|) && (a.Drain? || a.Open? || a.Stop?)
    ensures Harmless(s.rs, Do(s, H, a).rs, a.r, r)
  {
    hide Tidy, TaskOf;
  }

  lemma LoopKeeps(s: Server, H: Hash, a: Action)
    requires Alert(s.rs) && (a.Drain? || a.Open? || a.Stop?)
    ensures Alert(Do(s, H, a).rs)
  {
    if a.r < |s.rs| {
      hide Do, Harmless, OnlyMoved, Tidy, Flagged, Attended;
      LoopTidy(s, H, a);
      forall r | 0 <= r < |s.rs|
        ensures Harmless(s.rs, Do(s, H, a).rs, a.r, r)
      {
        LoopHarmless(s, H, a, r);
      }
      AlertKept(s.rs, Do(s, H, a).rs, a.r);
    }
  }
}
