/** The other half: whenever a client sends a command for another shard and then one for yet another, some run of the
    server answers the second one first. */
module Overtake {
  import opened Bits
  import opened Inboxes
  import opened Commands
  import opened Reactors
  import opened Order

  // ----- reaching states -----

  ghost predicate Reaches(s: Server, t: Server, H: Hash)
  {
    exists run: seq<Action> :: Exec(s, H, run) == t
  }

  lemma ReachSelf(s: Server, H: Hash)
    ensures Reaches(s, s, H)
  {
    assert Exec(s, H, []) == s;
  }

  lemma Act(s: Server, t: Server, H: Hash, a: Action) returns (u: Server)
    requires Reaches(s, t, H)
    ensures u == Do(t, H, a) && Reaches(s, u, H)
  {
    hide Do;
    var run: seq<Action> :| Exec(s, H, run) == t;
    assert (run + [a])[..|run|] == run;
    u := Do(t, H, a);
    assert Exec(s, H, run + [a]) == u;
  }

  // ----- what a step may touch -----

  ghost predicate SameMail(s: Server, t: Server)
  {
    |t.rs| == |s.rs| && forall y | 0 <= y < |s.rs| :: t.rs[y].inbox == s.rs[y].inbox
  }

  ghost predicate SamePcs(s: Server, t: Server, r: nat)
  {
    |t.rs| == |s.rs| && forall y | 0 <= y < |s.rs| && y != r :: t.rs[y].pc == s.rs[y].pc
  }

  /** Only the waiting flags of connections moved. */
  ghost predicate SameConns(s: Server, t: Server)
  {
    |t.conns| == |s.conns| && forall d | 0 <= d < |s.conns| :: t.conns[d] == s.conns[d].(waiting := t.conns[d].waiting)
  }

  /** Reactor `r` moved, and nobody's queue or connection. */
  ghost predicate Alone(s: Server, t: Server, r: nat)
  {
    SameMail(s, t) && SamePcs(s, t, r) && t.conns == s.conns
  }

  lemma WakeTick(s: Server, r: nat)
    requires r < |s.rs| && s.rs[r].pc.Waking?
    ensures var t, i := DoTick(s, r), s.rs[r].pc.i;
      && Alone(s, t, r)
      && (if i >= |s.rs| then t.rs[r].pc == Polling(0) else t.rs[r].pc == Waking(i + 1) || t.rs[r].pc == Signalling(i))
  {
  }

  lemma SignalTick(s: Server, r: nat)
    requires r < |s.rs| && s.rs[r].pc.Signalling? && s.rs[r].pc.i < |s.rs|
    ensures var t := DoTick(s, r); Alone(s, t, r) && t.rs[r].pc == Waking(s.rs[r].pc.i + 1)
  {
  }

  /** On the way through an idle loop iteration. */
  function NextIdle(pc: Pc): Pc
  {
    match pc
    case Polling(_) => Sleepy
    case Sleepy => Checking
    case Checking => Blocked
    case Blocked => Woken
    case _ => Working(Events)
  }

  lemma IdleTick(s: Server, r: nat)
    requires r < |s.rs| && s.rs[r].inbox == []
    requires var pc := s.rs[r].pc; pc == Polling(0) || pc.Sleepy? || pc.Checking? || pc.Blocked? || pc.Woken?
    ensures var t := DoTick(s, r); Alone(s, t, r) && t.rs[r].pc == NextIdle(s.rs[r].pc)
  {
  }

  lemma StopStep(s: Server, H: Hash, r: nat)
    requires r < |s.rs| && s.rs[r].pc.Working?
    ensures var t := Do(s, H, Stop(r));
      && Alone(s, t, r)
      && match s.rs[r].pc.task
         case Events => t.rs[r].pc == Waking(0)
         case Data(_) => t.rs[r].pc == Working(Events)
         case Replied(_, n) => t.rs[r].pc == Polling(n)
         case Served(n) => t.rs[r].pc == Polling(n)
  {
  }

  lemma OpenStep(s: Server, H: Hash, r: nat, c: nat)
    requires r < |s.rs| && s.rs[r].pc == Working(Events) && c < |s.conns| && s.conns[c].home == r && !s.conns[c].waiting
    ensures var t := Do(s, H, Open(r, c)); Alone(s, t, r) && t.rs[r].pc == Working(Data(c))
  {
  }

  /** Reactor `r` is in the loop over the requests of connection `c`. */
  predicate Serving(pc: Pc, c: nat)
  {
    pc == Working(Data(c)) || (pc.Working? && pc.task.Replied? && pc.task.conn == c)
  }

  lemma HandleHere(s: Server, H: Hash, r: nat, c: nat)
    requires r < |s.rs| && Serving(s.rs[r].pc, c) && c < |s.conns| && s.conns[c].home == r
    requires var k := s.conns[c]; k.next < |k.todo| && Shard(H, |s.rs|, k.todo[k.next].key) == r
    ensures var t, k := Do(s, H, Handle(r)), s.conns[c];
      && SameMail(s, t) && SamePcs(s, t, r) && t.rs[r].pc == s.rs[r].pc && |t.conns| == |s.conns|
      && t.conns[c].home == r && t.conns[c].todo == k.todo && t.conns[c].next == k.next + 1
      && exists rep :: t.conns[c].replies == k.replies + [Written(k.next, r, rep)]
  {
    hide ReplyTo, Apply;
    var t, k := Do(s, H, Handle(r)), s.conns[c];
    assert t.conns[c].replies == k.replies + [Written(k.next, r, ReplyTo(s.rs[r].store, k.todo[k.next]))];
  }

  lemma HandleAway(s: Server, H: Hash, r: nat, c: nat)
    requires r < |s.rs| && Serving(s.rs[r].pc, c) && c < |s.conns| && s.conns[c].home == r
    requires var k := s.conns[c]; k.next < |k.todo| && Shard(H, |s.rs|, k.todo[k.next].key) != r
    ensures var t, k := Do(s, H, Handle(r)), s.conns[c];
      && SameMail(s, t) && SamePcs(s, t, r) && t.conns == s.conns[c := k.(next := k.next + 1)]
      && t.rs[r].pc
         == Sending(Shard(H, |s.rs|, k.todo[k.next].key), Request(r, c, k.next, k.todo[k.next]), s.rs[r].pc.task)
  {
    hide ReplyTo, Apply;
  }

  // ----- sending -----

  /** The queue of `x` holds one message, ready, and no other queue moved. */
  ghost predicate Delivered(s: Server, t: Server, x: nat, q: Inbox<Msg>)
  {
    && |t.rs| == |s.rs| && x < |t.rs| && t.rs[x].inbox == q
    && forall y | 0 <= y < |s.rs| && y != x :: t.rs[y].inbox == s.rs[y].inbox
  }

  lemma SendTick(s: Server, r: nat)
    requires r < |s.rs| && s.rs[r].pc.Sending? && s.rs[r].pc.to < |s.rs| && s.rs[s.rs[r].pc.to].inbox == []
    ensures var t, pc := DoTick(s, r), s.rs[r].pc;
      && Delivered(s, t, pc.to, [Slot(pc.msg, false)]) && SamePcs(s, t, r) && t.conns == s.conns
      && t.rs[r].pc == Publishing(pc.to, pc.msg, pc.task)
  {
  }

  lemma PublishTick(s: Server, r: nat, m: Msg)
    requires r < |s.rs| && s.rs[r].pc.Publishing? && s.rs[r].pc.to < |s.rs|
    requires m.from == r && s.rs[s.rs[r].pc.to].inbox == [Slot(m, false)]
    ensures var t, pc := DoTick(s, r), s.rs[r].pc;
      && Delivered(s, t, pc.to, [Slot(m, true)]) && SamePcs(s, t, r) && t.conns == s.conns
      && t.rs[r].pc == Marking(pc.to, pc.msg, pc.task)
  {
    assert Unpublished([Slot(m, false)], r) == 0;
  }

  lemma MarkTick(s: Server, r: nat)
    requires r < |s.rs| && s.rs[r].pc.Marking?
    ensures var t := DoTick(s, r);
      SameMail(s, t) && SamePcs(s, t, r) && SameConns(s, t) && t.rs[r].pc == Working(s.rs[r].pc.task)
  {
  }

  /** A message in hand travels into an empty queue. */
  lemma SendWhole(s0: Server, s: Server, H: Hash, r: nat) returns (t: Server)
    requires Reaches(s0, s, H) && r < |s.rs| && s.rs[r].pc.Sending? && s.rs[r].pc.msg.from == r
    requires s.rs[r].pc.to < |s.rs| && s.rs[s.rs[r].pc.to].inbox == []
    ensures Reaches(s0, t, H)
    ensures var pc := s.rs[r].pc;
      && Delivered(s, t, pc.to, [Slot(pc.msg, true)]) && SamePcs(s, t, r) && SameConns(s, t)
      && t.rs[r].pc == Working(pc.task)
  {
    hide DoTick, Reaches;
    SendTick(s, r);
    var u := Act(s0, s, H, Tick(r));
    PublishTick(u, r, s.rs[r].pc.msg);
    var v := Act(s0, u, H, Tick(r));
    MarkTick(v, r);
    t := Act(s0, v, H, Tick(r));
  }

  // ----- going round the loop -----

  lemma {:induction false} WakeLoop(s0: Server, s: Server, H: Hash, r: nat) returns (t: Server)
    requires Reaches(s0, s, H) && r < |s.rs| && s.rs[r].pc.Waking?
    ensures Reaches(s0, t, H) && Alone(s, t, r) && t.rs[r].pc == Polling(0)
    decreases |s.rs| - s.rs[r].pc.i
  {
    hide DoTick, Reaches;
    WakeTick(s, r);
    t := Act(s0, s, H, Tick(r));
    if t.rs[r].pc.Signalling? {
      SignalTick(t, r);
      t := Act(s0, t, H, Tick(r));
    }
    if t.rs[r].pc.Waking? {
      t := WakeLoop(s0, t, H, r);
    }
  }

  lemma {:induction false} IdleLoop(s0: Server, s: Server, H: Hash, r: nat) returns (t: Server)
    requires Reaches(s0, s, H) && r < |s.rs| && s.rs[r].inbox == []
    requires var pc := s.rs[r].pc; pc == Polling(0) || pc.Sleepy? || pc.Checking? || pc.Blocked? || pc.Woken?
    ensures Reaches(s0, t, H) && Alone(s, t, r) && t.rs[r].pc == Working(Events)
    decreases match s.rs[r].pc case Polling(_) => 4 case Sleepy => 3 case Checking => 2 case Blocked => 1 case _ => 0
  {
    hide DoTick, Reaches;
    IdleTick(s, r);
    t := Act(s0, s, H, Tick(r));
    if t.rs[r].pc != Working(Events) {
      t := IdleLoop(s0, t, H, r);
    }
  }

  /** To the point where callbacks are run. */
  lemma ToPolling(s0: Server, s: Server, H: Hash, r: nat) returns (t: Server)
    requires Reaches(s0, s, H) && r < |s.rs|
    requires var pc := s.rs[r].pc; pc.Waking? || pc.Polling? || pc.Working?
    ensures Reaches(s0, t, H) && Alone(s, t, r) && t.rs[r].pc.Polling?
  {
    hide Do, Reaches;
    t := s;
    if t.rs[r].pc.Working? && t.rs[r].pc.task.Data? {
      StopStep(t, H, r);
      t := Act(s0, t, H, Stop(r));
    }
    if t.rs[r].pc.Working? {
      StopStep(t, H, r);
      t := Act(s0, t, H, Stop(r));
    }
    if t.rs[r].pc.Waking? {
      t := WakeLoop(s0, t, H, r);
    }
  }

  // ----- callbacks -----

  lemma RequestTick(s: Server, r: nat, from: nat, c: nat, id: nat, cmd: Cmd)
    requires r < |s.rs| && s.rs[r].pc.Polling? && s.rs[r].inbox == [Slot(Request(from, c, id, cmd), true)]
    ensures var t := DoTick(s, r);
      && Delivered(s, t, r, []) && SamePcs(s, t, r) && t.conns == s.conns
      && exists rep, task :: t.rs[r].pc == Sending(from, Response(r, c, id, rep), task)
  {
    hide ReplyTo, Apply;
    var t := DoTick(s, r);
    assert t.rs[r].pc == Sending(from, Response(r, c, id, ReplyTo(s.rs[r].store, cmd)), Served(s.rs[r].pc.n + 1));
  }

  lemma ResponseTick(s: Server, r: nat, from: nat, c: nat, id: nat, rep: Reply)
    requires r < |s.rs| && s.rs[r].pc.Polling? && s.rs[r].inbox == [Slot(Response(from, c, id, rep), true)]
    requires c < |s.conns|
    ensures var t, k := DoTick(s, r), s.conns[c];
      && Delivered(s, t, r, []) && SamePcs(s, t, r) && Serving(t.rs[r].pc, c)
      && t.conns == s.conns[c := k.(waiting := false, replies := k.replies + [Written(id, from, rep)])]
  {
  }

  /** Shard `x` serves the one request in its queue. */
  lemma Serve(s0: Server, s: Server, H: Hash, x: nat, h: nat, c: nat, id: nat, cmd: Cmd) returns (t: Server, rep: Reply)
    requires Reaches(s0, s, H) && x < |s.rs| && h < |s.rs| && x != h
    requires (s.rs[x].pc.Waking? || s.rs[x].pc.Polling?) && s.rs[x].inbox == [Slot(Request(h, c, id, cmd), true)]
    requires s.rs[h].inbox == []
    ensures Reaches(s0, t, H) && SamePcs(s, t, x) && SameConns(s, t)
    ensures t.rs[x].pc.Polling? && t.rs[x].inbox == [] && t.rs[h].inbox == [Slot(Response(x, c, id, rep), true)]
    ensures forall y | 0 <= y < |s.rs| && y != x && y != h :: t.rs[y].inbox == s.rs[y].inbox
  {
    hide Do, DoTick, Reaches;
    var u := ToPolling(s0, s, H, x);
    RequestTick(u, x, h, c, id, cmd);
    TickIs(u, H, x);
    var v := Act(s0, u, H, Tick(x));
    rep := v.rs[x].pc.msg.reply;
    var w := SendWhole(s0, v, H, x);
    t := ToPolling(s0, w, H, x);
  }

  lemma TickIs(s: Server, H: Hash, r: nat)
    requires r < |s.rs|
    ensures Do(s, H, Tick(r)) == DoTick(s, r)
  {
  }

  /** The home reactor of `c` takes the one response in its queue. */
  lemma Collect(s0: Server, s: Server, H: Hash, h: nat, c: nat, x: nat, id: nat, rep: Reply) returns (t: Server)
    requires Reaches(s0, s, H) && h < |s.rs| && Serving(s.rs[h].pc, c) && c < |s.conns|
    requires s.rs[h].inbox == [Slot(Response(x, c, id, rep), true)]
    ensures Reaches(s0, t, H) && Delivered(s, t, h, []) && SamePcs(s, t, h) && Serving(t.rs[h].pc, c)
    ensures var k := s.conns[c];
      t.conns == s.conns[c := k.(waiting := false, replies := k.replies + [Written(id, x, rep)])]
  {
    hide Do, DoTick, Reaches;
    var u := ToPolling(s0, s, H, h);
    ResponseTick(u, h, x, c, id, rep);
    TickIs(u, H, h);
    t := Act(s0, u, H, Tick(h));
  }

  /** The next command of `c` is sent to its shard, whose queue is empty. */
  lemma Dispatch(s0: Server, s: Server, H: Hash, h: nat, c: nat) returns (t: Server)
    requires Reaches(s0, s, H) && h < |s.rs| && Serving(s.rs[h].pc, c) && c < |s.conns| && s.conns[c].home == h
    requires var k := s.conns[c];
      && k.next < |k.todo| && Shard(H, |s.rs|, k.todo[k.next].key) != h
      && s.rs[Shard(H, |s.rs|, k.todo[k.next].key)].inbox == []
    ensures Reaches(s0, t, H) && SamePcs(s, t, h) && t.rs[h].pc == s.rs[h].pc && |t.conns| == |s.conns|
    ensures var k := s.conns[c];
      && t.conns[c] == k.(next := k.next + 1, waiting := t.conns[c].waiting)
      && Delivered(s, t, Shard(H, |s.rs|, k.todo[k.next].key), [Slot(Request(h, c, k.next, k.todo[k.next]), true)])
  {
    hide Do, DoTick, Reaches, Shard;
    HandleAway(s, H, h, c);
    var u := Act(s0, s, H, Handle(h));
    t := SendWhole(s0, u, H, h);
  }

  // ----- the run -----

  /** The first `k` commands of `c` are handled and answered, nothing is on its way, and the others are idle. */
  ghost predicate Ready(s: Server, c: nat, h: nat, todo: seq<Cmd>, k: nat)
  {
    && c < |s.conns| && h < |s.rs| && s.conns[c].home == h && s.conns[c].todo == todo
    && s.conns[c].next == k && |s.conns[c].replies| == k && Serving(s.rs[h].pc, c)
    && (forall y | 0 <= y < |s.rs| :: s.rs[y].inbox == [])
    && (forall y | 0 <= y < |s.rs| && y != h :: s.rs[y].pc.Waking? || s.rs[y].pc.Polling?)
  }

  lemma Begin(s: Server, H: Hash, c: nat) returns (t: Server)
    requires Start(s) && c < |s.conns|
    ensures Reaches(s, t, H) && |t.rs| == |s.rs| && Ready(t, c, s.conns[c].home, s.conns[c].todo, 0)
  {
    hide Do, DoTick, Reaches;
    var h := s.conns[c].home;
    ReachSelf(s, H);
    var u := WakeLoop(s, s, H, h);
    var v := IdleLoop(s, u, H, h);
    OpenStep(v, H, h, c);
    t := Act(s, v, H, Open(h, c));
  }

  lemma Advance(s0: Server, s: Server, H: Hash, c: nat, h: nat, todo: seq<Cmd>, k: nat) returns (t: Server)
    requires Reaches(s0, s, H) && Ready(s, c, h, todo, k) && k < |todo|
    ensures Reaches(s0, t, H) && |t.rs| == |s.rs| && Ready(t, c, h, todo, k + 1)
  {
    hide Do, DoTick, Reaches, Shard;
    var x := Shard(H, |s.rs|, todo[k].key);
    if x == h {
      HandleHere(s, H, h, c);
      t := Act(s0, s, H, Handle(h));
    } else {
      var u := Dispatch(s0, s, H, h, c);
      var v, rep := Serve(s0, u, H, x, h, c, k, todo[k]);
      t := Collect(s0, v, H, h, c, x, k, rep);
    }
  }

  lemma {:induction false} Arrive(s0: Server, s: Server, H: Hash, c: nat, h: nat, todo: seq<Cmd>, j: nat, k: nat)
    returns (t: Server)
    requires Reaches(s0, s, H) && Ready(s, c, h, todo, j) && j <= k <= |todo|
    ensures Reaches(s0, t, H) && |t.rs| == |s.rs| && Ready(t, c, h, todo, k)
    decreases k - j
  {
    hide Ready, Reaches;
    if j == k {
      t := s;
    } else {
      var u := Advance(s0, s, H, c, h, todo, j);
      t := Arrive(s0, u, H, c, h, todo, j + 1, k);
    }
  }

  /** Every list of commands can be answered to the end: from every start some run takes each command of the connection
      through its shard and back. */
  lemma Answerable(s: Server, H: Hash, c: nat) returns (run: seq<Action>)
    requires Start(s) && c < |s.conns|
    ensures var t, n := Exec(s, H, run), |s.conns[c].todo|;
      && c < |t.conns| && t.conns[c].next == n && |t.conns[c].replies| == n
      && forall y | 0 <= y < |t.rs| :: t.rs[y].inbox == []
  {
    hide Do;
    var todo, h := s.conns[c].todo, s.conns[c].home;
    var u := Begin(s, H, c);
    var t := Arrive(s, u, H, c, h, todo, 0, |todo|);
    run :| Exec(s, H, run) == t;
  }

  /** Command `k` goes to another shard and command `k + 1` elsewhere: the second is answered, the first is not yet. */
  lemma Overtakes(s0: Server, s: Server, H: Hash, c: nat, h: nat, todo: seq<Cmd>, k: nat) returns (t: Server)
    requires Reaches(s0, s, H) && Ready(s, c, h, todo, k) && k + 1 < |todo|
    requires var a, b := Shard(H, |s.rs|, todo[k].key), Shard(H, |s.rs|, todo[k + 1].key); a != h && b != a
    ensures Reaches(s0, t, H) && c < |t.conns| && |t.conns[c].replies| == k + 1 && t.conns[c].replies[k].id == k + 1
  {
    hide Do, DoTick, Reaches, Shard;
    var b := Shard(H, |s.rs|, todo[k + 1].key);
    var u := Dispatch(s0, s, H, h, c);
    if b == h {
      HandleHere(u, H, h, c);
      t := Act(s0, u, H, Handle(h));
    } else {
      var v := Dispatch(s0, u, H, h, c);
      var w, rep := Serve(s0, v, H, b, h, c, k + 1, todo[k + 1]);
      t := Collect(s0, w, H, h, c, b, k + 1, rep);
    }
  }

  /** A list that breaks the condition breaks it between neighbours. */
  lemma Neighbours(todo: seq<Cmd>, home: nat, H: Hash, n: nat) returns (k: nat)
    requires n > 0 && !OneTarget(todo, home, H, n)
    ensures k + 1 < |todo| && Shard(H, n, todo[k].key) != home
    ensures Shard(H, n, todo[k + 1].key) != Shard(H, n, todo[k].key)
  {
    hide Shard;
    var i, j :| 0 <= i < j < |todo| && Shard(H, n, todo[i].key) != home
                && Shard(H, n, todo[j].key) != Shard(H, n, todo[i].key);
    k := i;
    while Shard(H, n, todo[k + 1].key) == Shard(H, n, todo[i].key)
      invariant i <= k < j && Shard(H, n, todo[k].key) == Shard(H, n, todo[i].key)
      decreases j - k
    {
      k := k + 1;
    }
  }

  /** From every start with such a list of commands some run answers a command before the one sent ahead of it. */
  lemma Overtaken(s: Server, H: Hash, c: nat) returns (run: seq<Action>, k: nat)
    requires Start(s) && c < |s.conns| && !OneTarget(s.conns[c].todo, s.conns[c].home, H, |s.rs|)
    ensures var t := Exec(s, H, run);
      && c < |t.conns| && |t.conns[c].replies| == k + 1 && t.conns[c].replies[k].id == k + 1
      && !Numbered(t.conns[c].replies)
  {
    hide Do, Ready, Shard, OneTarget;
    var todo, h := s.conns[c].todo, s.conns[c].home;
    k := Neighbours(todo, h, H, |s.rs|);
    var u := Begin(s, H, c);
    var v := Arrive(s, u, H, c, h, todo, 0, k);
    var t := Overtakes(s, v, H, c, h, todo, k);
    run :| Exec(s, H, run) == t;
  }

  ghost predicate Answered(s: Server, H: Hash, run: seq<Action>, c: nat)
  {
    c < |Exec(s, H, run).conns| && Numbered(Exec(s, H, run).conns[c].replies)
  }

  /** Replies come in request order in all runs if and only if behind the first remote command all are for its shard. */
  lemma OrderExactly(s: Server, H: Hash, c: nat)
    requires Start(s) && c < |s.conns|
    ensures (forall run: seq<Action> :: Answered(s, H, run, c))
            <==> OneTarget(s.conns[c].todo, s.conns[c].home, H, |s.rs|)
  {
    hide OneTarget, Exec, Numbered;
    if OneTarget(s.conns[c].todo, s.conns[c].home, H, |s.rs|) {
      forall run: seq<Action>
        ensures Answered(s, H, run, c)
      {
        OrderedRun(s, H, run, c);
      }
    } else {
      var run, k := Overtaken(s, H, c);
      assert !Answered(s, H, run, c);
    }
  }

  /** Two shards, one connection of shard 0, a command for shard 1 and then one for shard 0: the second is answered and
      the first is not. */
  lemma PairOvertaken(H: Hash, a: Bytes, b: Bytes) returns (run: seq<Action>)
    requires H(a) % 2 == 1 && H(b) % 2 == 0
    ensures var idle := Reactor(Waking(0), {}, true, 0, [], map[]);
      var t := Exec(Server([idle, idle], [Conn(0, [Get(a), Get(b)], 0, false, [])], []), H, run);
      |t.conns| == 1 && |t.conns[0].replies| == 1 && t.conns[0].replies[0].id == 1
  {
    hide Do, Ready;
    var idle := Reactor(Waking(0), {}, true, 0, [], map[]);
    var todo := [Get(a), Get(b)];
    var s := Server([idle, idle], [Conn(0, todo, 0, false, [])], []);
    var u := Begin(s, H, 0);
    var t := Overtakes(s, u, H, 0, 0, todo, 0);
    run :| Exec(s, H, run) == t;
    ConnsStay(s, H, run);
  }

  lemma ConnsStay(s: Server, H: Hash, run: seq<Action>)
    requires Start(s) && s.conns != []
    ensures |Exec(s, H, run).conns| == |s.conns|
  {
    OrderedRun(s, H, run, 0);
  }
}
