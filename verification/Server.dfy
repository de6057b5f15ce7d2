/** The guarantees of the whole server, for every interleaving: nobody sleeps through a message, every command is
    answered once, in order per shard, from one serial history. */
module Servers {
  import opened Bits
  import opened Inboxes
  import opened Commands
  import opened Reactors
  import opened Wakeup
  import opened Dispatch
  import opened Slots
  import opened Seqs

  // ----- the waiting flag -----

  predicate RequestOut(pc: Pc)
  {
    (pc.Sending? || pc.Publishing? || pc.Marking?) && pc.msg.Request?
  }

  /** The last command handled on a connection that went to another shard. */
  function LastAway(k: Conn, H: Hash, n: nat, i: nat): Option<nat>
    requires i <= |k.todo| && n > 0
  {
    if i == 0 then None
    else if Shard(H, n, k.todo[i - 1].key) != k.home then Some(i - 1)
    else LastAway(k, H, n, i - 1)
  }

  ghost predicate Replied(w: seq<Written>, id: nat)
  {
    exists i :: 0 <= i < |w| && w[i].id == id
  }

  /** The last command sent away has no reply yet. */
  ghost predicate Owed(s: Server, H: Hash, c: nat)
    requires |s.rs| > 0 && c < |s.conns| && s.conns[c].next <= |s.conns[c].todo|
  {
    var k := s.conns[c];
    var last := LastAway(k, H, |s.rs|, k.next);
    last.Some? && !Replied(k.replies, last.value)
  }

  ghost predicate Waits(s: Server, H: Hash)
  {
    && |s.rs| > 0
    && (forall c | 0 <= c < |s.conns| ::
          && s.conns[c].next <= |s.conns[c].todo|
          && (forall i | 0 <= i < |s.conns[c].replies| :: s.conns[c].replies[i].id < s.conns[c].next)
          && (s.conns[c].waiting ==> Owed(s, H, c)))
    && (forall r | 0 <= r < |s.rs| && RequestOut(s.rs[r].pc) ::
          var c := s.rs[r].pc.msg.conn;
          c < |s.conns| && s.conns[c].home == r && Owed(s, H, c))
  }

  lemma LastAwayBelow(k: Conn, H: Hash, n: nat, i: nat)
    requires i <= |k.todo| && n > 0
    ensures LastAway(k, H, n, i).Some? ==> LastAway(k, H, n, i).value < i
  {
  }

  lemma LastAwaySame(k: Conn, j: Conn, H: Hash, n: nat, i: nat)
    requires i <= |k.todo| && n > 0 && j.todo == k.todo && j.home == k.home
    ensures LastAway(j, H, n, i) == LastAway(k, H, n, i)
  {
  }

  /** Nothing that `Waits` looks at got worse. */
  ghost predicate SameWaits(s: Server, t: Server)
  {
    && |t.rs| == |s.rs| && |t.conns| == |s.conns|
    && (forall c | 0 <= c < |s.conns| :: t.conns[c] == s.conns[c].(waiting := t.conns[c].waiting))
    && (forall c | 0 <= c < |s.conns| && t.conns[c].waiting && !s.conns[c].waiting ::
          exists r :: 0 <= r < |s.rs| && RequestOut(s.rs[r].pc) && s.rs[r].pc.msg.conn == c)
    && (forall r | 0 <= r < |s.rs| && RequestOut(t.rs[r].pc)
         :: RequestOut(s.rs[r].pc) && t.rs[r].pc.msg == s.rs[r].pc.msg)
  }

  lemma SameWaitsKeeps(s: Server, t: Server, H: Hash)
    requires SameWaits(s, t) && Waits(s, H)
    ensures Waits(t, H)
  {
    forall c | 0 <= c < |t.conns| && Owed(s, H, c)
      ensures Owed(t, H, c)
    {
      LastAwaySame(s.conns[c], t.conns[c], H, |s.rs|, s.conns[c].next);
    }
  }

  lemma TickSameWaits(s: Server, r: nat)
    requires r < |s.rs| && !s.rs[r].pc.Polling?
    ensures SameWaits(s, DoTick(s, r))
  {
    hide Unpublished, After;
    match s.rs[r].pc
    case Marking(_, m, _) => MarkSameWaits(s, r);
    case Waking(_) => WakeSameWaits(s, r);
    case _ =>
  }

  lemma MarkSameWaits(s: Server, r: nat)
    requires r < |s.rs| && s.rs[r].pc.Marking?
    ensures SameWaits(s, Mark(s, r))
  {
  }

  lemma WakeSameWaits(s: Server, r: nat)
    requires r < |s.rs| && s.rs[r].pc.Waking?
    ensures SameWaits(s, Wake(s, r))
  {
  }

  lemma LoopSameWaits(s: Server, H: Hash, a: Action)
    requires a.Drain? || a.Open? || a.Stop?
    ensures SameWaits(s, Do(s, H, a))
  {
  }

  lemma PollWaits(s: Server, H: Hash, r: nat)
    requires Waits(s, H) && Flows(s, H) && r < |s.rs| && s.rs[r].pc.Polling?
    ensures Waits(Poll(s, r), H)
  {
    var t := Poll(s, r);
    if HasMail(s, r) && s.rs[r].inbox[0].item.Response? {
      hide ReplyTo, Apply, Flow, Shard, LastAway;
      MailFront(s, r);
      var m := Mail(s.rs[r])[0];
      assert Routed(s, H, m, m.from, r);
      forall c | 0 <= c < |t.conns| && Owed(s, H, c)
        ensures c != m.conn ==> Owed(t, H, c)
      {
      }
    } else {
      hide ReplyTo, Apply, Flow, Shard, LastAway;
      assert SameWaits(s, t);
      SameWaitsKeeps(s, t, H);
    }
  }

  lemma IssueWaits(s: Server, H: Hash, r: nat, c: nat, task: Task)
    requires Waits(s, H) && r < |s.rs| && s.rs[r].pc == Working(task) && c < |s.conns|
    ensures Waits(Issue(s, H, r, c, task), H)
  {
    hide ReplyTo, Apply, Shard;
    var k, t := s.conns[c], Issue(s, H, r, c, task);
    if Issues(s, r, c) {
      LastAwayBelow(k, H, |s.rs|, k.next);
      LastAwaySame(k, t.conns[c], H, |s.rs|, k.next);
      forall d | 0 <= d < |t.conns| && d != c && Owed(s, H, d)
        ensures Owed(t, H, d)
      {
      }
    }
  }

  // ----- all invariants together -----

  ghost predicate Inv(s: Server, H: Hash)
  {
    Alert(s.rs) && Flows(s, H) && Sharded(s, H) && Waits(s, H) && Owned(s)
  }

  lemma StartInv(s: Server, H: Hash)
    requires Start(s)
    ensures Inv(s, H)
  {
    StartAlert(s);
    assert forall r | 0 <= r < |s.rs| :: Mail(s.rs[r]) == [];
  }

  lemma TickData(s: Server, H: Hash, r: nat)
    requires Flows(s, H) && Sharded(s, H) && r < |s.rs|
    ensures Flows(DoTick(s, r), H) && Sharded(DoTick(s, r), H)
  {
    hide Flows, Sharded, SameData, Mail, Wake, Signal, Publish, Mark, Send, Poll;
    match s.rs[r].pc
    case Polling(_) =>
      if HasMail(s, r) {
        Dispatch.PollKeeps(s, H, r);
      } else {
        IdlePoll(s, r);
        SameDataKeeps(s, Poll(s, r), H);
      }
    case Sending(_, _, _) => Dispatch.SendKeeps(s, H, r);
    case _ =>
      PlainTick(s, r);
      SameDataKeeps(s, DoTick(s, r), H);
  }

  /** Every action keeps the two-queue balances and the agreement with the serial map. */
  lemma DataKeeps(s: Server, H: Hash, a: Action)
    requires Flows(s, H) && Sharded(s, H)
    ensures Flows(Do(s, H, a), H) && Sharded(Do(s, H, a), H)
  {
    hide Flows, Sharded, SameData, DoTick, Issue;
    if a.r < |s.rs| {
      match a
      case Tick(r) => TickData(s, H, r);
      case Handle(r) =>
        if Do(s, H, a) != s {
          var task := s.rs[r].pc.task;
          Dispatch.IssueKeeps(s, H, r, task.conn, task);
        }
      case _ =>
        LoopSame(s, H, a);
        SameDataKeeps(s, Do(s, H, a), H);
    }
  }

  lemma TickWaits(s: Server, H: Hash, r: nat)
    requires Waits(s, H) && Flows(s, H) && r < |s.rs|
    ensures Waits(DoTick(s, r), H)
  {
    hide Flows, Waits, SameWaits;
    if s.rs[r].pc.Polling? {
      PollWaits(s, H, r);
    } else {
      TickSameWaits(s, r);
      SameWaitsKeeps(s, DoTick(s, r), H);
    }
  }

  lemma WaitsKeep(s: Server, H: Hash, a: Action)
    requires Waits(s, H) && Flows(s, H)
    ensures Waits(Do(s, H, a), H)
  {
    hide Flows, Waits, SameWaits, DoTick, Issue;
    if a.r < |s.rs| {
      match a
      case Tick(r) => TickWaits(s, H, r);
      case Handle(r) =>
        if Do(s, H, a) != s {
          var task := s.rs[r].pc.task;
          IssueWaits(s, H, r, task.conn, task);
        }
      case _ =>
        LoopSameWaits(s, H, a);
        SameWaitsKeeps(s, Do(s, H, a), H);
    }
  }

  lemma FirstRouted(s: Server, H: Hash, r: nat)
    requires Routes(s, H) && r < |s.rs| && s.rs[r].inbox != []
    ensures s.rs[r].inbox[0].item.from < |s.rs|
  {
    assert Mail(s.rs[r])[0] == s.rs[r].inbox[0].item;
    assert Routed(s, H, Mail(s.rs[r])[0], Mail(s.rs[r])[0].from, r);
  }

  lemma TickAlert(s: Server, H: Hash, r: nat)
    requires Alert(s.rs) && Routes(s, H) && r < |s.rs|
    ensures Alert(DoTick(s, r).rs)
  {
    hide Alert, Routes, Wake, Signal, Publish, Mark, Send, Poll;
    match s.rs[r].pc
    case Polling(_) =>
      if s.rs[r].inbox != [] {
        FirstRouted(s, H, r);
      }
      Wakeup.PollKeeps(s, r);
    case Sending(_, _, _) => Wakeup.SendKeeps(s, r);
    case Waking(_) => WakeKeeps(s, r);
    case Signalling(_) => SignalKeeps(s, r);
    case Publishing(_, _, _) => PublishKeeps(s, r);
    case Marking(_, _, _) => MarkKeeps(s, r);
    case Working(_) =>
    case _ => SleepKeeps(s, r);
  }

  lemma AlertKeeps(s: Server, H: Hash, a: Action)
    requires Alert(s.rs) && Routes(s, H)
    ensures Alert(Do(s, H, a).rs)
  {
    hide Alert, Routes, DoTick, Issue;
    if a.r < |s.rs| {
      match a
      case Tick(r) => TickAlert(s, H, r);
      case Handle(r) => Wakeup.IssueKeeps(s, H, r);
      case _ => LoopKeeps(s, H, a);
    }
  }

  lemma DoKeeps(s: Server, H: Hash, a: Action)
    requires Inv(s, H)
    ensures Inv(Do(s, H, a), H)
  {
    hide Alert, Sharded, Waits, Owned, Flow, Routes, Do;
    DataKeeps(s, H, a);
    WaitsKeep(s, H, a);
    AlertKeeps(s, H, a);
    OwnedKept(s, H, a);
  }

  /** The invariants hold after every list of actions from every start. */
  lemma {:induction false} ExecInv(s: Server, H: Hash, run: seq<Action>)
    requires Start(s)
    ensures Inv(Exec(s, H, run), H)
    decreases |run|
  {
    hide Inv;
    if run == [] {
      StartInv(s, H);
    } else {
      ExecInv(s, H, run[..|run| - 1]);
      DoKeeps(Exec(s, H, run[..|run| - 1]), H, run[|run| - 1]);
    }
  }

  // ----- the main results -----

  /** No lost wakeup: a reactor blocked on a non-empty queue has its eventfd signalled, or some reactor that is not
      itself blocked still owes it the signal. And no reactor goes to sleep while owing one. */
  lemma NoLostWakeup(s: Server, H: Hash, run: seq<Action>)
    requires Start(s)
    ensures var t := Exec(s, H, run);
      && (forall r | 0 <= r < |t.rs| && t.rs[r].pc.Blocked? && t.rs[r].inbox != [] ::
            t.rs[r].eventfd > 0 || exists x :: 0 <= x < |t.rs| && !t.rs[x].pc.Blocked? && Owes(t.rs[x], r))
      && (forall r | 0 <= r < |t.rs| && t.rs[r].pc.Blocked? :: t.rs[r].soft == {})
  {
    ExecInv(s, H, run);
    hide Flows, Sharded, Waits, Exec;
    var t := Exec(s, H, run);
    forall r | 0 <= r < |t.rs| && t.rs[r].pc.Blocked? && t.rs[r].inbox != []
      ensures t.rs[r].eventfd > 0 || exists x :: 0 <= x < |t.rs| && !t.rs[x].pc.Blocked? && Owes(t.rs[x], r)
    {
      assert Attended(t.rs, r);
      if t.rs[r].eventfd == 0 {
        var x :| 0 <= x < |t.rs| && Owes(t.rs[x], r);
        assert Tidy(t.rs[x], |t.rs|);
      }
    }
  }

  /** The steps that a run takes on the queue of `x`. */
  function QueueTrace(s: Server, H: Hash, run: seq<Action>, x: nat): seq<Label<Msg>>
  {
    if run == [] then []
    else
      var front := run[..|run| - 1];
      QueueTrace(s, H, front, x)
      + if x < |Exec(s, H, front).rs| then [LabelOn(Exec(s, H, front), run[|run| - 1], x)] else []
  }

  /** In every run each reactor's queue is the FIFO inbox that `Mpmc` provides: messages are taken in the order in which
      their senders claimed places, none lost or doubled. A reactor about to publish owns exactly one unpublished place,
      which holds the message it has in hand; nobody else owns any. */
  lemma {:induction false} QueuesAreFifo(s: Server, H: Hash, run: seq<Action>, x: nat)
    requires Start(s) && x < |s.rs|
    ensures var t, ls := Exec(s, H, run), QueueTrace(s, H, run, x);
      && Owned(t) && x < |t.rs| && AllLegal([], ls) && AfterAll([], ls) == t.rs[x].inbox
      && Claimed(ls) == Taken(ls) + Mail(t.rs[x])
    decreases |run|
  {
    ExecInv(s, H, run);
    hide Inv, Alert, Flows, Sharded, Waits, Owned, Do, LabelOn;
    if run != [] {
      var front, a := run[..|run| - 1], run[|run| - 1];
      QueuesAreFifo(s, H, front, x);
      ExecInv(s, H, front);
      InvParts(Exec(s, H, front), H);
      QueueSteps(Exec(s, H, front), H, a, x);
      Extend([], QueueTrace(s, H, front, x), LabelOn(Exec(s, H, front), a, x));
    }
    InvParts(Exec(s, H, run), H);
    FirstInFirstOut(QueueTrace(s, H, run, x));
  }

  lemma InvParts(s: Server, H: Hash)
    requires Inv(s, H)
    ensures Routes(s, H) && Owned(s)
  {
  }

  function OrderIds(q: seq<Order>): seq<nat>
  {
    if q == [] then [] else [q[0].id] + OrderIds(q[1..])
  }

  function AnswerIds(q: seq<Answer>): seq<nat>
  {
    if q == [] then [] else [q[0].id] + AnswerIds(q[1..])
  }

  lemma {:induction false} OrderIdsJoin(a: seq<Order>, b: seq<Order>)
    ensures OrderIds(a + b) == OrderIds(a) + OrderIds(b)
  {
    if a == [] {
      assert a + b == b;
    } else {
      TailJoin(a, b);
      OrderIdsJoin(a[1..], b);
    }
  }

  lemma {:induction false} AnswerIdsJoin(a: seq<Answer>, b: seq<Answer>)
    ensures AnswerIds(a + b) == AnswerIds(a) + AnswerIds(b)
  {
    if a == [] {
      assert a + b == b;
    } else {
      TailJoin(a, b);
      AnswerIdsJoin(a[1..], b);
    }
  }

  /** What was executed is what was answered. */
  lemma {:induction false} ExecutedAnswered(hist: seq<Done>, c: nat, t: nat)
    ensures OrderIds(Executed(hist, c, t)) == AnswerIds(Answered(hist, c, t))
  {
    if hist != [] {
      var front, d := hist[..|hist| - 1], hist[|hist| - 1];
      ExecutedAnswered(front, c, t);
      var o, w := if d.conn == c && d.shard == t then [Order(d.id, d.cmd)] else [],
                  if d.conn == c && d.shard == t then [Answer(d.id, d.reply)] else [];
      OrderIdsJoin(Executed(front, c, t), o);
      AnswerIdsJoin(Answered(front, c, t), w);
      assert o != [] ==> OrderIds(o) == [d.id] == AnswerIds(w);
    }
  }

  /** Per shard, in order, exactly once: the commands a connection sent to shard `x` are, in issue order, those with a
      reply in its send buffer, then those whose response is queued or in hand, then those whose request is. */
  lemma RepliesInOrder(s: Server, H: Hash, run: seq<Action>, c: nat, x: nat)
    requires Start(s) && c < |Exec(s, H, run).conns| && x < |Exec(s, H, run).rs|
    ensures Inv(Exec(s, H, run), H)
    ensures var t := Exec(s, H, run);
      var k := t.conns[c];
      OrderIds(IssuedTo(k.todo, k.next, H, |t.rs|, x))
      == AnswerIds(RepliesOf(k.replies, x)) + AnswerIds(Responses(Mail(t.rs[k.home]), c, x))
         + AnswerIds(ResponseInHand(t.rs[x].pc, c))
         + OrderIds(Requests(Mail(t.rs[x]), c)) + OrderIds(RequestInHand(t.rs[k.home].pc, c, x))
  {
    ExecInv(s, H, run);
    hide Alert, Sharded, Waits, Exec, IssuedTo, Executed, Answered, RepliesOf, Requests, Responses, Mail,
         ResponseInHand, RequestInHand, OrderIds, AnswerIds;
    var t := Exec(s, H, run);
    var k := t.conns[c];
    assert Flow(t, H, c, x);
    ExecutedAnswered(t.hist, c, x);
    var e, q, h := Executed(t.hist, c, x), Requests(Mail(t.rs[x]), c), RequestInHand(t.rs[k.home].pc, c, x);
    OrderIdsJoin(e + q, h);
    OrderIdsJoin(e, q);
    var w, p, g := RepliesOf(k.replies, x), Responses(Mail(t.rs[k.home]), c, x), ResponseInHand(t.rs[x].pc, c);
    AnswerIdsJoin(w + p, g);
    AnswerIdsJoin(w, p);
  }

  /** The shards refine one sequential map: the history is a run of a single map, its replies are that run's replies,
      each key lives only in the shard of its hash, bound there as in the single map, and the replies written to a
      connection for a shard are the first that the history has for it. */
  lemma ShardsRefineOneMap(s: Server, H: Hash, run: seq<Action>)
    requires Start(s)
    ensures var t := Exec(s, H, run);
      && |t.rs| > 0
      && (forall i | 0 <= i < |t.hist| :: t.hist[i].reply == ReplyTo(Serial(t.hist[..i]), t.hist[i].cmd))
      && (forall i | 0 <= i < |t.hist| :: t.hist[i].shard == H(t.hist[i].cmd.key) % |t.rs|)
      && (forall r, k | 0 <= r < |t.rs| && k in t.rs[r].store :: H(k) % |t.rs| == r)
      && (forall k: Bytes :: Agrees(t, H, k))
      && (forall k: Bytes :: k in Serial(t.hist) ==>
            k in t.rs[H(k) % |t.rs|].store && t.rs[H(k) % |t.rs|].store[k] == Serial(t.hist)[k])
      && (forall c, x | 0 <= c < |t.conns| && 0 <= x < |t.rs|
           :: RepliesOf(t.conns[c].replies, x) <= Answered(t.hist, c, x))
  {
    ExecInv(s, H, run);
    var t := Exec(s, H, run);
    Located(t, H);
    WrittenAll(t, H);
    hide *;
  }

  /** Where keys are, in terms of the hash. */
  lemma Located(t: Server, H: Hash)
    requires Sharded(t, H)
    ensures |t.rs| > 0
    ensures forall i | 0 <= i < |t.hist| :: t.hist[i].reply == ReplyTo(Serial(t.hist[..i]), t.hist[i].cmd)
    ensures forall i | 0 <= i < |t.hist| :: t.hist[i].shard == H(t.hist[i].cmd.key) % |t.rs|
    ensures forall r, k | 0 <= r < |t.rs| && k in t.rs[r].store :: H(k) % |t.rs| == r
    ensures forall k: Bytes :: Agrees(t, H, k)
    ensures forall k: Bytes :: k in Serial(t.hist) ==>
              k in t.rs[H(k) % |t.rs|].store && t.rs[H(k) % |t.rs|].store[k] == Serial(t.hist)[k]
  {
    hide Serial, ReplyTo;
    forall r, k | 0 <= r < |t.rs| && k in t.rs[r].store
      ensures H(k) % |t.rs| == r
    {
      assert Shard(H, |t.rs|, k) == r;
    }
    forall k: Bytes
      ensures k in Serial(t.hist) ==>
                k in t.rs[H(k) % |t.rs|].store && t.rs[H(k) % |t.rs|].store[k] == Serial(t.hist)[k]
    {
      assert Agrees(t, H, k);
    }
  }

  lemma WrittenAll(t: Server, H: Hash)
    requires Flows(t, H)
    ensures forall c, x | 0 <= c < |t.conns| && 0 <= x < |t.rs| ::
              RepliesOf(t.conns[c].replies, x) <= Answered(t.hist, c, x)
  {
    hide Flow, RepliesOf, Answered, Routed;
    forall c, x | 0 <= c < |t.conns| && 0 <= x < |t.rs|
      ensures RepliesOf(t.conns[c].replies, x) <= Answered(t.hist, c, x)
    {
      assert Flow(t, H, c, x);
      WrittenFirst(t, H, c, x);
    }
  }

  lemma WrittenFirst(t: Server, H: Hash, c: nat, x: nat)
    requires Homes(t) && c < |t.conns| && x < |t.rs| && Flow(t, H, c, x)
    ensures RepliesOf(t.conns[c].replies, x) <= Answered(t.hist, c, x)
  {
    hide IssuedTo, Executed, Answered, RepliesOf, Requests, Responses, Mail;
  }

  /** The server is asleep: every reactor is blocked, none is signalled. */
  ghost predicate Asleep(s: Server)
  {
    forall r | 0 <= r < |s.rs| :: s.rs[r].pc.Blocked? && s.rs[r].eventfd == 0
  }

  lemma AsleepEmpty(s: Server)
    requires Alert(s.rs) && Asleep(s)
    ensures forall r | 0 <= r < |s.rs| :: s.rs[r].inbox == []
  {
    forall r | 0 <= r < |s.rs|
      ensures s.rs[r].inbox == []
    {
      assert Attended(s.rs, r);
      forall x | 0 <= x < |s.rs|
        ensures !Owes(s.rs[x], r)
      {
        assert Tidy(s.rs[x], |s.rs|);
      }
    }
  }

  lemma {:induction false} LastAwayIssued(k: Conn, H: Hash, n: nat, i: nat, x: nat)
    requires i <= |k.todo| && n > 0 && LastAway(k, H, n, i).Some?
    requires x == Shard(H, n, k.todo[LastAwayAt(k, H, n, i)].key)
    ensures LastAwayAt(k, H, n, i) in OrderIds(IssuedTo(k.todo, i, H, n, x))
  {
    var j := i - 1;
    OrderIdsJoin(IssuedTo(k.todo, j, H, n, x), if Shard(H, n, k.todo[j].key) == x then [Order(j, k.todo[j])] else []);
    if Shard(H, n, k.todo[j].key) == k.home {
      LastAwayIssued(k, H, n, j, x);
    } else {
      assert OrderIds([Order(j, k.todo[j])]) == [j];
    }
  }

  function LastAwayAt(k: Conn, H: Hash, n: nat, i: nat): (r: nat)
    requires i <= |k.todo| && n > 0 && LastAway(k, H, n, i).Some?
    ensures r < i
  {
    LastAwayBelow(k, H, n, i);
    LastAway(k, H, n, i).value
  }

  lemma {:induction false} ReplyListed(w: seq<Written>, x: nat, id: nat)
    requires id in AnswerIds(RepliesOf(w, x))
    ensures Replied(w, id)
  {
    var n := |w| - 1;
    var tail := if w[n].shard == x then [Answer(w[n].id, w[n].reply)] else [];
    AnswerIdsJoin(RepliesOf(w[..n], x), tail);
    assert tail != [] ==> AnswerIds(tail) == [w[n].id];
    if id in AnswerIds(RepliesOf(w[..n], x)) {
      ReplyListed(w[..n], x, id);
      var i :| 0 <= i < n && w[..n][i].id == id;
      assert w[i].id == id;
    }
  }

  lemma AsleepFlow(t: Server, H: Hash, c: nat, x: nat)
    requires Alert(t.rs) && Flows(t, H) && Asleep(t) && c < |t.conns| && x < |t.rs|
    ensures var k := t.conns[c];
      && OrderIds(IssuedTo(k.todo, k.next, H, |t.rs|, x)) == AnswerIds(RepliesOf(k.replies, x))
      && RepliesOf(k.replies, x) == Answered(t.hist, c, x)
      && IssuedTo(k.todo, k.next, H, |t.rs|, x) == Executed(t.hist, c, x)
  {
    AsleepEmpty(t);
    var h := t.conns[c].home;
    assert t.rs[x].pc.Blocked? && t.rs[h].pc.Blocked?;
    hide Alert, IssuedTo, Executed, Answered, RepliesOf, OrderIds, AnswerIds, Shard, Routed;
    assert Flow(t, H, c, x);
    assert Mail(t.rs[x]) == [] && Mail(t.rs[h]) == [];
    assert IssuedTo(t.conns[c].todo, t.conns[c].next, H, |t.rs|, x) == Executed(t.hist, c, x);
    assert RepliesOf(t.conns[c].replies, x) == Answered(t.hist, c, x);
    ExecutedAnswered(t.hist, c, x);
  }

  lemma AsleepWaits(t: Server, H: Hash, c: nat)
    requires Inv(t, H) && Asleep(t) && c < |t.conns|
    ensures !t.conns[c].waiting
  {
    hide Alert, Flows, Sharded, LastAway, Replied, Shard;
    var k := t.conns[c];
    if k.waiting {
      var id := LastAwayAt(k, H, |t.rs|, k.next);
      var x := Shard(H, |t.rs|, k.todo[id].key);
      LastAwayIssued(k, H, |t.rs|, k.next, x);
      AsleepFlow(t, H, c, x);
      ReplyListed(k.replies, x, id);
    }
  }

  /** When the whole server sleeps, every command handled has been answered: on every connection the replies of each
      shard are exactly those of the commands sent to it, in order, and none waits for one. */
  lemma AsleepMeansAnswered(s: Server, H: Hash, run: seq<Action>, c: nat)
    requires Start(s) && Asleep(Exec(s, H, run)) && c < |Exec(s, H, run).conns|
    ensures Inv(Exec(s, H, run), H)
    ensures var t := Exec(s, H, run);
      var k := t.conns[c];
      && !k.waiting
      && forall x | 0 <= x < |t.rs| ::
           && OrderIds(IssuedTo(k.todo, k.next, H, |t.rs|, x)) == AnswerIds(RepliesOf(k.replies, x))
           && RepliesOf(k.replies, x) == Answered(t.hist, c, x)
           && IssuedTo(k.todo, k.next, H, |t.rs|, x) == Executed(t.hist, c, x)
  {
    ExecInv(s, H, run);
    var t := Exec(s, H, run);
    AsleepWaits(t, H, c);
    hide Exec, Alert, Flow, Sharded, Waits, IssuedTo, Executed, Answered, RepliesOf, OrderIds, AnswerIds, Asleep;
    forall x | 0 <= x < |t.rs|
      ensures OrderIds(IssuedTo(t.conns[c].todo, t.conns[c].next, H, |t.rs|, x))
              == AnswerIds(RepliesOf(t.conns[c].replies, x))
      ensures RepliesOf(t.conns[c].replies, x) == Answered(t.hist, c, x)
      ensures IssuedTo(t.conns[c].todo, t.conns[c].next, H, |t.rs|, x) == Executed(t.hist, c, x)
    {
      AsleepFlow(t, H, c, x);
    }
  }
}
