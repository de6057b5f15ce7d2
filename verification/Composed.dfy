/** The server with its queues spelled out: the reactors of `Reactors`, each with a queue of `Mpmc`, stepped one atomic
    access at a time. It is shown to be the server of `Reactors`, so what is proved of every run there holds here. */
module Composed {
  import opened Bits
  import opened Inboxes
  import opened Commands
  import opened Reactors
  import opened Wakeup
  import opened Dispatch
  import opened Slots
  import opened Servers
  import Order
  import Mpmc
  import Dequeues
  import Threads

  const SIZE: nat := 8192

  /** `s` is the server without its queues: its inboxes stay empty. `got` is the message a reactor has dequeued and not
      yet run, `loaded` the first of the two positions that mpmcq_count loads. */
  datatype Core = Core(s: Server, queues: seq<Mpmc.State<Msg>>, got: seq<Option<Msg>>, loaded: seq<Option<nat>>)

  /** `Access` is the next atomic access of reactor `r` to a queue, `Own` an action of `Reactors` that touches none. */
  datatype Step = Own(a: Action) | Access(r: nat, spurious: bool)

  predicate AtQueue(pc: Pc)
  {
    pc.Sending? || pc.Publishing? || pc.Polling? || pc.Checking?
  }

  ghost predicate Formed(f: Core)
  {
    && |f.queues| == |f.got| == |f.loaded| == |f.s.rs|
    && forall x | 0 <= x < |f.queues| ::
         Mpmc.Shaped(f.queues[x]) && |f.queues[x].producers| == |f.s.rs| && |f.queues[x].consumers| == 1
  }

  // ----- the machine -----

  /** The queue of `x` after the next access of sender `r` with message `m`. */
  function SenderDoes(f: Core, x: nat, r: nat, m: Msg, spurious: bool): Mpmc.State<Msg>
    requires Formed(f) && x < |f.queues| && r < |f.s.rs|
  {
    Mpmc.Do(f.queues[x], Threads.SenderAction(f.queues[x].producers[r], r, m, spurious))
  }

  /** mpmcq_enqueue up to its compare-and-swap. */
  function AccessSend(f: Core, r: nat, spurious: bool): Core
    requires Formed(f) && r < |f.s.rs| && f.s.rs[r].pc.Sending?
  {
    var pc := f.s.rs[r].pc;
    if pc.to >= |f.queues| then f
    else
      var t := SenderDoes(f, pc.to, r, pc.msg, spurious);
      var claimed := r < |t.producers| && t.producers[r].PClaimed?;
      f.(queues := f.queues[pc.to := t], s := if claimed then Goto(f.s, r, Publishing(pc.to, pc.msg, pc.task)) else f.s)
  }

  /** The rest of it. */
  function AccessPublish(f: Core, r: nat): Core
    requires Formed(f) && r < |f.s.rs| && f.s.rs[r].pc.Publishing?
  {
    var pc := f.s.rs[r].pc;
    if pc.to >= |f.queues| then f
    else
      var t := SenderDoes(f, pc.to, r, pc.msg, false);
      var done := r < |t.producers| && t.producers[r].PIdle?;
      f.(queues := f.queues[pc.to := t], s := if done then Goto(f.s, r, Marking(pc.to, pc.msg, pc.task)) else f.s)
  }

  /** The callback of a message: what `Poll` does when it is alone in the inbox. */
  function Callback(s: Server, r: nat, m: Msg): Server
    requires r < |s.rs| && s.rs[r].pc.Polling?
  {
    Poll(Update(s, r, s.rs[r].(inbox := [Slot(m, true)])), r)
  }

  /** mpmcq_dequeue, and the callback of the message it returns. */
  function AccessPoll(f: Core, r: nat, spurious: bool): Core
    requires Formed(f) && r < |f.s.rs| && f.s.rs[r].pc.Polling?
  {
    if f.got[r].Some? then f.(s := Callback(f.s, r, f.got[r].value), got := f.got[r := None])
    else
      var q, n := f.queues[r], f.s.rs[r].pc.n;
      var C := q.consumers[0];
      var t := Mpmc.Do(q, Threads.ReaderAction(C, spurious));
      if C.CRead? then f.(queues := f.queues[r := t], got := f.got[r := Some(C.v)])
      else
        var none := |t.consumers| == 1 && t.consumers[0].CIdle?;
        f.(queues := f.queues[r := t],
           s := if none then Goto(f.s, r, if n > 0 then Working(Events) else Sleepy) else f.s)
  }

  /** The two loads of mpmcq_count, and the branch on their difference. */
  function AccessCount(f: Core, r: nat): Core
    requires Formed(f) && r < |f.s.rs| && f.s.rs[r].pc.Checking?
  {
    match f.loaded[r]
    case None => f.(loaded := f.loaded[r := Some(f.queues[r].enq)])
    case Some(e) =>
      f.(loaded := f.loaded[r := None], s := Goto(f.s, r, if e != f.queues[r].deq then Unsleeping else Blocked))
  }

  function StepOf(f: Core, H: Hash, step: Step): Core
    requires Formed(f)
  {
    match step
    case Own(a) => if a.Tick? && a.r < |f.s.rs| && AtQueue(f.s.rs[a.r].pc) then f else f.(s := Do(f.s, H, a))
    case Access(r, spurious) =>
      if r >= |f.s.rs| then f
      else match f.s.rs[r].pc
        case Sending(_, _, _) => AccessSend(f, r, spurious)
        case Publishing(_, _, _) => AccessPublish(f, r)
        case Polling(_) => AccessPoll(f, r, spurious)
        case Checking => AccessCount(f, r)
        case _ => f
  }

  ghost predicate Starts(f: Core)
  {
    && Start(f.s) && |f.queues| == |f.got| == |f.loaded| == |f.s.rs|
    && forall x | 0 <= x < |f.s.rs| ::
         f.queues[x] == Mpmc.Init<Msg>(SIZE, |f.s.rs|, 1) && f.got[x] == None && f.loaded[x] == None
  }

  // ----- how program points and queue threads fit -----

  ghost predicate QueueFit(q: Mpmc.State<Msg>, n: nat)
  {
    Mpmc.Inv(q) && |q.cells| == SIZE && |q.producers| == n && |q.consumers| == 1
  }

  /** Sender `P` of the queue of `x`, whose reactor is at `pc`. */
  ghost predicate SenderFit(P: Mpmc.Producer<Msg>, pc: Pc, x: nat)
  {
    if pc.Sending? && pc.to == x then P.PIdle? || Threads.Trying(P, pc.msg)
    else if pc.Publishing? && pc.to == x then Threads.Owning(P, pc.msg)
    else P.PIdle?
  }

  ghost predicate ReaderFit(C: Mpmc.Consumer<Msg>, pc: Pc, got: Option<Msg>, loaded: Option<nat>)
  {
    && (pc.Polling? || C.CIdle?) && (got.Some? ==> pc.Polling? && C.CIdle?) && (loaded.Some? ==> pc.Checking?)
  }

  ghost predicate QueuesFit(f: Core)
  {
    && |f.queues| == |f.got| == |f.loaded| == |f.s.rs|
    && forall x | 0 <= x < |f.s.rs| :: QueueFit(f.queues[x], |f.s.rs|) && f.s.rs[x].inbox == []
  }

  ghost predicate SendersFit(f: Core)
    requires QueuesFit(f)
  {
    forall r, x | 0 <= r < |f.s.rs| && 0 <= x < |f.s.rs| :: SenderFit(f.queues[x].producers[r], f.s.rs[r].pc, x)
  }

  ghost predicate ReadersFit(f: Core)
    requires QueuesFit(f)
  {
    forall x | 0 <= x < |f.s.rs| :: ReaderFit(f.queues[x].consumers[0], f.s.rs[x].pc, f.got[x], f.loaded[x])
  }

  ghost predicate Fit(f: Core)
  {
    QueuesFit(f) && SendersFit(f) && ReadersFit(f)
  }

  lemma FitFormed(f: Core)
    requires QueuesFit(f)
    ensures Formed(f) && forall x | 0 <= x < |f.queues| :: Mpmc.Counted(f.queues[x])
  {
    hide Mpmc.CellsOk, Mpmc.ProducersOk, Mpmc.ConsumersOk, Mpmc.Faithful;
  }

  // ----- the server that is seen -----

  function InHand(got: Option<Msg>): seq<Msg>
  {
    if got.Some? then [got.value] else []
  }

  ghost function SeenInbox(q: Mpmc.State<Msg>, got: Option<Msg>): Inbox<Msg>
    requires Mpmc.Counted(q) && |q.consumers| == 1
  {
    Threads.Slots(InHand(got)) + Threads.Ahead(q)
  }

  /** A reactor that has loaded the first position has made up its mind. */
  function SeenPc(pc: Pc, loaded: Option<nat>, deq: nat): Pc
  {
    if pc.Checking? && loaded.Some? then (if loaded.value != deq then Unsleeping else Blocked) else pc
  }

  ghost function SeenReactor(f: Core, x: nat): Reactor
    requires QueuesFit(f) && x < |f.s.rs|
  {
    FitFormed(f);
    f.s.rs[x].(inbox := SeenInbox(f.queues[x], f.got[x]), pc := SeenPc(f.s.rs[x].pc, f.loaded[x], f.queues[x].deq))
  }

  ghost function Seen(f: Core): (t: Server)
    requires QueuesFit(f)
    ensures |t.rs| == |f.s.rs| && t.conns == f.s.conns && t.hist == f.s.hist
    ensures forall x | 0 <= x < |f.s.rs| :: t.rs[x] == SeenReactor(f, x)
  {
    Server(seq(|f.s.rs|, (x: nat) requires x < |f.s.rs| => SeenReactor(f, x)), f.s.conns, f.s.hist)
  }

  lemma SeenIs(f: Core, u: Server)
    requires QueuesFit(f) && |u.rs| == |f.s.rs| && u.conns == f.s.conns && u.hist == f.s.hist
    requires forall x | 0 <= x < |f.s.rs| :: u.rs[x] == SeenReactor(f, x)
    ensures Seen(f) == u
  {
    hide SeenReactor;
    assert forall x | 0 <= x < |f.s.rs| :: Seen(f).rs[x] == u.rs[x];
    assert Seen(f).rs == u.rs;
  }

  // ----- senders -----

  /** What a sender's access to the queue of `x` changes. */
  ghost predicate Sent(f: Core, g: Core, r: nat, x: nat, t: Mpmc.State<Msg>, pc: Pc)
    requires r < |f.s.rs| && x < |f.queues|
  {
    && g.queues == f.queues[x := t] && g.got == f.got && g.loaded == f.loaded
    && g.s == Goto(f.s, r, pc) && !pc.Polling? && !pc.Checking?
    && (f.s.rs[r].pc.Sending? || f.s.rs[r].pc.Publishing?) && f.s.rs[r].pc.to == x
    && ((pc.Sending? || pc.Publishing?) ==> pc.to == x)
  }

  lemma SentFits(f: Core, g: Core, r: nat, x: nat, t: Mpmc.State<Msg>, pc: Pc)
    requires Fit(f) && r < |f.s.rs| && x < |f.s.rs| && Sent(f, g, r, x, t, pc)
    requires Threads.SenderFrame(f.queues[x], t, r) && SenderFit(t.producers[r], pc, x)
    ensures Fit(g)
  {
    hide Mpmc.Inv, Threads.Trying, Threads.Owning;
    assert QueueFit(f.queues[x], |f.s.rs|);
    forall p, y | 0 <= p < |g.s.rs| && 0 <= y < |g.s.rs|
      ensures SenderFit(g.queues[y].producers[p], g.s.rs[p].pc, y)
    {
      assert SenderFit(f.queues[y].producers[p], f.s.rs[p].pc, y);
    }
    forall y | 0 <= y < |g.s.rs|
      ensures ReaderFit(g.queues[y].consumers[0], g.s.rs[y].pc, g.got[y], g.loaded[y])
    {
      assert ReaderFit(f.queues[y].consumers[0], f.s.rs[y].pc, f.got[y], f.loaded[y]);
    }
  }

  /** Elsewhere everything is seen as before. */
  lemma SentElsewhere(f: Core, g: Core, r: nat, x: nat, t: Mpmc.State<Msg>, pc: Pc, y: nat)
    requires Fit(f) && QueuesFit(g) && r < |f.s.rs| && x < |f.s.rs| && Sent(f, g, r, x, t, pc) && y < |f.s.rs|
    requires Threads.SenderFrame(f.queues[x], t, r)
    requires Mpmc.Counted(f.queues[x]) && Mpmc.Counted(t) && |t.consumers| == 1
    ensures y != x ==> SeenReactor(g, y).inbox == SeenReactor(f, y).inbox
    ensures y != r ==> SeenReactor(g, y).pc == SeenReactor(f, y).pc
    ensures SeenReactor(g, r).pc == pc && SeenReactor(f, r).pc == f.s.rs[r].pc
    ensures SeenReactor(g, y) == f.s.rs[y].(inbox := SeenReactor(g, y).inbox, pc := SeenReactor(g, y).pc)
  {
    hide Mpmc.Inv, SeenInbox, SenderFit;
  }

  /** The inbox of the target, given what became of its queue. */
  lemma SentInbox(f: Core, x: nat, t: Mpmc.State<Msg>)
    requires QueuesFit(f) && x < |f.s.rs| && Mpmc.Counted(f.queues[x]) && Mpmc.Counted(t) && |t.consumers| == 1
    requires |f.queues[x].consumers| == 1
    requires Dequeues.InFlight(t, t.consumers[0]) == Dequeues.InFlight(f.queues[x], f.queues[x].consumers[0])
    ensures var q, h := f.queues[x], SeenInbox(f.queues[x], f.got[x]);
      var front := Threads.Slots(InHand(f.got[x])) + Threads.Slots(Dequeues.InFlight(q, q.consumers[0]));
      && h == front + Mpmc.Abs(q) && SeenInbox(t, f.got[x]) == front + Mpmc.Abs(t)
  {
    hide Mpmc.Abs, Threads.Slots, Dequeues.InFlight;
  }

  /** In the server that is seen: the queue of `x` takes inbox step `l`, and reactor `r` goes on to `pc`. */
  function Moved(u: Server, r: nat, x: nat, pc: Pc, l: Label<Msg>): Server
    requires r < |u.rs| && x < |u.rs|
  {
    Goto(Update(u, x, u.rs[x].(inbox := After(u.rs[x].inbox, l))), r, pc)
  }

  lemma MovedNothing(u: Server, r: nat, x: nat)
    requires r < |u.rs| && x < |u.rs|
    ensures Moved(u, r, x, u.rs[r].pc, Silent) == u
  {
    assert u.rs[x := u.rs[x].(inbox := u.rs[x].inbox)] == u.rs;
    assert u.rs[r := u.rs[r].(pc := u.rs[r].pc)] == u.rs;
  }

  lemma SenderSeen(f: Core, g: Core, r: nat, x: nat, t: Mpmc.State<Msg>, pc: Pc, l: Label<Msg>)
    requires Fit(f) && |f.queues| == |f.got| == |f.s.rs| && r < |f.s.rs| && x < |f.s.rs| && Sent(f, g, r, x, t, pc)
    requires Threads.SenderFrame(f.queues[x], t, r) && r < |t.producers| && SenderFit(t.producers[r], pc, x)
    requires Mpmc.Counted(f.queues[x]) && Mpmc.Counted(t) && |t.consumers| == |f.queues[x].consumers| == 1
    requires SeenInbox(t, f.got[x]) == After(SeenInbox(f.queues[x], f.got[x]), l)
    ensures Fit(g) && QueuesFit(f) && QueuesFit(g) && Seen(g) == Moved(Seen(f), r, x, pc, l)
  {
    SentFits(f, g, r, x, t, pc);
    var u := Moved(Seen(f), r, x, pc, l);
    forall y | 0 <= y < |f.s.rs|
      ensures u.rs[y] == SeenReactor(g, y)
    {
      SentElsewhere(f, g, r, x, t, pc, y);
      SeenParts(f, y);
      SeenParts(g, y);
      MovedParts(Seen(f), r, x, pc, l, y);
      hide Moved, SeenInbox, SeenReactor, Mpmc.Inv, Fit, Threads.SenderFrame;
    }
    hide Moved, SeenInbox, SeenReactor, Fit, Threads.SenderFrame;
    MovedShape(Seen(f), r, x, pc, l);
    SeenIs(g, u);
  }

  lemma MovedShape(u: Server, r: nat, x: nat, pc: Pc, l: Label<Msg>)
    requires r < |u.rs| && x < |u.rs|
    ensures var v := Moved(u, r, x, pc, l); |v.rs| == |u.rs| && v.conns == u.conns && v.hist == u.hist
  {
    hide After;
  }

  lemma MovedParts(u: Server, r: nat, x: nat, pc: Pc, l: Label<Msg>, y: nat)
    requires r < |u.rs| && x < |u.rs| && y < |u.rs|
    ensures var v := Moved(u, r, x, pc, l);
      |v.rs| == |u.rs| && v.rs[y] == u.rs[y].(inbox := if y == x then After(u.rs[x].inbox, l) else u.rs[y].inbox,
                                              pc := if y == r then pc else u.rs[y].pc)
  {
    hide After;
  }

  lemma SeenParts(f: Core, y: nat)
    requires QueuesFit(f) && y < |f.s.rs|
    ensures Mpmc.Counted(f.queues[y]) && |f.queues[y].consumers| == 1
    ensures SeenReactor(f, y) == f.s.rs[y].(inbox := SeenInbox(f.queues[y], f.got[y]),
                                            pc := SeenPc(f.s.rs[y].pc, f.loaded[y], f.queues[y].deq))
  {
    FitFormed(f);
  }

  /** One access is no action, or one action, of the server that is seen. */
  ghost predicate Follows(f: Core, g: Core, H: Hash)
    requires QueuesFit(f) && QueuesFit(g)
  {
    Seen(g) == Seen(f) || exists a: Action :: Seen(g) == Do(Seen(f), H, a)
  }

  lemma FollowsTick(f: Core, g: Core, H: Hash, r: nat)
    requires QueuesFit(f) && QueuesFit(g) && r < |f.s.rs| && Seen(g) == DoTick(Seen(f), r)
    ensures Follows(f, g, H)
  {
    hide DoTick, Seen;
    assert Do(Seen(f), H, Tick(r)) == DoTick(Seen(f), r);
  }

  lemma ClaimBehind(front: Inbox<Msg>, q: Inbox<Msg>, m: Msg)
    ensures front + After(q, Claim(m)) == After(front + q, Claim(m))
  {
  }

  lemma ReadyBehind(front: Inbox<Msg>, q: Inbox<Msg>, j: nat)
    requires j < |q|
    ensures front + After(q, Ready(j)) == After(front + q, Ready(|front| + j))
  {
  }

  lemma SendIs(u: Server, r: nat)
    requires r < |u.rs| && u.rs[r].pc.Sending? && u.rs[r].pc.to < |u.rs| && |u.rs[u.rs[r].pc.to].inbox| < CAPACITY
    ensures var pc := u.rs[r].pc;
      DoTick(u, r) == Moved(u, r, pc.to, Publishing(pc.to, pc.msg, pc.task), Claim(pc.msg))
  {
  }

  lemma PublishIs(u: Server, r: nat)
    requires r < |u.rs| && u.rs[r].pc.Publishing? && u.rs[r].pc.to < |u.rs|
    ensures var pc := u.rs[r].pc;
      DoTick(u, r) == Moved(u, r, pc.to, Marking(pc.to, pc.msg, pc.task), Ready(Unpublished(u.rs[pc.to].inbox, r)))
  {
  }

  /** A sender's access that leaves the inbox and the program point as they were. */
  lemma SenderStays(f: Core, g: Core, H: Hash, r: nat, x: nat, t: Mpmc.State<Msg>)
    requires Fit(f) && r < |f.s.rs| && x < |f.s.rs| && Sent(f, g, r, x, t, f.s.rs[r].pc)
    requires Threads.SenderFrame(f.queues[x], t, r) && SenderFit(t.producers[r], f.s.rs[r].pc, x)
    requires Mpmc.Counted(f.queues[x]) && Mpmc.Counted(t) && |t.consumers| == |f.queues[x].consumers| == 1
    requires SeenInbox(t, f.got[x]) == SeenInbox(f.queues[x], f.got[x])
    ensures Fit(g) && Follows(f, g, H)
  {
    SeenParts(f, r);
    SenderSeen(f, g, r, x, t, f.s.rs[r].pc, Silent);
    MovedNothing(Seen(f), r, x);
  }

  lemma GotoSame(s: Server, r: nat)
    requires r < |s.rs|
    ensures Goto(s, r, s.rs[r].pc) == s
  {
    assert s.rs[r := s.rs[r].(pc := s.rs[r].pc)] == s.rs;
  }

  /** At most one message is in the reader's hand, so a queue with a free cell has room for one more. */
  lemma Room(f: Core, x: nat, t: Mpmc.State<Msg>, m: Msg)
    requires Fit(f) && x < |f.s.rs| && Mpmc.Inv(t) && |t.cells| == SIZE && |f.queues[x].consumers| == 1
    requires Mpmc.Counted(f.queues[x]) && Mpmc.Counted(t) && Mpmc.Abs(t) == After(Mpmc.Abs(f.queues[x]), Claim(m))
    ensures |SeenInbox(f.queues[x], f.got[x])| < CAPACITY
  {
    hide Mpmc.CellsOk, Mpmc.ProducersOk, Mpmc.ConsumersOk, Mpmc.Faithful, SendersFit, QueueFit, Mpmc.Abs;
    assert ReaderFit(f.queues[x].consumers[0], f.s.rs[x].pc, f.got[x], f.loaded[x]);
    Mpmc.AbsAt(t);
  }

  lemma SendSim(f: Core, H: Hash, r: nat, spurious: bool)
    requires Fit(f) && Formed(f) && r < |f.s.rs| && f.s.rs[r].pc.Sending? && f.s.rs[r].pc.to < |f.s.rs|
    ensures var g := AccessSend(f, r, spurious); Fit(g) && Follows(f, g, H)
  {
    var pc := f.s.rs[r].pc;
    var x, m, q := pc.to, pc.msg, f.queues[pc.to];
    var g, t := AccessSend(f, r, spurious), SenderDoes(f, x, r, m, spurious);
    assert QueueFit(q, |f.s.rs|) && SenderFit(q.producers[r], pc, x);
    Threads.SenderFrames(q, r, m, spurious);
    Threads.SenderTries(q, r, m, spurious);
    Threads.SenderFlight(q, r, m, spurious);
    SentInbox(f, x, t);
    hide Mpmc.Inv, Mpmc.Do, Mpmc.Abs, Fit, SeenInbox, SeenReactor, Dequeues.InFlight, Threads.SenderAction, Follows,
         Threads.Slots, Moved, Reactors.Update;
    if Threads.Trying(t.producers[r], m) {
      GotoSame(f.s, r);
      SenderStays(f, g, H, r, x, t);
    } else {
      var front := Threads.Slots(InHand(f.got[x])) + Threads.Slots(Dequeues.InFlight(q, q.consumers[0]));
      ClaimBehind(front, Mpmc.Abs(q), m);
      SenderSeen(f, g, r, x, t, Publishing(x, m, pc.task), Claim(m));
      Room(f, x, t, m);
      SeenParts(f, r);
      SeenParts(f, x);
      SendIs(Seen(f), r);
      FollowsTick(f, g, H, r);
    }
  }

  /** The place that the sender publishes is the one that is found by its owner. */
  lemma FoundByOwner(u: Server, r: nat, x: nat, i: nat)
    requires Owned(u) && r < |u.rs| && x < |u.rs| && u.rs[r].pc.Publishing? && u.rs[r].pc.to == x
    requires i < |u.rs[x].inbox| && u.rs[x].inbox[i] == Slot(u.rs[r].pc.msg, false)
    ensures Unpublished(u.rs[x].inbox, r) == i
  {
    var q := u.rs[x].inbox;
    assert SlotOk(q, r, x, u.rs[r].pc);
    var j: nat :| Sole(q, r, j, u.rs[r].pc.msg);
    assert Mine(q, r, i);
    SoleIs(q, r, j, u.rs[r].pc.msg);
  }

  lemma WriteSim(f: Core, H: Hash, r: nat)
    requires Fit(f) && Formed(f) && r < |f.s.rs| && f.s.rs[r].pc.Publishing? && f.s.rs[r].pc.to < |f.s.rs|
    requires f.queues[f.s.rs[r].pc.to].producers[r].PClaimed?
    ensures var g := AccessPublish(f, r); Fit(g) && Follows(f, g, H)
  {
    var pc := f.s.rs[r].pc;
    var x, m, q := pc.to, pc.msg, f.queues[pc.to];
    var g, t := AccessPublish(f, r), SenderDoes(f, x, r, m, false);
    assert QueueFit(q, |f.s.rs|) && SenderFit(q.producers[r], pc, x);
    Threads.SenderFrames(q, r, m, false);
    Threads.SenderFlight(q, r, m, false);
    Threads.SenderOwns(q, r, m, false);
    SentInbox(f, x, t);
    hide Mpmc.Inv, Mpmc.Do, Mpmc.Abs, Fit, SeenInbox, SeenReactor, Dequeues.InFlight, Threads.SenderAction, Follows,
         Threads.Slots, Moved, Reactors.Update;
    GotoSame(f.s, r);
    SenderStays(f, g, H, r, x, t);
  }

  /** What the sender's last access leaves behind. */
  lemma Published(f: Core, r: nat) returns (t: Mpmc.State<Msg>, front: Inbox<Msg>, j: nat)
    requires Fit(f) && Formed(f) && r < |f.s.rs| && f.s.rs[r].pc.Publishing? && f.s.rs[r].pc.to < |f.s.rs|
    requires !f.queues[f.s.rs[r].pc.to].producers[r].PClaimed?
    ensures var pc, q := f.s.rs[r].pc, f.queues[f.s.rs[r].pc.to];
      && t == SenderDoes(f, pc.to, r, pc.msg, false) && Threads.SenderFrame(q, t, r)
      && r < |t.producers| && t.producers[r].PIdle?
      && |t.consumers| == |q.consumers| == 1 && Mpmc.Counted(q) && Mpmc.Counted(t)
      && SeenInbox(q, f.got[pc.to]) == front + Mpmc.Abs(q) && SeenInbox(t, f.got[pc.to]) == front + Mpmc.Abs(t)
      && j < |Mpmc.Abs(q)| && Mpmc.Abs(q)[j] == Slot(pc.msg, false) && Mpmc.Abs(t) == After(Mpmc.Abs(q), Ready(j))
  {
    var pc := f.s.rs[r].pc;
    var x, m, q := pc.to, pc.msg, f.queues[pc.to];
    t := SenderDoes(f, x, r, m, false);
    assert QueueFit(q, |f.s.rs|) && SenderFit(q.producers[r], pc, x);
    Threads.SenderFrames(q, r, m, false);
    Threads.SenderFlight(q, r, m, false);
    j := Threads.SenderPublishes(q, r, m, false);
    SentInbox(f, x, t);
    front := Threads.Slots(InHand(f.got[x])) + Threads.Slots(Dequeues.InFlight(q, q.consumers[0]));
  }

  /** The last access of a sender, in the server that is seen. */
  lemma PublishSeen(f: Core, g: Core, H: Hash, r: nat, t: Mpmc.State<Msg>, front: Inbox<Msg>, q: Inbox<Msg>, j: nat)
    requires Fit(f) && |f.queues| == |f.got| == |f.s.rs| && r < |f.s.rs| && f.s.rs[r].pc.Publishing?
    requires f.s.rs[r].pc.to < |f.s.rs| && Owned(Seen(f))
    requires var pc := f.s.rs[r].pc;
      && Sent(f, g, r, pc.to, t, Marking(pc.to, pc.msg, pc.task)) && Threads.SenderFrame(f.queues[pc.to], t, r)
      && r < |t.producers| && t.producers[r].PIdle? && |t.consumers| == |f.queues[pc.to].consumers| == 1
      && Mpmc.Counted(f.queues[pc.to]) && Mpmc.Counted(t)
      && SeenInbox(f.queues[pc.to], f.got[pc.to]) == front + q
      && SeenInbox(t, f.got[pc.to]) == front + After(q, Ready(j))
      && j < |q| && q[j] == Slot(pc.msg, false)
    ensures Fit(g) && Follows(f, g, H)
  {
    var pc, i := f.s.rs[r].pc, |front| + j;
    hide Mpmc.Inv, Fit, SeenInbox, SeenReactor, Follows, Moved, Owned, Sent, Reactors.Update, Unpublished, After, Seen,
         Threads.SenderFrame, Mpmc.Counted, QueuesFit;
    PublishedInbox(front, q, j, pc.msg);
    SenderSeen(f, g, r, pc.to, t, Marking(pc.to, pc.msg, pc.task), Ready(i));
    SeenParts(f, r);
    SeenParts(f, pc.to);
    SeenAt(f, r);
    SeenAt(f, pc.to);
    FollowsPublish(f, g, H, r, i);
  }

  lemma SeenAt(f: Core, x: nat)
    requires QueuesFit(f) && x < |f.s.rs|
    ensures |Seen(f).rs| == |f.s.rs| && Seen(f).rs[x] == SeenReactor(f, x)
  {
  }

  lemma PublishSim(f: Core, H: Hash, r: nat)
    requires Fit(f) && Formed(f) && r < |f.s.rs| && f.s.rs[r].pc.Publishing? && f.s.rs[r].pc.to < |f.s.rs|
    requires !f.queues[f.s.rs[r].pc.to].producers[r].PClaimed? && Owned(Seen(f))
    ensures var g := AccessPublish(f, r); Fit(g) && Follows(f, g, H)
  {
    FitShape(f);
    var t, front, j := Published(f, r);
    var q := f.queues[f.s.rs[r].pc.to];
    hide Mpmc.Inv, Mpmc.Do, Mpmc.Abs, Fit, QueuesFit, Formed, SeenInbox, SenderDoes, Follows, Owned, Reactors.Update,
         After, Threads.SenderFrame, Mpmc.Counted, Seen;
    PublishSeen(f, AccessPublish(f, r), H, r, t, front, Mpmc.Abs(q), j);
  }

  lemma FollowsPublish(f: Core, g: Core, H: Hash, r: nat, i: nat)
    requires QueuesFit(f) && QueuesFit(g) && r < |f.s.rs| && Owned(Seen(f)) && Seen(f).rs[r].pc.Publishing?
    requires var pc := Seen(f).rs[r].pc;
      && pc.to < |f.s.rs| && i < |Seen(f).rs[pc.to].inbox| && Seen(f).rs[pc.to].inbox[i] == Slot(pc.msg, false)
      && Seen(g) == Moved(Seen(f), r, pc.to, Marking(pc.to, pc.msg, pc.task), Ready(i))
    ensures Follows(f, g, H)
  {
    hide Seen, Moved, Follows, Owned, DoTick, QueuesFit, Unpublished;
    FoundByOwner(Seen(f), r, Seen(f).rs[r].pc.to, i);
    PublishIs(Seen(f), r);
    FollowsTick(f, g, H, r);
  }

  lemma PublishedInbox(front: Inbox<Msg>, q: Inbox<Msg>, j: nat, m: Msg)
    requires j < |q| && q[j] == Slot(m, false)
    ensures front + After(q, Ready(j)) == After(front + q, Ready(|front| + j))
    ensures (front + q)[|front| + j] == Slot(m, false)
  {
    ReadyBehind(front, q, j);
  }

  // ----- the reader -----

  /** What a reader's access changes: its queue, the message it has returned, and where it stands. */
  ghost predicate Taken(f: Core, g: Core, r: nat, t: Mpmc.State<Msg>, got: Option<Msg>, pc: Pc)
    requires r < |f.s.rs| == |f.queues| == |f.got|
  {
    && g.queues == f.queues[r := t] && g.got == f.got[r := got] && g.loaded == f.loaded && g.s == Goto(f.s, r, pc)
    && f.s.rs[r].pc.Polling? && (pc == f.s.rs[r].pc || pc == Sleepy || pc == Working(Events))
  }

  lemma TakenFits(f: Core, g: Core, r: nat, t: Mpmc.State<Msg>, got: Option<Msg>, pc: Pc)
    requires Fit(f) && r < |f.s.rs| && Taken(f, g, r, t, got, pc)
    requires Threads.ReaderFrame(f.queues[r], t) && ReaderFit(t.consumers[0], pc, got, None)
    ensures Fit(g)
  {
    hide Mpmc.Inv, Threads.Trying, Threads.Owning;
    assert QueueFit(f.queues[r], |f.s.rs|);
    assert ReaderFit(f.queues[r].consumers[0], f.s.rs[r].pc, f.got[r], f.loaded[r]);
    forall p, y | 0 <= p < |g.s.rs| && 0 <= y < |g.s.rs|
      ensures SenderFit(g.queues[y].producers[p], g.s.rs[p].pc, y)
    {
      assert SenderFit(f.queues[y].producers[p], f.s.rs[p].pc, y);
    }
    forall y | 0 <= y < |g.s.rs|
      ensures ReaderFit(g.queues[y].consumers[0], g.s.rs[y].pc, g.got[y], g.loaded[y])
    {
      assert ReaderFit(f.queues[y].consumers[0], f.s.rs[y].pc, f.got[y], f.loaded[y]);
    }
  }

  lemma TakenSeen(f: Core, g: Core, r: nat, t: Mpmc.State<Msg>, got: Option<Msg>, pc: Pc)
    requires Fit(f) && r < |f.s.rs| && Taken(f, g, r, t, got, pc)
    requires Threads.ReaderFrame(f.queues[r], t) && ReaderFit(t.consumers[0], pc, got, None)
    requires Mpmc.Counted(f.queues[r]) && Mpmc.Counted(t) && |f.queues[r].consumers| == 1
    requires SeenInbox(t, got) == SeenInbox(f.queues[r], f.got[r])
    ensures Fit(g) && Seen(g) == Moved(Seen(f), r, r, pc, Silent)
  {
    TakenFits(f, g, r, t, got, pc);
    assert ReaderFit(f.queues[r].consumers[0], f.s.rs[r].pc, f.got[r], f.loaded[r]);
    var u := Moved(Seen(f), r, r, pc, Silent);
    forall y | 0 <= y < |f.s.rs|
      ensures u.rs[y] == SeenReactor(g, y)
    {
      SeenParts(f, y);
      SeenParts(g, y);
      MovedParts(Seen(f), r, r, pc, Silent, y);
      hide Moved, SeenInbox, SeenReactor, Mpmc.Inv, Fit, Threads.ReaderFrame;
    }
    hide Moved, SeenInbox, SeenReactor, Fit, Threads.ReaderFrame;
    MovedShape(Seen(f), r, r, pc, Silent);
    SeenIs(g, u);
  }

  lemma InboxWithout(q: Mpmc.State<Msg>)
    requires Mpmc.Counted(q) && |q.consumers| == 1
    ensures SeenInbox(q, None) == Threads.Ahead(q)
  {
  }

  lemma InboxWith(q: Mpmc.State<Msg>, m: Msg)
    requires Mpmc.Counted(q) && |q.consumers| == 1
    ensures SeenInbox(q, Some(m)) == [Slot(m, true)] + Threads.Ahead(q)
  {
  }

  lemma IdlePollIs(u: Server, r: nat)
    requires r < |u.rs| && u.rs[r].pc.Polling? && (u.rs[r].inbox == [] || !u.rs[r].inbox[0].ready)
    ensures DoTick(u, r) == Moved(u, r, r, if u.rs[r].pc.n > 0 then Working(Events) else Sleepy, Silent)
  {
    assert u.rs[r := u.rs[r].(inbox := u.rs[r].inbox)] == u.rs;
  }

  lemma ReturnSim(f: Core, H: Hash, r: nat, spurious: bool)
    requires Fit(f) && Formed(f) && r < |f.s.rs| && f.s.rs[r].pc.Polling? && f.got[r].None?
    requires f.queues[r].consumers[0].CRead?
    ensures var g := AccessPoll(f, r, spurious); Fit(g) && Follows(f, g, H)
  {
    var q, pc := f.queues[r], f.s.rs[r].pc;
    var g, v := AccessPoll(f, r, spurious), q.consumers[0].v;
    var t := Mpmc.Do(q, Threads.ReaderAction(q.consumers[0], spurious));
    assert QueueFit(q, |f.s.rs|) && ReaderFit(q.consumers[0], pc, f.got[r], f.loaded[r]);
    Threads.ReaderFrames(q, spurious);
    Threads.ReaderReturns(q, spurious);
    InboxWithout(q);
    InboxWith(t, v);
    GotoSame(f.s, r);
    hide Mpmc.Inv, Mpmc.Do, Mpmc.Abs, Fit, SeenInbox, SeenReactor, Threads.Ahead, Threads.ReaderAction, Follows,
           Moved, Goto;
    TakenSeen(f, g, r, t, Some(v), pc);
    SeenParts(f, r);
    MovedNothing(Seen(f), r, r);
    FollowsSame(f, g, H);
  }

  lemma FollowsSame(f: Core, g: Core, H: Hash)
    requires QueuesFit(f) && QueuesFit(g) && Seen(g) == Seen(f)
    ensures Follows(f, g, H)
  {
  }

  lemma ReadSim(f: Core, H: Hash, r: nat, spurious: bool)
    requires Fit(f) && Formed(f) && r < |f.s.rs| && f.s.rs[r].pc.Polling? && f.got[r].None?
    requires !f.queues[r].consumers[0].CRead?
    ensures var g := AccessPoll(f, r, spurious); Fit(g) && Follows(f, g, H)
  {
    var q, pc := f.queues[r], f.s.rs[r].pc;
    var g := AccessPoll(f, r, spurious);
    var t := Mpmc.Do(q, Threads.ReaderAction(q.consumers[0], spurious));
    assert QueueFit(q, |f.s.rs|) && ReaderFit(q.consumers[0], pc, f.got[r], f.loaded[r]);
    Threads.ReaderFrames(q, spurious);
    Threads.ReaderMoves(q, spurious);
    InboxWithout(q);
    InboxWithout(t);
    GotoSame(f.s, r);
    assert f.got[r := None] == f.got;
    if t.consumers[0].CIdle? {
      NothingAhead(q);
      hide Mpmc.Inv, Mpmc.Do, Mpmc.Abs, Fit, SeenInbox, SeenReactor, Threads.Ahead, Threads.ReaderAction, Follows,
           Moved, Goto;
      var next := if pc.n > 0 then Working(Events) else Sleepy;
      TakenSeen(f, g, r, t, None, next);
      SeenParts(f, r);
      IdlePollIs(Seen(f), r);
      FollowsTick(f, g, H, r);
    } else {
      hide Mpmc.Inv, Mpmc.Do, Mpmc.Abs, Fit, SeenInbox, SeenReactor, Threads.Ahead, Threads.ReaderAction, Follows,
           Moved, Goto;
      TakenSeen(f, g, r, t, None, pc);
      SeenParts(f, r);
      MovedNothing(Seen(f), r, r);
      FollowsSame(f, g, H);
    }
  }

  lemma NothingAhead(q: Mpmc.State<Msg>)
    requires Mpmc.Counted(q) && |q.consumers| == 1 && Dequeues.InFlight(q, q.consumers[0]) == []
    ensures Threads.Ahead(q) == Mpmc.Abs(q)
  {
    Threads.EmptyFront(Mpmc.Abs(q));
  }

  /** The callback does to the server what `Poll` does to the server that is seen. */
  lemma PollAlike(s: Server, u: Server, r: nat, m: Msg, rest: Inbox<Msg>)
    requires r < |s.rs| == |u.rs| && s.conns == u.conns && s.hist == u.hist && s.rs[r].pc.Polling?
    requires u.rs[r] == s.rs[r].(inbox := [Slot(m, true)] + rest) && (m.Response? ==> m.conn < |s.conns|)
    ensures var v, t := Poll(u, r), Callback(s, r, m);
      && |v.rs| == |t.rs| == |s.rs| && v.conns == t.conns && v.hist == t.hist
      && t.rs[r].inbox == [] && v.rs[r] == t.rs[r].(inbox := rest)
      && (t.rs[r].pc.Sending? || t.rs[r].pc.Working?)
      && forall y | 0 <= y < |s.rs| && y != r :: v.rs[y] == u.rs[y] && t.rs[y] == s.rs[y]
  {
    hide ReplyTo, Apply;
    assert ([Slot(m, true)] + rest)[1..] == rest;
  }

  lemma CallbackFits(f: Core, g: Core, r: nat)
    requires Fit(f) && r < |f.s.rs| && f.s.rs[r].pc.Polling? && |g.s.rs| == |f.s.rs|
    requires g.queues == f.queues && g.got == f.got[r := None] && g.loaded == f.loaded
    requires f.queues[r].consumers[0].CIdle?
    requires g.s.rs[r].inbox == [] && (g.s.rs[r].pc.Sending? || g.s.rs[r].pc.Working?)
    requires forall y | 0 <= y < |f.s.rs| && y != r :: g.s.rs[y] == f.s.rs[y]
    ensures Fit(g)
  {
    hide Mpmc.Inv, Threads.Trying, Threads.Owning;
    forall p, y | 0 <= p < |g.s.rs| && 0 <= y < |g.s.rs|
      ensures SenderFit(g.queues[y].producers[p], g.s.rs[p].pc, y)
    {
      assert SenderFit(f.queues[y].producers[p], f.s.rs[p].pc, y);
    }
    forall y | 0 <= y < |g.s.rs|
      ensures ReaderFit(g.queues[y].consumers[0], g.s.rs[y].pc, g.got[y], g.loaded[y])
    {
      assert ReaderFit(f.queues[y].consumers[0], f.s.rs[y].pc, f.got[y], f.loaded[y]);
    }
  }

  lemma CallbackSim(f: Core, H: Hash, r: nat, spurious: bool)
    requires Fit(f) && Formed(f) && r < |f.s.rs| && f.s.rs[r].pc.Polling? && f.got[r].Some?
    requires Routes(Seen(f), H)
    ensures var g := AccessPoll(f, r, spurious); Fit(g) && Follows(f, g, H)
  {
    var q, m, u := f.queues[r], f.got[r].value, Seen(f);
    var g := AccessPoll(f, r, spurious);
    assert QueueFit(q, |f.s.rs|) && ReaderFit(q.consumers[0], f.s.rs[r].pc, f.got[r], f.loaded[r]);
    SeenParts(f, r);
    InboxWith(q, m);
    InboxWithout(q);
    HeadRouted(u, H, r, m, Threads.Ahead(q));
    PollAlike(f.s, u, r, m, Threads.Ahead(q));
    CallbackFits(f, g, r);
    hide Mpmc.Inv, Mpmc.Abs, Fit, SeenInbox, SeenReactor, Threads.Ahead, Follows, Poll, Callback, Routes, DoTick;
    forall y | 0 <= y < |f.s.rs|
      ensures Poll(u, r).rs[y] == SeenReactor(g, y)
    {
      SeenParts(f, y);
      SeenParts(g, y);
    }
    SeenIs(g, Poll(u, r));
    PollIs(u, r);
    FollowsTick(f, g, H, r);
  }

  lemma PollIs(u: Server, r: nat)
    requires r < |u.rs| && u.rs[r].pc.Polling?
    ensures DoTick(u, r) == Poll(u, r)
  {
  }

  lemma HeadRouted(u: Server, H: Hash, r: nat, m: Msg, rest: Inbox<Msg>)
    requires Routes(u, H) && r < |u.rs| && u.rs[r].inbox == [Slot(m, true)] + rest
    ensures m.conn < |u.conns|
  {
    hide Shard;
    assert Mail(u.rs[r])[0] == m;
    assert Routed(u, H, Mail(u.rs[r])[0], Mail(u.rs[r])[0].from, r);
  }

  // ----- counting -----

  /** Only `loaded` and the program point of `r` moved. */
  ghost predicate Weighed(f: Core, g: Core, r: nat, loaded: Option<nat>, pc: Pc)
    requires r < |f.s.rs| == |f.loaded|
  {
    && g.queues == f.queues && g.got == f.got && g.loaded == f.loaded[r := loaded] && g.s == Goto(f.s, r, pc)
    && f.s.rs[r].pc.Checking? && (pc.Checking? || (loaded == None && (pc.Unsleeping? || pc.Blocked?)))
  }

  lemma WeighedFits(f: Core, g: Core, r: nat, loaded: Option<nat>, pc: Pc)
    requires Fit(f) && r < |f.s.rs| && Weighed(f, g, r, loaded, pc)
    ensures Fit(g)
  {
    hide Mpmc.Inv, Threads.Trying, Threads.Owning;
    forall p, y | 0 <= p < |g.s.rs| && 0 <= y < |g.s.rs|
      ensures SenderFit(g.queues[y].producers[p], g.s.rs[p].pc, y)
    {
      assert SenderFit(f.queues[y].producers[p], f.s.rs[p].pc, y);
    }
    forall y | 0 <= y < |g.s.rs|
      ensures ReaderFit(g.queues[y].consumers[0], g.s.rs[y].pc, g.got[y], g.loaded[y])
    {
      assert ReaderFit(f.queues[y].consumers[0], f.s.rs[y].pc, f.got[y], f.loaded[y]);
    }
  }

  lemma WeighedSeen(f: Core, g: Core, r: nat, loaded: Option<nat>, pc: Pc)
    requires Fit(f) && r < |f.s.rs| && Weighed(f, g, r, loaded, pc)
    ensures Fit(g) && Seen(g) == Moved(Seen(f), r, r, SeenPc(pc, loaded, f.queues[r].deq), Silent)
  {
    WeighedFits(f, g, r, loaded, pc);
    var next := SeenPc(pc, loaded, f.queues[r].deq);
    var u := Moved(Seen(f), r, r, next, Silent);
    forall y | 0 <= y < |f.s.rs|
      ensures u.rs[y] == SeenReactor(g, y)
    {
      SeenParts(f, y);
      SeenParts(g, y);
      MovedParts(Seen(f), r, r, next, Silent, y);
      hide Moved, SeenInbox, SeenReactor, Fit;
    }
    hide Moved, SeenInbox, SeenReactor, Fit;
    MovedShape(Seen(f), r, r, next, Silent);
    SeenIs(g, u);
  }

  lemma CheckIs(u: Server, r: nat)
    requires r < |u.rs| && u.rs[r].pc.Checking?
    ensures DoTick(u, r) == Moved(u, r, r, if u.rs[r].inbox != [] then Unsleeping else Blocked, Silent)
  {
    assert u.rs[r := u.rs[r].(inbox := u.rs[r].inbox)] == u.rs;
  }

  /** The decision falls at the first load; the second only carries it out. */
  lemma CountSim(f: Core, H: Hash, r: nat)
    requires Fit(f) && Formed(f) && r < |f.s.rs| && f.s.rs[r].pc.Checking?
    ensures var g := AccessCount(f, r); Fit(g) && Follows(f, g, H)
  {
    var q, pc := f.queues[r], f.s.rs[r].pc;
    var g := AccessCount(f, r);
    assert QueueFit(q, |f.s.rs|) && ReaderFit(q.consumers[0], pc, f.got[r], f.loaded[r]);
    SeenParts(f, r);
    InboxWithout(q);
    Threads.NotReading(q);
    GotoSame(f.s, r);
    hide Mpmc.Inv, Mpmc.Abs, Fit, SeenInbox, SeenReactor, Threads.Ahead, Follows, Moved, Goto, DoTick;
    match f.loaded[r]
    case None =>
      WeighedSeen(f, g, r, Some(q.enq), pc);
      CheckIs(Seen(f), r);
      FollowsTick(f, g, H, r);
    case Some(e) =>
      WeighedSeen(f, g, r, None, if e != q.deq then Unsleeping else Blocked);
      MovedNothing(Seen(f), r, r);
      FollowsSame(f, g, H);
  }

  // ----- actions that touch no queue -----

  /** Two servers that differ in inboxes only, and in where others than `r` stand. */
  ghost predicate Like(s: Server, u: Server, r: nat)
  {
    && |u.rs| == |s.rs| && u.conns == s.conns && u.hist == s.hist && r < |s.rs| && u.rs[r].pc == s.rs[r].pc
    && forall y | 0 <= y < |s.rs| :: u.rs[y] == s.rs[y].(inbox := u.rs[y].inbox, pc := u.rs[y].pc)
  }

  /** An action of `r` took `s` to `t`, and did the same to `u`, giving `v`; it touched no inbox and nobody's place. */
  ghost predicate Alike(s: Server, u: Server, t: Server, v: Server, r: nat)
    requires |u.rs| == |s.rs|
  {
    && |t.rs| == |v.rs| == |s.rs| && v.conns == t.conns && v.hist == t.hist && r < |s.rs| && !t.rs[r].pc.Publishing?
    && forall y | 0 <= y < |s.rs| ::
         && t.rs[y].inbox == s.rs[y].inbox && (y != r ==> t.rs[y].pc == s.rs[y].pc)
         && v.rs[y] == t.rs[y].(inbox := u.rs[y].inbox, pc := if y == r then t.rs[y].pc else u.rs[y].pc)
  }

  lemma WakeAlike(s: Server, u: Server, r: nat)
    requires Like(s, u, r) && s.rs[r].pc.Waking?
    ensures Alike(s, u, Wake(s, r), Wake(u, r), r)
  {
  }

  lemma SignalAlike(s: Server, u: Server, r: nat)
    requires Like(s, u, r) && s.rs[r].pc.Signalling?
    ensures Alike(s, u, Signal(s, r), Signal(u, r), r)
  {
  }

  lemma MarkAlike(s: Server, u: Server, r: nat)
    requires Like(s, u, r) && s.rs[r].pc.Marking?
    ensures Alike(s, u, Mark(s, r), Mark(u, r), r)
  {
  }

  lemma IssueAlike(s: Server, u: Server, H: Hash, r: nat, c: nat, task: Task)
    requires Like(s, u, r) && s.rs[r].pc == Working(task) && c < |s.conns|
    ensures Alike(s, u, Issue(s, H, r, c, task), Issue(u, H, r, c, task), r)
  {
    hide ReplyTo, Apply, Shard;
  }

  lemma TickAlike(s: Server, u: Server, r: nat)
    requires Like(s, u, r) && !AtQueue(s.rs[r].pc)
    ensures Alike(s, u, DoTick(s, r), DoTick(u, r), r)
  {
    hide Wake, Signal, Mark, Send, Publish, Poll;
    match s.rs[r].pc
    case Waking(_) => WakeAlike(s, u, r);
    case Signalling(_) => SignalAlike(s, u, r);
    case Marking(_, _, _) => MarkAlike(s, u, r);
    case _ =>
  }

  lemma LoopAlike(s: Server, u: Server, H: Hash, a: Action)
    requires Like(s, u, a.r) && !AtQueue(s.rs[a.r].pc) && (a.Drain? || a.Open?)
    ensures Alike(s, u, Do(s, H, a), Do(u, H, a), a.r)
  {
  }

  lemma StopAlike(s: Server, u: Server, H: Hash, r: nat)
    requires Like(s, u, r) && !AtQueue(s.rs[r].pc)
    ensures Alike(s, u, Do(s, H, Stop(r)), Do(u, H, Stop(r)), r)
  {
  }

  lemma OwnAlike(s: Server, u: Server, H: Hash, a: Action)
    requires Like(s, u, a.r) && !AtQueue(s.rs[a.r].pc)
    ensures Alike(s, u, Do(s, H, a), Do(u, H, a), a.r)
  {
    match a
    case Tick(r) =>
      hide DoTick;
      TickAlike(s, u, r);
    case Handle(r) =>
      hide Issue;
      var pc := s.rs[r].pc;
      if pc.Working? && (pc.task.Data? || pc.task.Replied?) && pc.task.conn < |s.conns| {
        IssueAlike(s, u, H, r, pc.task.conn, pc.task);
      }
    case Stop(r) => StopAlike(s, u, H, r);
    case _ => LoopAlike(s, u, H, a);
  }

  lemma OwnFits(f: Core, u: Server, t: Server, v: Server, r: nat)
    requires Fit(f) && |u.rs| == |f.s.rs| && Alike(f.s, u, t, v, r) && !AtQueue(f.s.rs[r].pc)
    ensures Fit(f.(s := t))
  {
    hide Mpmc.Inv, Threads.Trying, Threads.Owning;
    var g := f.(s := t);
    forall p, y | 0 <= p < |g.s.rs| && 0 <= y < |g.s.rs|
      ensures SenderFit(g.queues[y].producers[p], g.s.rs[p].pc, y)
    {
      assert SenderFit(f.queues[y].producers[p], f.s.rs[p].pc, y);
    }
    forall y | 0 <= y < |g.s.rs|
      ensures ReaderFit(g.queues[y].consumers[0], g.s.rs[y].pc, g.got[y], g.loaded[y])
    {
      assert ReaderFit(f.queues[y].consumers[0], f.s.rs[y].pc, f.got[y], f.loaded[y]);
    }
  }

  lemma SeenLike(f: Core, r: nat)
    requires Fit(f) && r < |f.s.rs| && !AtQueue(f.s.rs[r].pc)
    ensures Like(f.s, Seen(f), r)
  {
    assert ReaderFit(f.queues[r].consumers[0], f.s.rs[r].pc, f.got[r], f.loaded[r]);
    hide SeenInbox;
  }

  lemma OwnSim(f: Core, H: Hash, a: Action)
    requires Fit(f) && a.r < |f.s.rs| && !AtQueue(f.s.rs[a.r].pc)
    ensures var g := f.(s := Do(f.s, H, a)); Fit(g) && Follows(f, g, H)
  {
    var u, t, v := Seen(f), Do(f.s, H, a), Do(Seen(f), H, a);
    var g := f.(s := t);
    SeenLike(f, a.r);
    OwnAlike(f.s, u, H, a);
    OwnFits(f, u, t, v, a.r);
    assert ReaderFit(f.queues[a.r].consumers[0], f.s.rs[a.r].pc, f.got[a.r], f.loaded[a.r]);
    forall y | 0 <= y < |f.s.rs|
      ensures v.rs[y] == SeenReactor(g, y)
    {
      SeenParts(f, y);
      SeenParts(g, y);
      hide SeenReactor, SeenInbox, Fit, Do;
    }
    hide SeenReactor, SeenInbox, Fit, Do, Like;
    SeenIs(g, v);
  }

  /** Elsewhere an action has no effect, here and there. */
  lemma NoEffect(s: Server, H: Hash, a: Action)
    requires a.r >= |s.rs| || (AtQueue(s.rs[a.r].pc) && !a.Tick?)
    ensures Do(s, H, a) == s
  {
    hide Issue, DoTick;
  }

  // ----- whole runs -----

  lemma StepSim(f: Core, H: Hash, step: Step)
    requires Fit(f) && Formed(f) && Routes(Seen(f), H) && Owned(Seen(f))
    ensures var g := StepOf(f, H, step); Fit(g) && Follows(f, g, H)
  {
    hide Fit, Formed, AccessSend, AccessPublish, AccessPoll, AccessCount, Do, Routes, Owned, Follows;
    match step
    case Own(a) =>
      if a.r >= |f.s.rs| || AtQueue(f.s.rs[a.r].pc) {
        if a.r >= |f.s.rs| || !a.Tick? {
          NoEffect(f.s, H, a);
        }
        FollowsSelf(f, H);
      } else {
        OwnSim(f, H, a);
      }
    case Access(r, spurious) =>
      if r < |f.s.rs| && AtQueue(f.s.rs[r].pc) {
        AccessSim(f, H, r, spurious);
      } else {
        FollowsSelf(f, H);
      }
  }

  lemma FollowsSelf(f: Core, H: Hash)
    requires Fit(f)
    ensures QueuesFit(f) && Follows(f, f, H)
  {
  }

  lemma PollSim(f: Core, H: Hash, r: nat, spurious: bool)
    requires Fit(f) && Formed(f) && Routes(Seen(f), H) && r < |f.s.rs| && f.s.rs[r].pc.Polling?
    ensures var g := AccessPoll(f, r, spurious); Fit(g) && Follows(f, g, H)
  {
    FitShape(f);
    hide Fit, Formed, Routes, Follows, Seen, AccessPoll;
    if f.got[r].Some? {
      CallbackSim(f, H, r, spurious);
    } else if f.queues[r].consumers[0].CRead? {
      ReturnSim(f, H, r, spurious);
    } else {
      ReadSim(f, H, r, spurious);
    }
  }

  lemma SenderSim(f: Core, H: Hash, r: nat, spurious: bool)
    requires Fit(f) && Formed(f) && Owned(Seen(f)) && r < |f.s.rs|
    requires f.s.rs[r].pc.Sending? || f.s.rs[r].pc.Publishing?
    ensures var g := if f.s.rs[r].pc.Sending? then AccessSend(f, r, spurious) else AccessPublish(f, r);
      Fit(g) && Follows(f, g, H)
  {
    var pc := f.s.rs[r].pc;
    FitShape(f);
    if pc.to >= |f.s.rs| {
      FollowsSelf(f, H);
    } else {
      hide Fit, Formed, Owned, Follows, Seen, AccessSend, AccessPublish;
      if pc.Sending? {
        SendSim(f, H, r, spurious);
      } else if f.queues[pc.to].producers[r].PClaimed? {
        WriteSim(f, H, r);
      } else {
        PublishSim(f, H, r);
      }
    }
  }

  lemma AccessSim(f: Core, H: Hash, r: nat, spurious: bool)
    requires Fit(f) && Formed(f) && Routes(Seen(f), H) && Owned(Seen(f)) && r < |f.s.rs| && AtQueue(f.s.rs[r].pc)
    ensures var g := StepOf(f, H, Access(r, spurious)); Fit(g) && Follows(f, g, H)
  {
    hide Fit, Formed, Routes, Owned, Follows, Seen, AccessSend, AccessPublish, AccessPoll, AccessCount;
    var pc := f.s.rs[r].pc;
    if pc.Polling? {
      PollSim(f, H, r, spurious);
    } else if pc.Checking? {
      CountSim(f, H, r);
    } else {
      SenderSim(f, H, r, spurious);
    }
  }

  lemma FitShape(f: Core)
    requires Fit(f)
    ensures |f.queues| == |f.got| == |f.loaded| == |f.s.rs| && forall x | 0 <= x < |f.s.rs| ::
              |f.queues[x].producers| == |f.s.rs| && |f.queues[x].consumers| == 1
  {
  }

  lemma StartFits(f: Core, H: Hash)
    requires Starts(f)
    ensures Fit(f) && Seen(f) == f.s
  {
    IsSize();
    Mpmc.InitInv<Msg>(SIZE, |f.s.rs|, 1);
    hide Mpmc.CellsOk, Mpmc.ProducersOk, Mpmc.ConsumersOk, Mpmc.Faithful, IsPow2;
    forall x | 0 <= x < |f.s.rs|
      ensures f.s.rs[x] == SeenReactor(f, x)
    {
      SeenParts(f, x);
      InboxWithout(f.queues[x]);
      Threads.NotReading(f.queues[x]);
    }
    SeenIs(f, f.s);
  }

  lemma IsSize()
    ensures IsPow2(SIZE)
  {
    assert IsPow2(1) && IsPow2(2) && IsPow2(4) && IsPow2(8) && IsPow2(16) && IsPow2(32) && IsPow2(64) && IsPow2(128);
    assert IsPow2(256) && IsPow2(512) && IsPow2(1024) && IsPow2(2048) && IsPow2(4096) && IsPow2(8192);
  }

  /** The machine after a list of steps; steps that do not fit it would have no meaning, and there are none. */
  ghost predicate Runs(f: Core, H: Hash, steps: seq<Step>, g: Core)
  {
    if steps == [] then g == f
    else exists h: Core :: Runs(f, H, steps[..|steps| - 1], h) && Formed(h) && g == StepOf(h, H, steps[|steps| - 1])
  }

  /** Every run of the composed machine is a run of the server of `Reactors`, seen through its queues. */
  lemma {:induction false} Refines(f: Core, H: Hash, steps: seq<Step>, g: Core) returns (run: seq<Action>)
    requires Starts(f) && Runs(f, H, steps, g)
    ensures Fit(g) && Start(f.s) && Exec(f.s, H, run) == Seen(g)
    decreases |steps|
  {
    if steps == [] {
      StartFits(f, H);
      run := [];
    } else {
      var last := steps[|steps| - 1];
      var h: Core :| Runs(f, H, steps[..|steps| - 1], h) && Formed(h) && g == StepOf(h, H, last);
      hide Runs, Fit, Follows, StepOf, Formed, Do, Starts, Start;
      run := Refines(f, H, steps[..|steps| - 1], h);
      ExecInv(f.s, H, run);
      InvParts(Seen(h), H);
      StepSim(h, H, last);
      run := ExtendRun(f.s, H, run, h, g);
    }
  }

  lemma ExtendRun(s: Server, H: Hash, run: seq<Action>, h: Core, g: Core) returns (more: seq<Action>)
    requires QueuesFit(h) && QueuesFit(g) && Exec(s, H, run) == Seen(h) && Follows(h, g, H)
    ensures Exec(s, H, more) == Seen(g)
  {
    hide Seen, Do, QueuesFit;
    if Seen(g) == Seen(h) {
      more := run;
    } else {
      var a: Action :| Seen(g) == Do(Seen(h), H, a);
      more := run + [a];
      assert more[..|more| - 1] == run;
    }
  }

  /** The machine can always go on: no step is without meaning. */
  lemma NeverStuck(f: Core, H: Hash, steps: seq<Step>, g: Core)
    requires Starts(f) && Runs(f, H, steps, g)
    ensures Formed(g)
  {
    var run := Refines(f, H, steps, g);
    FitFormed(g);
  }

  /** No lost wakeup, with the queues spelled out: whenever a reactor is blocked and its queue's positions differ, its
      eventfd is signalled, or some reactor that is not blocked still owes it the signal. */
  lemma NoLostWakeupBelow(f: Core, H: Hash, steps: seq<Step>, g: Core)
    requires Starts(f) && Runs(f, H, steps, g)
    ensures Fit(g)
    ensures forall r | 0 <= r < |g.s.rs| && g.s.rs[r].pc.Blocked? && g.queues[r].enq != g.queues[r].deq ::
              g.s.rs[r].eventfd > 0
              || exists x :: 0 <= x < |g.s.rs| && !g.s.rs[x].pc.Blocked? && Owes(g.s.rs[x], r)
    ensures forall r | 0 <= r < |g.s.rs| && g.s.rs[r].pc.Blocked? :: g.s.rs[r].soft == {}
  {
    hide Runs, Exec, Starts;
    var run := Refines(f, H, steps, g);
    NoLostWakeup(f.s, H, run);
    var u := Seen(g);
    forall r | 0 <= r < |g.s.rs| && g.s.rs[r].pc.Blocked?
      ensures g.s.rs[r].soft == {}
      ensures g.queues[r].enq != g.queues[r].deq ==>
                g.s.rs[r].eventfd > 0
                || exists x :: 0 <= x < |g.s.rs| && !g.s.rs[x].pc.Blocked? && Owes(g.s.rs[x], r)
    {
      BlockedSeen(g, r);
      if g.queues[r].enq != g.queues[r].deq && g.s.rs[r].eventfd == 0 {
        var x :| 0 <= x < |u.rs| && !u.rs[x].pc.Blocked? && Owes(u.rs[x], r);
        BlockedSeen(g, x);
      }
    }
  }

  lemma BlockedSeen(g: Core, r: nat)
    requires Fit(g) && r < |g.s.rs|
    ensures g.s.rs[r].pc.Blocked? ==>
              Seen(g).rs[r].pc.Blocked? && (g.queues[r].enq != g.queues[r].deq ==> Seen(g).rs[r].inbox != [])
    ensures Seen(g).rs[r].eventfd == g.s.rs[r].eventfd && Seen(g).rs[r].soft == g.s.rs[r].soft
    ensures forall y: nat :: Owes(Seen(g).rs[r], y) == Owes(g.s.rs[r], y)
  {
    SeenParts(g, r);
    assert ReaderFit(g.queues[r].consumers[0], g.s.rs[r].pc, g.got[r], g.loaded[r]);
    if g.s.rs[r].pc.Blocked? {
      InboxWithout(g.queues[r]);
      Threads.NotReading(g.queues[r]);
    }
  }

  /** The sharded store refines one map, with the queues spelled out. */
  lemma ShardsRefineOneMapBelow(f: Core, H: Hash, steps: seq<Step>, g: Core)
    requires Starts(f) && Runs(f, H, steps, g)
    ensures |g.s.rs| > 0
    ensures forall i | 0 <= i < |g.s.hist| :: g.s.hist[i].reply == ReplyTo(Serial(g.s.hist[..i]), g.s.hist[i].cmd)
    ensures forall r, k | 0 <= r < |g.s.rs| && k in g.s.rs[r].store :: H(k) % |g.s.rs| == r
    ensures forall k: Bytes :: Agrees(g.s, H, k)
    ensures forall c, x | 0 <= c < |g.s.conns| && 0 <= x < |g.s.rs| ::
              RepliesOf(g.s.conns[c].replies, x) <= Dispatch.Answered(g.s.hist, c, x)
  {
    hide Runs, Exec, Starts, ReplyTo, Serial, RepliesOf, Dispatch.Answered;
    var run := Refines(f, H, steps, g);
    ShardsRefineOneMap(f.s, H, run);
    var u := Seen(g);
    assert forall r | 0 <= r < |g.s.rs| :: u.rs[r].store == g.s.rs[r].store;
    forall k: Bytes
      ensures Agrees(g.s, H, k)
    {
      assert Agrees(u, H, k);
    }
  }

  /** Replies in request order, with the queues spelled out. */
  lemma OrderedBelow(f: Core, H: Hash, steps: seq<Step>, g: Core, c: nat)
    requires Starts(f) && Runs(f, H, steps, g) && c < |f.s.conns|
    requires |f.s.rs| > 0 && Order.OneTarget(f.s.conns[c].todo, f.s.conns[c].home, H, |f.s.rs|)
    ensures c < |g.s.conns| && Order.Numbered(g.s.conns[c].replies)
  {
    hide Runs, Exec, Starts, Order.OneTarget, Order.Numbered, Start;
    var run := Refines(f, H, steps, g);
    Order.OrderedRun(f.s, H, run, c);
  }
}
