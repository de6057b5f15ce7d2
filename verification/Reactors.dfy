/** The whole server as one state machine: N reactors exchanging requests and responses, one atomic action per step. */
module Reactors {
  import opened Bits
  import opened Inboxes
  import opened Commands

  /** A dispatched command on its way to the shard of its key, or its reply on the way back. */
  datatype Msg =
    | Request(from: nat, conn: nat, id: nat, cmd: Cmd)
    | Response(from: nat, conn: nat, id: nat, reply: Reply)

  /** What a reactor returns to when the message in hand is sent. */
  datatype Task =
    | Events                        // the event loop behind epoll_wait
    | Data(conn: nat)               // the on_data_available loop of a readable connection
    | Replied(conn: nat, n: nat)    // the same loop, run by on_cb after a response; `n` callbacks so far
    | Served(n: nat)                // the end of a request callback

  /** Program points of reactor_run and of the functions it calls. */
  datatype Pc =
    | Waking(i: nat)                // reactor_wakeup_pending, at shard i
    | Signalling(i: nat)            // there, having exchanged `sleeping` of i from true, about to write its eventfd
    | Polling(n: nat)               // reactor_poll_callbacks, after n callbacks
    | Sleepy                        // no callback ran: about to store sleeping = true
    | Checking                      // about to ask for pending messages
    | Unsleeping                    // there were some: about to store sleeping = false and start over
    | Blocked                       // in the epoll_wait without timeout
    | Woken                         // out of it, about to store sleeping = false
    | Working(task: Task)
    | Sending(to: nat, msg: Msg, task: Task)     // about to claim a place in the queue of `to`
    | Publishing(to: nat, msg: Msg, task: Task)  // about to publish it
    | Marking(to: nat, msg: Msg, task: Task)     // about to set the soft-notify bit

  datatype Reactor = Reactor(pc: Pc, soft: set<nat>, sleeping: bool, eventfd: nat, inbox: Inbox<Msg>, store: Map)

  datatype Written = Written(id: nat, shard: nat, reply: Reply)

  /** A connection: the commands its client sends, how many were handled, and the replies in its send buffer. */
  datatype Conn = Conn(home: nat, todo: seq<Cmd>, next: nat, waiting: bool, replies: seq<Written>)

  /** One execution of a command, in the serial history of the server. */
  datatype Done = Done(conn: nat, id: nat, shard: nat, cmd: Cmd, reply: Reply)

  datatype Server = Server(rs: seq<Reactor>, conns: seq<Conn>, hist: seq<Done>)

  /** `Tick` is the next action of a reactor where it has only one; the others choose among events. */
  datatype Action = Tick(r: nat) | Drain(r: nat) | Open(r: nat, c: nat) | Handle(r: nat) | Stop(r: nat)

  /** The cells of a queue, and the message its reader has taken from it and not yet run. */
  const CAPACITY: nat := 8192 + 1

  ghost predicate Start(s: Server)
  {
    && |s.rs| > 0 && s.hist == []
    && (forall r | 0 <= r < |s.rs| :: s.rs[r] == Reactor(Waking(0), {}, true, 0, [], map[]))
    && (forall c | 0 <= c < |s.conns| :: s.conns[c].home < |s.rs| && s.conns[c].next == 0 && !s.conns[c].waiting
                                         && s.conns[c].replies == [])
  }

  /** The shard of a key. */
  function Shard(H: Hash, n: nat, key: Bytes): (r: nat)
    requires n > 0
    ensures r < n
  {
    H(key) % n
  }

  /** The place a sender has claimed and not yet published. */
  function Unpublished(q: Inbox<Msg>, from: nat): (j: nat)
    ensures j <= |q| && (j < |q| ==> !q[j].ready && q[j].item.from == from)
  {
    if q == [] then 0
    else if !q[0].ready && q[0].item.from == from then 0
    else 1 + Unpublished(q[1..], from)
  }

  function Update(s: Server, r: nat, x: Reactor): (t: Server)
    requires r < |s.rs|
    ensures |t.rs| == |s.rs| && t.conns == s.conns && t.hist == s.hist
  {
    s.(rs := s.rs[r := x])
  }

  function Goto(s: Server, r: nat, pc: Pc): Server
    requires r < |s.rs|
  {
    Update(s, r, s.rs[r].(pc := pc))
  }

  /** reactor_wakeup_pending: exchange each marked reactor's flag, write its eventfd when it was asleep, clear the
      marks. */
  function Wake(s: Server, r: nat): Server
    requires r < |s.rs| && s.rs[r].pc.Waking?
  {
    var x := s.rs[r];
    var i := x.pc.i;
    if i >= |s.rs| then Update(s, r, x.(pc := Polling(0), soft := {}))
    else if i in x.soft && s.rs[i].sleeping then
      Goto(Update(s, i, s.rs[i].(sleeping := false)), r, Signalling(i))
    else Goto(s, r, Waking(i + 1))
  }

  function Signal(s: Server, r: nat): Server
    requires r < |s.rs| && s.rs[r].pc.Signalling?
  {
    var i := s.rs[r].pc.i;
    if i < |s.rs| then Goto(Update(s, i, s.rs[i].(eventfd := s.rs[i].eventfd + 1)), r, Waking(i + 1)) else s
  }

  /** reactor_poll_callbacks: one dequeue, and the callback of the message if there is one. */
  function Poll(s: Server, r: nat): Server
    requires r < |s.rs| && s.rs[r].pc.Polling?
  {
    var x := s.rs[r];
    var n := x.pc.n;
    if x.inbox == [] || !x.inbox[0].ready then Goto(s, r, if n > 0 then Working(Events) else Sleepy)
    else
      var rest := x.(inbox := x.inbox[1..]);
      match x.inbox[0].item
      case Request(from, conn, id, cmd) =>
        var reply := ReplyTo(x.store, cmd);
        Update(s, r, rest.(store := Apply(x.store, cmd),
            pc := Sending(from, Response(r, conn, id, reply), Served(n + 1))))
        .(hist := s.hist + [Done(conn, id, r, cmd, reply)])
      case Response(from, conn, id, reply) =>
        if conn < |s.conns| then
          var c := s.conns[conn];
          Update(s, r, rest.(pc := Working(Replied(conn, n + 1))))
          .(conns := s.conns[conn := c.(waiting := false, replies := c.replies + [Written(id, from, reply)])])
        else s
  }

  /** mpmcq_enqueue on the target's queue, up to its compare-and-swap; a full queue makes the sender retry. */
  function Send(s: Server, r: nat): Server
    requires r < |s.rs| && s.rs[r].pc.Sending?
  {
    var pc := s.rs[r].pc;
    if pc.to < |s.rs| && |s.rs[pc.to].inbox| < CAPACITY then
      Goto(Update(s, pc.to, s.rs[pc.to].(inbox := After(s.rs[pc.to].inbox, Claim(pc.msg)))), r,
          Publishing(pc.to, pc.msg, pc.task))
    else s
  }

  function Publish(s: Server, r: nat): Server
    requires r < |s.rs| && s.rs[r].pc.Publishing?
  {
    var pc := s.rs[r].pc;
    if pc.to < |s.rs| then
      var q := s.rs[pc.to].inbox;
      Goto(Update(s, pc.to, s.rs[pc.to].(inbox := After(q, Ready(Unpublished(q, r))))), r,
          Marking(pc.to, pc.msg, pc.task))
    else s
  }

  /** The bookkeeping behind a send: the soft-notify bit, and for a request the waiting flag of its connection. */
  function Mark(s: Server, r: nat): Server
    requires r < |s.rs| && s.rs[r].pc.Marking?
  {
    var pc := s.rs[r].pc;
    var t := Update(s, r, s.rs[r].(soft := s.rs[r].soft + {pc.to}, pc := Working(pc.task)));
    if pc.msg.Request? && pc.msg.conn < |s.conns|
    then t.(conns := s.conns[pc.msg.conn := s.conns[pc.msg.conn].(waiting := true)])
    else t
  }

  /** handle_command for a keyed command: executed here when the key is ours, dispatched otherwise. */
  function Issue(s: Server, H: Hash, r: nat, c: nat, task: Task): Server
    requires r < |s.rs| && c < |s.conns|
  {
    var x, k := s.rs[r], s.conns[c];
    if k.home != r || k.next >= |k.todo| then s
    else
      var cmd := k.todo[k.next];
      var shard := Shard(H, |s.rs|, cmd.key);
      if shard == r then
        var reply := ReplyTo(x.store, cmd);
        Update(s, r, x.(store := Apply(x.store, cmd)))
        .(conns := s.conns[c := k.(next := k.next + 1, replies := k.replies + [Written(k.next, r, reply)])],
          hist := s.hist + [Done(c, k.next, r, cmd, reply)])
      else
        Goto(s, r, Sending(shard, Request(r, c, k.next, cmd), task))
        .(conns := s.conns[c := k.(next := k.next + 1)])
  }

  function DoTick(s: Server, r: nat): Server
    requires r < |s.rs|
  {
    var x := s.rs[r];
    match x.pc
    case Waking(_) => Wake(s, r)
    case Signalling(_) => Signal(s, r)
    case Polling(_) => Poll(s, r)
    case Sleepy => Update(s, r, x.(sleeping := true, pc := Checking))
    case Checking => Goto(s, r, if x.inbox != [] then Unsleeping else Blocked)
    case Unsleeping => Update(s, r, x.(sleeping := false, pc := Waking(0)))
    case Blocked => Goto(s, r, Woken)
    case Woken => Update(s, r, x.(sleeping := false, pc := Working(Events)))
    case Sending(_, _, _) => Send(s, r)
    case Publishing(_, _, _) => Publish(s, r)
    case Marking(_, _, _) => Mark(s, r)
    case Working(_) => s
  }

  function Do(s: Server, H: Hash, a: Action): Server
  {
    if a.r >= |s.rs| then s
    else
      var x := s.rs[a.r];
      match a
      case Tick(r) => DoTick(s, r)
      case Drain(r) => if x.pc == Working(Events) then Update(s, r, x.(eventfd := 0)) else s
      case Open(r, c) =>
        if x.pc == Working(Events) && c < |s.conns| && s.conns[c].home == r && !s.conns[c].waiting
        then Goto(s, r, Working(Data(c))) else s
      case Handle(r) =>
        if x.pc.Working? && (x.pc.task.Data? || x.pc.task.Replied?) && x.pc.task.conn < |s.conns|
        then Issue(s, H, r, x.pc.task.conn, x.pc.task) else s
      case Stop(r) =>
        if !x.pc.Working? then s
        else match x.pc.task
          case Events => Goto(s, r, Waking(0))
          case Data(_) => Goto(s, r, Working(Events))
          case Replied(_, n) => Goto(s, r, Polling(n))
          case Served(n) => Goto(s, r, Polling(n))
  }

  /** Every interleaving of the reactors, the clients and the kernel's wake-ups is one list of actions. */
  function Exec(s: Server, H: Hash, run: seq<Action>): Server
  {
    if run == [] then s else Do(Exec(s, H, run[..|run| - 1]), H, run[|run| - 1])
  }
}
