/** Cross-shard dispatch: each command is executed once, in one serial history, and its reply comes back in order. */
module Dispatch {
  import opened Bits
  import opened Inboxes
  import opened Commands
  import opened Reactors
  import opened Seqs

  datatype Order = Order(id: nat, cmd: Cmd)

  datatype Answer = Answer(id: nat, reply: Reply)

  // ----- who is where, per connection `c` and shard `t` -----

  /** The commands handled so far that belong to shard `t`, in the order they were issued. */
  function IssuedTo(todo: seq<Cmd>, k: nat, H: Hash, n: nat, t: nat): seq<Order>
    requires k <= |todo| && n > 0
  {
    if k == 0 then []
    else IssuedTo(todo, k - 1, H, n, t) + if Shard(H, n, todo[k - 1].key) == t then [Order(k - 1, todo[k - 1])] else []
  }

  function Executed(hist: seq<Done>, c: nat, t: nat): seq<Order>
  {
    if hist == [] then []
    else
      var d := hist[|hist| - 1];
      Executed(hist[..|hist| - 1], c, t) + if d.conn == c && d.shard == t then [Order(d.id, d.cmd)] else []
  }

  function Answered(hist: seq<Done>, c: nat, t: nat): seq<Answer>
  {
    if hist == [] then []
    else
      var d := hist[|hist| - 1];
      Answered(hist[..|hist| - 1], c, t) + if d.conn == c && d.shard == t then [Answer(d.id, d.reply)] else []
  }

  /** The requests of `c` in a queue. */
  function Requests(q: seq<Msg>, c: nat): seq<Order>
  {
    if q == [] then []
    else (if q[0].Request? && q[0].conn == c then [Order(q[0].id, q[0].cmd)] else []) + Requests(q[1..], c)
  }

  /** The responses of shard `t` to `c` in a queue. */
  function Responses(q: seq<Msg>, c: nat, t: nat): seq<Answer>
  {
    if q == [] then []
    else (if q[0].Response? && q[0].conn == c && q[0].from == t then [Answer(q[0].id, q[0].reply)] else [])
         + Responses(q[1..], c, t)
  }

  function RequestInHand(pc: Pc, c: nat, t: nat): seq<Order>
  {
    if pc.Sending? && pc.msg.Request? && pc.msg.conn == c && pc.to == t then [Order(pc.msg.id, pc.msg.cmd)] else []
  }

  function ResponseInHand(pc: Pc, c: nat): seq<Answer>
  {
    if pc.Sending? && pc.msg.Response? && pc.msg.conn == c then [Answer(pc.msg.id, pc.msg.reply)] else []
  }

  /** The replies of shard `t` in a connection's send buffer. */
  function RepliesOf(w: seq<Written>, t: nat): seq<Answer>
  {
    if w == [] then []
    else RepliesOf(w[..|w| - 1], t) + if w[|w| - 1].shard == t then [Answer(w[|w| - 1].id, w[|w| - 1].reply)] else []
  }

  // ----- the invariants -----

  function Mail(x: Reactor): seq<Msg>
  {
    Items(x.inbox)
  }

  /** Messages go where they belong, and never to their sender. */
  ghost predicate Routed(s: Server, H: Hash, m: Msg, from: nat, to: nat)
  {
    && |s.rs| > 0 && m.from == from && from < |s.rs| && from != to && m.conn < |s.conns| && m.id < s.conns[m.conn].next
    && (m.Request? ==> from == s.conns[m.conn].home && to == Shard(H, |s.rs|, m.cmd.key))
    && (m.Response? ==> to == s.conns[m.conn].home)
  }

  ghost predicate Homes(s: Server)
  {
    |s.rs| > 0 && forall c | 0 <= c < |s.conns| :: s.conns[c].home < |s.rs| && s.conns[c].next <= |s.conns[c].todo|
  }

  ghost predicate Routes(s: Server, H: Hash)
  {
    && Homes(s)
    && (forall r, j | 0 <= r < |s.rs| && 0 <= j < |Mail(s.rs[r])|
         :: Routed(s, H, Mail(s.rs[r])[j], Mail(s.rs[r])[j].from, r))
    && (forall r | 0 <= r < |s.rs| && s.rs[r].pc.Sending? :: Routed(s, H, s.rs[r].pc.msg, r, s.rs[r].pc.to))
  }

  /** Two queues in a row: issued = executed + queued + in hand, and answered = written + queued + in hand. */
  ghost predicate Flow(s: Server, H: Hash, c: nat, t: nat)
    requires c < |s.conns| && t < |s.rs| && s.conns[c].home < |s.rs| && s.conns[c].next <= |s.conns[c].todo|
  {
    var k := s.conns[c];
    && IssuedTo(k.todo, k.next, H, |s.rs|, t)
       == Executed(s.hist, c, t) + Requests(Mail(s.rs[t]), c) + RequestInHand(s.rs[k.home].pc, c, t)
    && Answered(s.hist, c, t)
       == RepliesOf(k.replies, t) + Responses(Mail(s.rs[k.home]), c, t) + ResponseInHand(s.rs[t].pc, c)
  }

  ghost predicate Flows(s: Server, H: Hash)
  {
    Routes(s, H) && forall c, t | 0 <= c < |s.conns| && 0 <= t < |s.rs| :: Flow(s, H, c, t)
  }

  /** The map after all commands of the history, run one after the other on one map. */
  function Serial(hist: seq<Done>): Map
  {
    if hist == [] then map[] else Apply(Serial(hist[..|hist| - 1]), hist[|hist| - 1].cmd)
  }

  ghost predicate Agrees(s: Server, H: Hash, k: Bytes)
    requires |s.rs| > 0
  {
    var m, g := s.rs[Shard(H, |s.rs|, k)].store, Serial(s.hist);
    (k in m <==> k in g) && (k in m ==> m[k] == g[k])
  }

  /** The shards' stores are one map, cut by key; every reply is the one a single map would have given. */
  ghost predicate Sharded(s: Server, H: Hash)
  {
    && |s.rs| > 0
    && (forall r, k | 0 <= r < |s.rs| && k in s.rs[r].store :: Shard(H, |s.rs|, k) == r)
    && (forall k: Bytes :: Agrees(s, H, k))
    && (forall i | 0 <= i < |s.hist| :: s.hist[i].reply == ReplyTo(Serial(s.hist[..i]), s.hist[i].cmd)
                                        && s.hist[i].shard == Shard(H, |s.rs|, s.hist[i].cmd.key))
  }

  // ----- queues -----

  lemma {:induction false} RequestsAppend(q: seq<Msg>, m: Msg, c: nat)
    ensures Requests(q + [m], c) == Requests(q, c) + Requests([m], c)
  {
    if q == [] {
      assert q + [m] == [m];
    } else {
      TailJoin(q, [m]);
      RequestsAppend(q[1..], m, c);
      Assoc(if q[0].Request? && q[0].conn == c then [Order(q[0].id, q[0].cmd)] else [],
            Requests(q[1..], c), Requests([m], c));
    }
  }

  lemma {:induction false} ResponsesAppend(q: seq<Msg>, m: Msg, c: nat, t: nat)
    ensures Responses(q + [m], c, t) == Responses(q, c, t) + Responses([m], c, t)
  {
    if q == [] {
      assert q + [m] == [m];
    } else {
      TailJoin(q, [m]);
      ResponsesAppend(q[1..], m, c, t);
      Assoc(if q[0].Response? && q[0].conn == c && q[0].from == t then [Answer(q[0].id, q[0].reply)] else [],
            Responses(q[1..], c, t), Responses([m], c, t));
    }
  }

  /** A shard never finds a request of a connection of its own in its queue, nor a response from itself. */
  lemma {:induction false} NothingFromSelf(q: seq<Msg>, c: nat, t: nat)
    requires forall j | 0 <= j < |q| :: (q[j].Request? ==> q[j].conn != c) && (q[j].Response? ==> q[j].from != t)
    ensures Requests(q, c) == [] && Responses(q, c, t) == []
  {
    if q != [] {
      NothingFromSelf(q[1..], c, t);
    }
  }

  lemma HistAppend(hist: seq<Done>, d: Done, c: nat, t: nat)
    ensures Executed(hist + [d], c, t)
            == if d.conn == c && d.shard == t then Executed(hist, c, t) + [Order(d.id, d.cmd)] else Executed(hist, c, t)
    ensures Answered(hist + [d], c, t)
            == if d.conn == c && d.shard == t then Answered(hist, c, t) + [Answer(d.id, d.reply)]
               else Answered(hist, c, t)
    ensures Serial(hist + [d]) == Apply(Serial(hist), d.cmd)
  {
    hide Apply;
    assert (hist + [d])[..|hist|] == hist;
  }

  lemma RepliesAppend(w: seq<Written>, x: Written, t: nat)
    ensures RepliesOf(w + [x], t) == if x.shard == t then RepliesOf(w, t) + [Answer(x.id, x.reply)] else RepliesOf(w, t)
  {
    assert (w + [x])[..|w|] == w;
  }

  // ----- steps that move no message -----

  /** `t` differs from `s` only in flags, marks and program points, none of them a message in hand. */
  ghost predicate SameData(s: Server, t: Server)
  {
    && t.hist == s.hist && |t.rs| == |s.rs| && |t.conns| == |s.conns|
    && (forall c | 0 <= c < |s.conns| :: t.conns[c] == s.conns[c].(waiting := t.conns[c].waiting))
    && (forall r | 0 <= r < |s.rs| :: Mail(t.rs[r]) == Mail(s.rs[r]) && t.rs[r].store == s.rs[r].store
                                      && (t.rs[r].pc == s.rs[r].pc || (!t.rs[r].pc.Sending? && !s.rs[r].pc.Sending?)))
  }

  lemma SameDataKeeps(s: Server, t: Server, H: Hash)
    requires SameData(s, t) && Flows(s, H) && Sharded(s, H)
    ensures Flows(t, H) && Sharded(t, H)
  {
    hide Mail, IssuedTo, Executed, Answered, Requests, Responses, RepliesOf, Serial, Shard, ReplyTo;
    forall c, x | 0 <= c < |t.conns| && 0 <= x < |t.rs|
      ensures Flow(t, H, c, x)
    {
      assert Flow(s, H, c, x);
    }
    forall k: Bytes
      ensures Agrees(t, H, k)
    {
      assert Agrees(s, H, k);
    }
  }

  /** The program points of a reactor at which `Tick` moves no message. */
  predicate Plain(pc: Pc)
  {
    !pc.Polling? && !pc.Sending?
  }

  lemma PlainTick(s: Server, r: nat)
    requires r < |s.rs| && Plain(s.rs[r].pc)
    ensures SameData(s, DoTick(s, r))
  {
    hide SameData, Wake, Publish, Signal, Mark, Send, Poll;
    match s.rs[r].pc
    case Waking(_) => WakeSame(s, r);
    case Signalling(_) => SignalSame(s, r);
    case Publishing(_, _, _) => PublishSame(s, r);
    case Marking(_, _, _) => MarkSame(s, r);
    case _ => SleepSame(s, r);
  }

  lemma SleepSame(s: Server, r: nat)
    requires r < |s.rs| && !s.rs[r].pc.Waking? && !s.rs[r].pc.Signalling? && !s.rs[r].pc.Publishing?
            && !s.rs[r].pc.Marking?
    requires Plain(s.rs[r].pc)
    ensures SameData(s, DoTick(s, r))
  {
    hide Wake, Publish, Signal, Mark, Send, Poll;
  }

  lemma WakeSame(s: Server, r: nat)
    requires r < |s.rs| && s.rs[r].pc.Waking?
    ensures SameData(s, Wake(s, r))
  {
  }

  lemma SignalSame(s: Server, r: nat)
    requires r < |s.rs| && s.rs[r].pc.Signalling?
    ensures SameData(s, Signal(s, r))
  {
  }

  lemma MarkSame(s: Server, r: nat)
    requires r < |s.rs| && s.rs[r].pc.Marking?
    ensures SameData(s, Mark(s, r))
  {
  }

  lemma PublishSame(s: Server, r: nat)
    requires r < |s.rs| && s.rs[r].pc.Publishing?
    ensures SameData(s, Publish(s, r))
  {
    hide Unpublished;
    if s.rs[r].pc.to < |s.rs| {
      ItemsAfter(s.rs[s.rs[r].pc.to].inbox, Ready(Unpublished(s.rs[s.rs[r].pc.to].inbox, r)));
    }
  }

  lemma IdlePoll(s: Server, r: nat)
    requires r < |s.rs| && s.rs[r].pc.Polling? && (s.rs[r].inbox == [] || !s.rs[r].inbox[0].ready)
    ensures SameData(s, Poll(s, r))
  {
  }

  lemma LoopSame(s: Server, H: Hash, a: Action)
    requires a.Drain? || a.Open? || a.Stop?
    ensures SameData(s, Do(s, H, a))
  {
  }

  // ----- sending -----

  /** A message leaves the hand of `r` for the end of the target's queue. */
  ghost predicate Sends(s: Server, t: Server, r: nat)
    requires r < |s.rs| && s.rs[r].pc.Sending?
  {
    var pc := s.rs[r].pc;
    && pc.to < |s.rs| == |t.rs| && t.conns == s.conns && t.hist == s.hist
    && t.rs[r].pc == Publishing(pc.to, pc.msg, pc.task)
    && (forall y | 0 <= y < |s.rs| :: t.rs[y].store == s.rs[y].store && (y != r ==> t.rs[y].pc == s.rs[y].pc))
    && Mail(t.rs[pc.to]) == Mail(s.rs[pc.to]) + [pc.msg]
    && (forall y | 0 <= y < |s.rs| && y != pc.to :: Mail(t.rs[y]) == Mail(s.rs[y]))
  }

  lemma SendEffect(s: Server, r: nat)
    requires r < |s.rs| && s.rs[r].pc.Sending?
    ensures Send(s, r) == s || Sends(s, Send(s, r), r)
  {
    var pc := s.rs[r].pc;
    if pc.to < |s.rs| {
      ItemsAfter(s.rs[pc.to].inbox, Claim(pc.msg));
    }
  }

  lemma SendRoutes(s: Server, t: Server, H: Hash, r: nat)
    requires Routes(s, H) && r < |s.rs| && s.rs[r].pc.Sending? && Sends(s, t, r)
    ensures Routes(t, H)
  {
    hide Shard, Mail;
    var pc := s.rs[r].pc;
    forall x, j | 0 <= x < |t.rs| && 0 <= j < |Mail(t.rs[x])|
      ensures Routed(t, H, Mail(t.rs[x])[j], Mail(t.rs[x])[j].from, x)
    {
      if x == pc.to && j == |Mail(s.rs[x])| {
        assert Routed(s, H, pc.msg, r, pc.to);
      } else {
        assert Mail(t.rs[x])[j] == Mail(s.rs[x])[j];
        assert Routed(s, H, Mail(s.rs[x])[j], Mail(s.rs[x])[j].from, x);
      }
    }
  }

  lemma SendFlow(s: Server, t: Server, H: Hash, r: nat, c: nat, x: nat)
    requires r < |s.rs| && s.rs[r].pc.Sending? && Sends(s, t, r) && Routed(s, H, s.rs[r].pc.msg, r, s.rs[r].pc.to)
    requires Homes(s) && c < |s.conns| && x < |s.rs| && Flow(s, H, c, x)
    ensures Flow(t, H, c, x)
  {
    hide IssuedTo, Executed, Answered, RepliesOf, Shard, Requests, Responses, Mail;
    var m, to := s.rs[r].pc.msg, s.rs[r].pc.to;
    RequestsAppend(Mail(s.rs[to]), m, c);
    ResponsesAppend(Mail(s.rs[to]), m, c, x);
    OneMessage(m, c, x);
  }

  lemma OneMessage(m: Msg, c: nat, t: nat)
    ensures Requests([m], c) == if m.Request? && m.conn == c then [Order(m.id, m.cmd)] else []
    ensures Responses([m], c, t) == if m.Response? && m.conn == c && m.from == t then [Answer(m.id, m.reply)] else []
  {
  }

  lemma SendKeeps(s: Server, H: Hash, r: nat)
    requires Flows(s, H) && Sharded(s, H) && r < |s.rs| && s.rs[r].pc.Sending?
    ensures Flows(Send(s, r), H) && Sharded(Send(s, r), H)
  {
    hide Flow, Routed, Sharded, Send;
    var t := Send(s, r);
    SendEffect(s, r);
    if t != s {
      SendRoutes(s, t, H, r);
      forall c, x | 0 <= c < |t.conns| && 0 <= x < |t.rs|
        ensures Flow(t, H, c, x)
      {
        SendFlow(s, t, H, r, c, x);
      }
      StoresSame(s, H, t);
    }
  }

  // ----- receiving -----

  predicate HasMail(s: Server, r: nat)
  {
    r < |s.rs| && s.rs[r].pc.Polling? && s.rs[r].inbox != [] && s.rs[r].inbox[0].ready
  }

  lemma MailFront(s: Server, r: nat)
    requires HasMail(s, r)
    ensures Mail(s.rs[r]) != [] && s.rs[r].inbox[0].item == Mail(s.rs[r])[0]
    ensures Mail(s.rs[r].(inbox := s.rs[r].inbox[1..])) == Mail(s.rs[r])[1..]
  {
    ItemsAfter(s.rs[r].inbox, Take(s.rs[r].inbox[0].item));
  }

  /** The first message `m` is taken from the queue of `r`, and nothing else moves there or elsewhere. */
  ghost predicate Takes(s: Server, t: Server, r: nat, m: Msg)
  {
    && r < |s.rs| == |t.rs| && Mail(s.rs[r]) == [m] + Mail(t.rs[r]) && !s.rs[r].pc.Sending?
    && (forall y | 0 <= y < |s.rs| && y != r :: t.rs[y] == s.rs[y])
  }

  /** A request taken: executed on the shard's store, entered in the history, its response in hand. */
  ghost predicate Serves(s: Server, t: Server, r: nat, m: Msg)
  {
    && Takes(s, t, r, m) && m.Request? && t.conns == s.conns
    && var reply := ReplyTo(s.rs[r].store, m.cmd);
      && t.hist == s.hist + [Done(m.conn, m.id, r, m.cmd, reply)] && t.rs[r].store == Apply(s.rs[r].store, m.cmd)
      && t.rs[r].pc.Sending? && t.rs[r].pc.to == m.from && t.rs[r].pc.msg == Response(r, m.conn, m.id, reply)
  }

  lemma ServeEffect(s: Server, r: nat)
    requires HasMail(s, r) && s.rs[r].inbox[0].item.Request?
    ensures Serves(s, Poll(s, r), r, s.rs[r].inbox[0].item)
  {
    hide ReplyTo, Apply;
    MailFront(s, r);
  }

  /** A response taken: its reply is appended to the send buffer of its connection. */
  ghost predicate Delivers(s: Server, t: Server, r: nat, m: Msg)
  {
    && Takes(s, t, r, m) && m.Response? && m.conn < |s.conns| && t.hist == s.hist
    && t.rs[r].pc.Working? && t.rs[r].store == s.rs[r].store
    && var k := s.conns[m.conn];
      t.conns == s.conns[m.conn := k.(waiting := false, replies := k.replies + [Written(m.id, m.from, m.reply)])]
  }

  lemma DeliverEffect(s: Server, r: nat)
    requires HasMail(s, r) && s.rs[r].inbox[0].item.Response? && s.rs[r].inbox[0].item.conn < |s.conns|
    ensures Delivers(s, Poll(s, r), r, s.rs[r].inbox[0].item)
  {
    MailFront(s, r);
  }

  /** What is left in the queues is as well routed as before. */
  lemma TakeRoutes(s: Server, t: Server, H: Hash, r: nat, m: Msg)
    requires Routes(s, H) && Takes(s, t, r, m) && Homes(t) && |t.conns| == |s.conns|
    requires forall c | 0 <= c < |s.conns| :: t.conns[c].home == s.conns[c].home && t.conns[c].next == s.conns[c].next
    requires t.rs[r].pc.Sending? ==> Routed(t, H, t.rs[r].pc.msg, r, t.rs[r].pc.to)
    ensures Routed(s, H, m, m.from, r) && Routes(t, H)
  {
    hide Shard, Mail;
    assert Mail(s.rs[r])[0] == m;
    assert Routed(s, H, Mail(s.rs[r])[0], Mail(s.rs[r])[0].from, r);
    forall x, j | 0 <= x < |t.rs| && 0 <= j < |Mail(t.rs[x])|
      ensures Routed(t, H, Mail(t.rs[x])[j], Mail(t.rs[x])[j].from, x)
    {
      var i := if x == r then j + 1 else j;
      assert Mail(t.rs[x])[j] == Mail(s.rs[x])[i];
      assert Routed(s, H, Mail(s.rs[x])[i], Mail(s.rs[x])[i].from, x);
    }
  }

  lemma FirstIsRouted(s: Server, H: Hash, r: nat, m: Msg, rest: seq<Msg>)
    requires Routes(s, H) && r < |s.rs| && Mail(s.rs[r]) == [m] + rest
    ensures Routed(s, H, m, m.from, r)
  {
    hide Shard, Mail;
    assert Mail(s.rs[r])[0] == m;
    assert Routed(s, H, Mail(s.rs[r])[0], Mail(s.rs[r])[0].from, r);
  }

  lemma FrontMessage(m: Msg, q: seq<Msg>, c: nat, t: nat)
    ensures Requests([m] + q, c)
            == if m.Request? && m.conn == c then [Order(m.id, m.cmd)] + Requests(q, c) else Requests(q, c)
    ensures Responses([m] + q, c, t)
            == if m.Response? && m.conn == c && m.from == t then [Answer(m.id, m.reply)] + Responses(q, c, t)
               else Responses(q, c, t)
  {
    assert ([m] + q)[1..] == q;
  }

  lemma MoveOne<T>(a: seq<T>, x: T, b: seq<T>, c: seq<T>)
    ensures a + ([x] + b) + c == a + [x] + b + c
  {
  }

  lemma ServeFlow(s: Server, t: Server, H: Hash, r: nat, m: Msg, c: nat, x: nat)
    requires Serves(s, t, r, m) && Routed(s, H, m, m.from, r)
    requires Homes(s) && c < |s.conns| && x < |s.rs| && Flow(s, H, c, x)
    ensures Flow(t, H, c, x)
  {
    hide IssuedTo, Executed, Answered, RepliesOf, Shard, Requests, Responses, Mail, ReplyTo, Apply;
    HistAppend(s.hist, t.hist[|s.hist|], c, x);
    FrontMessage(m, Mail(t.rs[r]), c, x);
    var k := s.conns[c];
    MoveOne(Executed(s.hist, c, x), Order(m.id, m.cmd), Requests(Mail(t.rs[r]), c),
        RequestInHand(s.rs[k.home].pc, c, x));
  }

  lemma DeliverFlow(s: Server, t: Server, H: Hash, r: nat, m: Msg, c: nat, x: nat)
    requires Delivers(s, t, r, m) && Routed(s, H, m, m.from, r)
    requires Homes(s) && c < |s.conns| && x < |s.rs| && Flow(s, H, c, x)
    ensures Flow(t, H, c, x)
  {
    hide IssuedTo, Executed, Answered, RepliesOf, Shard, Requests, Responses, Mail;
    var k := s.conns[c];
    RepliesAppend(k.replies, Written(m.id, m.from, m.reply), x);
    FrontMessage(m, Mail(t.rs[r]), c, x);
    MoveOne(RepliesOf(k.replies, x), Answer(m.id, m.reply), Responses(Mail(t.rs[r]), c, x),
        ResponseInHand(s.rs[x].pc, c));
  }

  // ----- executing -----

  /** Running a command on the shard of its key is running it on the one serial map. */
  lemma ExecuteSharded(s: Server, H: Hash, r: nat, d: Done, t: Server)
    requires Sharded(s, H) && r < |s.rs| && r == Shard(H, |s.rs|, d.cmd.key) && d.shard == r
    requires d.reply == ReplyTo(s.rs[r].store, d.cmd)
    requires |t.rs| == |s.rs| && t.hist == s.hist + [d] && t.rs[r].store == Apply(s.rs[r].store, d.cmd)
    requires forall y | 0 <= y < |s.rs| && y != r :: t.rs[y].store == s.rs[y].store
    ensures Sharded(t, H)
  {
    hide Shard, Serial, ReplyTo, Apply;
    var m, g := s.rs[r].store, Serial(s.hist);
    HistAppend(s.hist, d, 0, 0);
    assert Agrees(s, H, d.cmd.key);
    Local(m, g, d.cmd);
    Local(g, m, d.cmd);
    forall k: Bytes
      ensures Agrees(t, H, k)
    {
      assert Agrees(s, H, k);
    }
    forall i | 0 <= i < |t.hist|
      ensures t.hist[i].reply == ReplyTo(Serial(t.hist[..i]), t.hist[i].cmd)
      ensures t.hist[i].shard == Shard(H, |t.rs|, t.hist[i].cmd.key)
    {
      assert t.hist[..i] == s.hist[..i];
      assert i == |s.hist| ==> s.hist[..i] == s.hist;
    }
  }

  lemma StoresSame(s: Server, H: Hash, t: Server)
    requires Sharded(s, H) && |t.rs| == |s.rs| && t.hist == s.hist
    requires forall y | 0 <= y < |s.rs| :: t.rs[y].store == s.rs[y].store
    ensures Sharded(t, H)
  {
    hide Shard, Serial, ReplyTo;
    forall k: Bytes
      ensures Agrees(t, H, k)
    {
      assert Agrees(s, H, k);
    }
  }

  lemma ServeKeeps(s: Server, t: Server, H: Hash, r: nat, m: Msg)
    requires Flows(s, H) && Sharded(s, H) && Serves(s, t, r, m)
    ensures Flows(t, H) && Sharded(t, H)
  {
    hide Flow, Mail, Sharded, ReplyTo, Apply, Shard;
    FirstIsRouted(s, H, r, m, Mail(t.rs[r]));
    TakeRoutes(s, t, H, r, m);
    forall c, x | 0 <= c < |t.conns| && 0 <= x < |t.rs|
      ensures Flow(t, H, c, x)
    {
      ServeFlow(s, t, H, r, m, c, x);
    }
    ExecuteSharded(s, H, r, t.hist[|s.hist|], t);
  }

  lemma DeliverKeeps(s: Server, t: Server, H: Hash, r: nat, m: Msg)
    requires Flows(s, H) && Sharded(s, H) && Delivers(s, t, r, m)
    ensures Flows(t, H) && Sharded(t, H)
  {
    hide Flow, Mail, Sharded, ReplyTo, Apply, Shard;
    FirstIsRouted(s, H, r, m, Mail(t.rs[r]));
    TakeRoutes(s, t, H, r, m);
    forall c, x | 0 <= c < |t.conns| && 0 <= x < |t.rs|
      ensures Flow(t, H, c, x)
    {
      DeliverFlow(s, t, H, r, m, c, x);
    }
    StoresSame(s, H, t);
  }

  lemma PollKeeps(s: Server, H: Hash, r: nat)
    requires Flows(s, H) && Sharded(s, H) && HasMail(s, r)
    ensures Flows(Poll(s, r), H) && Sharded(Poll(s, r), H)
  {
    hide Flow, Mail, Poll, Sharded, Serves, Delivers;
    MailFront(s, r);
    var m := s.rs[r].inbox[0].item;
    if m.Request? {
      ServeEffect(s, r);
      ServeKeeps(s, Poll(s, r), H, r, m);
    } else {
      assert Routed(s, H, Mail(s.rs[r])[0], Mail(s.rs[r])[0].from, r);
      DeliverEffect(s, r);
      DeliverKeeps(s, Poll(s, r), H, r, m);
    }
  }

  // ----- issuing -----

  lemma OwnMailEmpty(s: Server, H: Hash, c: nat)
    requires Routes(s, H) && c < |s.conns|
    ensures var h := s.conns[c].home; Requests(Mail(s.rs[h]), c) == [] && Responses(Mail(s.rs[h]), c, h) == []
  {
    hide Mail, Shard;
    var h := s.conns[c].home;
    var q := Mail(s.rs[h]);
    forall j | 0 <= j < |q|
      ensures (q[j].Request? ==> q[j].conn != c) && (q[j].Response? ==> q[j].from != h)
    {
      assert Routed(s, H, q[j], q[j].from, h);
    }
    NothingFromSelf(q, c, h);
  }

  lemma IssuedNext(k: Conn, H: Hash, n: nat, t: nat)
    requires n > 0 && k.next < |k.todo|
    ensures IssuedTo(k.todo, k.next + 1, H, n, t)
            == if Shard(H, n, k.todo[k.next].key) == t
               then IssuedTo(k.todo, k.next, H, n, t) + [Order(k.next, k.todo[k.next])]
               else IssuedTo(k.todo, k.next, H, n, t)
  {
  }

  lemma IssueRoutes(s: Server, H: Hash, r: nat, c: nat, task: Task)
    requires Routes(s, H) && r < |s.rs| && s.rs[r].pc == Working(task) && c < |s.conns|
    ensures Routes(Issue(s, H, r, c, task), H)
  {
    hide ReplyTo, Apply, Shard;
    var t := Issue(s, H, r, c, task);
    forall x, j | 0 <= x < |t.rs| && 0 <= j < |Mail(t.rs[x])|
      ensures Routed(t, H, Mail(t.rs[x])[j], Mail(t.rs[x])[j].from, x)
    {
      assert Mail(t.rs[x]) == Mail(s.rs[x]);
      assert Routed(s, H, Mail(s.rs[x])[j], Mail(s.rs[x])[j].from, x);
    }
  }

  predicate Issues(s: Server, r: nat, c: nat)
  {
    c < |s.conns| && r < |s.rs| && s.conns[c].home == r && s.conns[c].next < |s.conns[c].todo|
  }

  /** A command of a key of our own: executed, entered in the history and answered in one go. */
  ghost predicate IssuedHere(s: Server, t: Server, H: Hash, c: nat)
    requires c < |s.conns| && Issues(s, s.conns[c].home, c)
  {
    var k, r := s.conns[c], s.conns[c].home;
    var w := Written(k.next, r, ReplyTo(s.rs[r].store, k.todo[k.next]));
    && Shard(H, |s.rs|, k.todo[k.next].key) == r && |t.rs| == |s.rs|
    && t.hist == s.hist + [Done(c, k.next, r, k.todo[k.next], w.reply)]
    && t.conns == s.conns[c := k.(next := k.next + 1, replies := k.replies + [w])]
    && (forall y | 0 <= y < |s.rs| :: t.rs[y].pc == s.rs[y].pc && Mail(t.rs[y]) == Mail(s.rs[y]))
  }

  /** A command of another shard's key: its request is in hand. */
  ghost predicate IssuedAway(s: Server, t: Server, H: Hash, c: nat)
    requires c < |s.conns| && Issues(s, s.conns[c].home, c)
  {
    var k, r := s.conns[c], s.conns[c].home;
    var x := Shard(H, |s.rs|, k.todo[k.next].key);
    && x != r && |t.rs| == |s.rs| && t.hist == s.hist && t.conns == s.conns[c := k.(next := k.next + 1)]
    && t.rs[r].pc.Sending? && t.rs[r].pc.to == x && t.rs[r].pc.msg == Request(r, c, k.next, k.todo[k.next])
    && (forall y | 0 <= y < |s.rs| && y != r :: t.rs[y].pc == s.rs[y].pc)
    && (forall y | 0 <= y < |s.rs| :: Mail(t.rs[y]) == Mail(s.rs[y]))
  }

  lemma IssueEffect(s: Server, H: Hash, r: nat, c: nat, task: Task)
    requires r < |s.rs| && c < |s.conns| && s.rs[r].pc == Working(task)
    ensures var t := Issue(s, H, r, c, task);
      if Issues(s, r, c) then IssuedHere(s, t, H, c) || IssuedAway(s, t, H, c) else t == s
  {
    hide ReplyTo, Apply, Shard;
  }

  /** With nothing queued and nothing in hand, both flow equations say the sequences are equal. */
  lemma OwnFlow(s: Server, H: Hash, c: nat)
    requires Routes(s, H) && c < |s.conns| && !s.rs[s.conns[c].home].pc.Sending? && Flow(s, H, c, s.conns[c].home)
    ensures var k := s.conns[c];
      && IssuedTo(k.todo, k.next, H, |s.rs|, k.home) == Executed(s.hist, c, k.home)
      && Answered(s.hist, c, k.home) == RepliesOf(k.replies, k.home)
  {
    hide IssuedTo, Executed, Answered, RepliesOf, Requests, Responses, Shard, Mail, Routed;
    OwnMailEmpty(s, H, c);
  }

  lemma HereFlow(s: Server, t: Server, H: Hash, c: nat, d: nat, x: nat)
    requires Routes(s, H) && c < |s.conns| && Issues(s, s.conns[c].home, c) && !s.rs[s.conns[c].home].pc.Sending?
    requires IssuedHere(s, t, H, c) && d < |s.conns| && x < |s.rs| && Flow(s, H, d, x)
    ensures Flow(t, H, d, x)
  {
    hide IssuedHere, Routed, Flow;
    if d != c {
      HereFlowOther(s, t, H, c, d, x);
    } else if x == s.conns[c].home {
      HereFlowOwn(s, t, H, c);
    } else {
      HereFlowApart(s, t, H, c, x);
    }
  }

  lemma HereFlowOther(s: Server, t: Server, H: Hash, c: nat, d: nat, x: nat)
    requires Homes(s) && c < |s.conns| && Issues(s, s.conns[c].home, c)
    requires IssuedHere(s, t, H, c) && d < |s.conns| && d != c && x < |s.rs| && Flow(s, H, d, x)
    ensures Flow(t, H, d, x)
  {
    hide IssuedTo, Executed, Answered, RepliesOf, Requests, Responses, Shard, ReplyTo, Mail;
    HistAppend(s.hist, t.hist[|s.hist|], d, x);
  }

  lemma HereFlowApart(s: Server, t: Server, H: Hash, c: nat, x: nat)
    requires Homes(s) && c < |s.conns| && Issues(s, s.conns[c].home, c)
    requires IssuedHere(s, t, H, c) && x < |s.rs| && x != s.conns[c].home && Flow(s, H, c, x)
    ensures Flow(t, H, c, x)
  {
    hide IssuedTo, Executed, Answered, RepliesOf, Requests, Responses, Shard, ReplyTo, Mail;
    var k := s.conns[c];
    HistAppend(s.hist, t.hist[|s.hist|], c, x);
    IssuedNext(k, H, |s.rs|, x);
    RepliesAppend(k.replies, t.conns[c].replies[|k.replies|], x);
  }

  lemma HereFlowOwn(s: Server, t: Server, H: Hash, c: nat)
    requires Routes(s, H) && c < |s.conns| && Issues(s, s.conns[c].home, c) && !s.rs[s.conns[c].home].pc.Sending?
    requires IssuedHere(s, t, H, c) && Flow(s, H, c, s.conns[c].home)
    ensures Flow(t, H, c, s.conns[c].home)
  {
    hide IssuedTo, Executed, Answered, RepliesOf, Requests, Responses, Shard, ReplyTo, Mail, Routed;
    var k := s.conns[c];
    HistAppend(s.hist, t.hist[|s.hist|], c, k.home);
    IssuedNext(k, H, |s.rs|, k.home);
    RepliesAppend(k.replies, t.conns[c].replies[|k.replies|], k.home);
    OwnFlow(s, H, c);
    OwnMailEmpty(s, H, c);
  }

  lemma AwayFlow(s: Server, t: Server, H: Hash, c: nat, d: nat, x: nat)
    requires Homes(s) && c < |s.conns| && Issues(s, s.conns[c].home, c) && !s.rs[s.conns[c].home].pc.Sending?
    requires IssuedAway(s, t, H, c) && d < |s.conns| && x < |s.rs| && Flow(s, H, d, x)
    ensures Flow(t, H, d, x)
  {
    hide IssuedTo, Executed, Answered, RepliesOf, Requests, Responses, Shard, ReplyTo, Mail;
    IssuedNext(s.conns[c], H, |s.rs|, x);
  }

  lemma IssueKeeps(s: Server, H: Hash, r: nat, c: nat, task: Task)
    requires Flows(s, H) && Sharded(s, H) && r < |s.rs| && s.rs[r].pc == Working(task) && c < |s.conns|
    ensures Flows(Issue(s, H, r, c, task), H) && Sharded(Issue(s, H, r, c, task), H)
  {
    hide Flow, Sharded, Routed, ReplyTo, Apply, IssuedHere, IssuedAway;
    var t := Issue(s, H, r, c, task);
    IssueRoutes(s, H, r, c, task);
    IssueEffect(s, H, r, c, task);
    forall d, x | 0 <= d < |t.conns| && 0 <= x < |t.rs|
      ensures Flow(t, H, d, x)
    {
      if Issues(s, r, c) {
        if IssuedHere(s, t, H, c) {
          HereFlow(s, t, H, c, d, x);
        } else {
          AwayFlow(s, t, H, c, d, x);
        }
      }
    }
    if |t.hist| > |s.hist| {
      ExecuteSharded(s, H, r, t.hist[|s.hist|], t);
    } else {
      StoresSame(s, H, t);
    }
  }
}
