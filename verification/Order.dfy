/** The order of the replies on one connection: request order, exactly when all commands from the first remote one on go
    to the same shard. */
module Order {
  import opened Bits
  import opened Inboxes
  import opened Commands
  import opened Reactors
  import opened Dispatch
  import opened Wakeup
  import opened Servers
  import opened Seqs

  /** What a client can check before it sends: behind the first command for another shard than its own all commands are
      for that shard. */
  predicate OneTarget(todo: seq<Cmd>, home: nat, H: Hash, n: nat)
    requires n > 0
  {
    forall i, j | 0 <= i < j < |todo| && Shard(H, n, todo[i].key) != home ::
      Shard(H, n, todo[j].key) == Shard(H, n, todo[i].key)
  }

  /** The replies answer the commands in the order in which they were sent. */
  predicate Numbered(w: seq<Written>)
  {
    forall i | 0 <= i < |w| :: w[i].id == i
  }

  // ----- no local reply behind a remote one -----

  predicate HomeFirst(w: seq<Written>, home: nat)
  {
    forall i, j | 0 <= i < j < |w| && w[j].shard == home :: w[i].shard == home
  }

  ghost predicate LinedUp(k: Conn, H: Hash, n: nat)
    requires n > 0
  {
    (forall i | 0 <= i < |k.replies| :: k.replies[i].shard < n)
    && (OneTarget(k.todo, k.home, H, n) ==> HomeFirst(k.replies, k.home))
  }

  ghost predicate Lined(s: Server, H: Hash)
  {
    |s.rs| > 0 && forall c | 0 <= c < |s.conns| :: LinedUp(s.conns[c], H, |s.rs|)
  }

  /** What one action may do to a connection: nothing to its commands, and at most one reply more, of another shard or
      of a command of its own shard that was next. */
  ghost predicate ConnStep(k: Conn, l: Conn, H: Hash, n: nat)
    requires n > 0
  {
    && l.todo == k.todo && l.home == k.home
    && (l.replies == k.replies
        || exists w :: l.replies == k.replies + [w] && w.shard < n
                       && (w.shard == k.home ==> k.next < |k.todo| && Shard(H, n, k.todo[k.next].key) == k.home))
  }

  ghost predicate ConnsStep(s: Server, t: Server, H: Hash)
    requires |s.rs| > 0
  {
    && |t.rs| == |s.rs| && |t.conns| == |s.conns|
    && forall c | 0 <= c < |s.conns| :: ConnStep(s.conns[c], t.conns[c], H, |s.rs|)
  }

  lemma PollConns(s: Server, H: Hash, r: nat)
    requires Routes(s, H) && r < |s.rs| && s.rs[r].pc.Polling?
    ensures ConnsStep(s, Poll(s, r), H)
  {
    hide ReplyTo, Apply, Shard, OneTarget;
    var t := Poll(s, r);
    if HasMail(s, r) && s.rs[r].inbox[0].item.Response? {
      MailFront(s, r);
      var m := Mail(s.rs[r])[0];
      assert Routed(s, H, m, m.from, r);
      var w := Written(m.id, m.from, m.reply);
      assert t.conns[m.conn].replies == s.conns[m.conn].replies + [w];
    }
  }

  lemma IssueConns(s: Server, H: Hash, r: nat, c: nat, task: Task)
    requires |s.rs| > 0 && r < |s.rs| && c < |s.conns|
    ensures ConnsStep(s, Issue(s, H, r, c, task), H)
  {
    hide ReplyTo, Apply;
    var k, t := s.conns[c], Issue(s, H, r, c, task);
    if k.home == r && k.next < |k.todo| && Shard(H, |s.rs|, k.todo[k.next].key) == r {
      var w := Written(k.next, r, ReplyTo(s.rs[r].store, k.todo[k.next]));
      assert t.conns[c].replies == k.replies + [w];
    }
  }

  lemma OtherConns(s: Server, H: Hash, a: Action)
    requires |s.rs| > 0 && !a.Handle? && (a.Tick? && a.r < |s.rs| ==> !s.rs[a.r].pc.Polling?)
    ensures ConnsStep(s, Do(s, H, a), H)
  {
    hide ReplyTo, Apply, Shard, After, Unpublished;
  }

  lemma AnyConns(s: Server, H: Hash, a: Action)
    requires Routes(s, H)
    ensures ConnsStep(s, Do(s, H, a), H)
  {
    hide Issue, Poll, ConnStep, Routed;
    if a.Handle? && Do(s, H, a) != s {
      IssueConns(s, H, a.r, s.rs[a.r].pc.task.conn, s.rs[a.r].pc.task);
    } else if a.Handle? {
      SameConns(s, H);
    } else if a.Tick? && a.r < |s.rs| && s.rs[a.r].pc.Polling? {
      PollConns(s, H, a.r);
    } else {
      OtherConns(s, H, a);
    }
  }

  lemma SameConns(s: Server, H: Hash)
    requires |s.rs| > 0
    ensures ConnsStep(s, s, H)
  {
  }

  /** Nothing was issued to a shard that none of the commands is for. */
  lemma {:induction false} IssuedNone(todo: seq<Cmd>, k: nat, H: Hash, n: nat, x: nat)
    requires n > 0 && k <= |todo| && forall i | 0 <= i < k :: Shard(H, n, todo[i].key) != x
    ensures IssuedTo(todo, k, H, n, x) == []
  {
    hide Shard;
    if k > 0 {
      IssuedNone(todo, k - 1, H, n, x);
    }
  }

  lemma {:induction false} ReplyFound(w: seq<Written>, i: nat)
    requires i < |w|
    ensures RepliesOf(w, w[i].shard) != []
    decreases |w|
  {
    if i < |w| - 1 {
      ReplyFound(w[..|w| - 1], i);
    }
  }

  /** Replies written for a shard are the first answers to what was issued to it. */
  lemma FlowIds(s: Server, H: Hash, c: nat, x: nat)
    requires Homes(s) && c < |s.conns| && x < |s.rs| && Flow(s, H, c, x)
    ensures var k := s.conns[c];
      AnswerIds(RepliesOf(k.replies, x)) <= OrderIds(IssuedTo(k.todo, k.next, H, |s.rs|, x))
  {
    hide IssuedTo, Executed, Answered, RepliesOf, Requests, Responses, Mail, ResponseInHand, RequestInHand, OrderIds,
         AnswerIds;
    var k := s.conns[c];
    ExecutedAnswered(s.hist, c, x);
    var e, q, h := Executed(s.hist, c, x), Requests(Mail(s.rs[x]), c), RequestInHand(s.rs[k.home].pc, c, x);
    OrderIdsJoin(e + q, h);
    OrderIdsJoin(e, q);
    var w, p, g := RepliesOf(k.replies, x), Responses(Mail(s.rs[k.home]), c, x), ResponseInHand(s.rs[x].pc, c);
    AnswerIdsJoin(w + p, g);
    AnswerIdsJoin(w, p);
  }

  lemma NoReply(s: Server, H: Hash, c: nat, x: nat)
    requires Homes(s) && c < |s.conns| && x < |s.rs| && Flow(s, H, c, x)
    requires var k := s.conns[c]; forall i | 0 <= i < k.next :: Shard(H, |s.rs|, k.todo[i].key) != x
    ensures RepliesOf(s.conns[c].replies, x) == []
  {
    hide Flow;
    var k := s.conns[c];
    IssuedNone(k.todo, k.next, H, |s.rs|, x);
    FlowIds(s, H, c, x);
  }

  /** A local command that is next has only local ones before it, so all replies so far are local. */
  lemma AllLocal(s: Server, H: Hash, c: nat)
    requires Flows(s, H) && Lined(s, H) && c < |s.conns| && s.conns[c].next < |s.conns[c].todo|
    requires var k := s.conns[c];
      OneTarget(k.todo, k.home, H, |s.rs|) && Shard(H, |s.rs|, k.todo[k.next].key) == k.home
    ensures forall i | 0 <= i < |s.conns[c].replies| :: s.conns[c].replies[i].shard == s.conns[c].home
  {
    hide Flow, Routed, Shard, RepliesOf;
    var k := s.conns[c];
    forall i | 0 <= i < |k.replies|
      ensures k.replies[i].shard == k.home
    {
      var x := k.replies[i].shard;
      ReplyFound(k.replies, i);
      assert LinedUp(k, H, |s.rs|);
      if x != k.home {
        assert Flow(s, H, c, x);
        NoReply(s, H, c, x);
      }
    }
  }

  lemma LinedStep(s: Server, H: Hash, a: Action)
    requires Flows(s, H) && Lined(s, H)
    ensures Lined(Do(s, H, a), H)
  {
    hide Flow, Routed, Do;
    var t := Do(s, H, a);
    AnyConns(s, H, a);
    forall c | 0 <= c < |t.conns|
      ensures LinedUp(t.conns[c], H, |t.rs|)
    {
      assert ConnStep(s.conns[c], t.conns[c], H, |s.rs|);
      LinedConn(s, t, H, c);
    }
  }

  lemma LinedConn(s: Server, t: Server, H: Hash, c: nat)
    requires Flows(s, H) && Lined(s, H) && c < |s.conns| == |t.conns| && ConnStep(s.conns[c], t.conns[c], H, |s.rs|)
    ensures LinedUp(t.conns[c], H, |s.rs|)
  {
    hide Flow, Routed, Shard;
    var k, l := s.conns[c], t.conns[c];
    assert LinedUp(k, H, |s.rs|);
    if OneTarget(k.todo, k.home, H, |s.rs|) && k.next < |k.todo| && Shard(H, |s.rs|, k.todo[k.next].key) == k.home {
      AllLocal(s, H, c);
    }
  }

  // ----- the replies come in order -----

  function Upto(k: nat): seq<nat>
  {
    seq(k, (i: nat) => i)
  }

  function Ids(w: seq<Written>): seq<nat>
  {
    seq(|w|, (i: nat) requires i < |w| => w[i].id)
  }

  lemma IssuedMore(todo: seq<Cmd>, k: nat, H: Hash, n: nat, x: nat)
    requires n > 0 && 0 < k <= |todo|
    ensures OrderIds(IssuedTo(todo, k, H, n, x))
            == if Shard(H, n, todo[k - 1].key) == x then OrderIds(IssuedTo(todo, k - 1, H, n, x)) + [k - 1]
               else OrderIds(IssuedTo(todo, k - 1, H, n, x))
  {
    hide Shard;
    OrderIdsJoin(IssuedTo(todo, k - 1, H, n, x), [Order(k - 1, todo[k - 1])]);
    assert OrderIds([Order(k - 1, todo[k - 1])]) == [k - 1];
    assert IssuedTo(todo, k - 1, H, n, x) + [] == IssuedTo(todo, k - 1, H, n, x);
  }

  lemma NoIds(todo: seq<Cmd>, k: nat, H: Hash, n: nat, x: nat)
    requires n > 0 && k <= |todo| && IssuedTo(todo, k, H, n, x) == []
    ensures OrderIds(IssuedTo(todo, k, H, n, x)) == []
  {
  }

  lemma UptoNext(k: nat)
    ensures Upto(k) + [k] == Upto(k + 1) && Upto(0) == []
  {
  }

  /** With two shards in play, the home shard first, the commands issued are those to the one, then those to the
      other. */
  lemma {:induction false} IssuedIds(todo: seq<Cmd>, k: nat, H: Hash, n: nat, home: nat, x: nat)
    requires n > 0 && k <= |todo| && x != home && OneTarget(todo, home, H, n)
    requires forall i | 0 <= i < k :: Shard(H, n, todo[i].key) == home || Shard(H, n, todo[i].key) == x
    ensures OrderIds(IssuedTo(todo, k, H, n, home)) + OrderIds(IssuedTo(todo, k, H, n, x)) == Upto(k)
  {
    hide Shard, OrderIds, IssuedTo, Upto;
    if k == 0 {
      IssuedNone(todo, 0, H, n, home);
      IssuedNone(todo, 0, H, n, x);
      NoIds(todo, 0, H, n, home);
      NoIds(todo, 0, H, n, x);
      UptoNext(0);
    } else {
      IssuedIds(todo, k - 1, H, n, home, x);
      IssuedMore(todo, k, H, n, home);
      IssuedMore(todo, k, H, n, x);
      UptoNext(k - 1);
      if Shard(H, n, todo[k - 1].key) == home {
        IssuedNone(todo, k - 1, H, n, x);
        NoIds(todo, k - 1, H, n, x);
      } else {
        Assoc(OrderIds(IssuedTo(todo, k - 1, H, n, home)), OrderIds(IssuedTo(todo, k - 1, H, n, x)), [k - 1]);
      }
    }
  }

  lemma RepliesMore(w: seq<Written>, x: nat)
    requires w != []
    ensures var f, l := w[..|w| - 1], w[|w| - 1];
      AnswerIds(RepliesOf(w, x))
      == if l.shard == x then AnswerIds(RepliesOf(f, x)) + [l.id] else AnswerIds(RepliesOf(f, x))
  {
    var f, l := w[..|w| - 1], w[|w| - 1];
    AnswerIdsJoin(RepliesOf(f, x), [Answer(l.id, l.reply)]);
    assert AnswerIds([Answer(l.id, l.reply)]) == [l.id];
    assert RepliesOf(f, x) + [] == RepliesOf(f, x);
  }

  lemma IdsMore(w: seq<Written>)
    ensures w == [] ==> Ids(w) == []
    ensures w != [] ==> Ids(w) == Ids(w[..|w| - 1]) + [w[|w| - 1].id]
  {
  }

  /** The replies are those of the home shard, then those of the other. */
  lemma {:induction false} RepliedIds(w: seq<Written>, home: nat, x: nat)
    requires x != home && HomeFirst(w, home)
    requires forall i | 0 <= i < |w| :: w[i].shard == home || w[i].shard == x
    ensures Ids(w) == AnswerIds(RepliesOf(w, home)) + AnswerIds(RepliesOf(w, x))
    decreases |w|
  {
    hide AnswerIds, RepliesOf, Ids;
    IdsMore(w);
    if w == [] {
      NoneOf(w, home);
      NoneOf(w, x);
      NoAnswers(w, home);
      NoAnswers(w, x);
    } else {
      var f, l := w[..|w| - 1], w[|w| - 1];
      RepliedIds(f, home, x);
      RepliesMore(w, home);
      RepliesMore(w, x);
      if l.shard == home {
        NoneOf(f, x);
        NoAnswers(f, x);
      } else {
        Assoc(AnswerIds(RepliesOf(f, home)), AnswerIds(RepliesOf(f, x)), [l.id]);
      }
    }
  }

  lemma NoAnswers(w: seq<Written>, x: nat)
    requires RepliesOf(w, x) == []
    ensures AnswerIds(RepliesOf(w, x)) == []
  {
  }

  lemma {:induction false} NoneOf(w: seq<Written>, x: nat)
    requires forall i | 0 <= i < |w| :: w[i].shard != x
    ensures RepliesOf(w, x) == []
    decreases |w|
  {
    if w != [] {
      NoneOf(w[..|w| - 1], x);
    }
  }

  /** Of its own shard's commands a connection has all answers at once. */
  lemma HomeAnswered(s: Server, H: Hash, c: nat)
    requires Flows(s, H) && c < |s.conns|
    ensures var k := s.conns[c];
      AnswerIds(RepliesOf(k.replies, k.home)) == OrderIds(IssuedTo(k.todo, k.next, H, |s.rs|, k.home))
  {
    hide IssuedTo, Executed, Answered, RepliesOf, Requests, Responses, Mail, OrderIds, AnswerIds, Shard;
    var k := s.conns[c];
    var pc := s.rs[k.home].pc;
    OwnMailEmpty(s, H, c);
    assert Flow(s, H, c, k.home);
    if pc.Sending? {
      assert Routed(s, H, pc.msg, k.home, pc.to);
    }
    assert RequestInHand(pc, c, k.home) == [] && ResponseInHand(pc, c) == [];
    var e, w := Executed(s.hist, c, k.home), RepliesOf(k.replies, k.home);
    assert e + [] + [] == e && w + [] + [] == w;
    ExecutedAnswered(s.hist, c, k.home);
  }

  /** The other shard in play, if there is one. */
  lemma Other(s: Server, H: Hash, c: nat) returns (x: nat)
    requires Homes(s) && c < |s.conns| && OneTarget(s.conns[c].todo, s.conns[c].home, H, |s.rs|)
    ensures var k := s.conns[c];
      x != k.home
      && forall i | 0 <= i < k.next :: Shard(H, |s.rs|, k.todo[i].key) == k.home || Shard(H, |s.rs|, k.todo[i].key) == x
  {
    hide Shard;
    var k := s.conns[c];
    if i :| 0 <= i < k.next && Shard(H, |s.rs|, k.todo[i].key) != k.home {
      x := Shard(H, |s.rs|, k.todo[i].key);
    } else {
      x := |s.rs|;
    }
  }

  lemma OnlyThose(s: Server, H: Hash, c: nat, x: nat)
    requires Flows(s, H) && Lined(s, H) && c < |s.conns|
    requires var k := s.conns[c];
      forall i | 0 <= i < k.next :: Shard(H, |s.rs|, k.todo[i].key) == k.home || Shard(H, |s.rs|, k.todo[i].key) == x
    ensures var k := s.conns[c];
      forall i | 0 <= i < |k.replies| :: k.replies[i].shard == k.home || k.replies[i].shard == x
  {
    hide Flow, Routed, Shard, RepliesOf;
    var k := s.conns[c];
    forall i | 0 <= i < |k.replies|
      ensures k.replies[i].shard == k.home || k.replies[i].shard == x
    {
      var y := k.replies[i].shard;
      assert LinedUp(k, H, |s.rs|);
      ReplyFound(k.replies, i);
      if y != k.home && y != x {
        assert Flow(s, H, c, y);
        NoReply(s, H, c, y);
      }
    }
  }

  /** A state in which everything balances answers a one-target connection in order. */
  lemma InOrderNow(s: Server, H: Hash, c: nat)
    requires Flows(s, H) && Lined(s, H) && c < |s.conns| && OneTarget(s.conns[c].todo, s.conns[c].home, H, |s.rs|)
    ensures Numbered(s.conns[c].replies)
  {
    hide Flow, Routed, Shard, OneTarget, IssuedTo, RepliesOf, OrderIds, AnswerIds;
    var k := s.conns[c];
    assert LinedUp(k, H, |s.rs|);
    var x := Other(s, H, c);
    OnlyThose(s, H, c, x);
    IssuedIds(k.todo, k.next, H, |s.rs|, k.home, x);
    RepliedIds(k.replies, k.home, x);
    HomeAnswered(s, H, c);
    if x < |s.rs| {
      assert Flow(s, H, c, x);
      FlowIds(s, H, c, x);
    } else {
      NoneOf(k.replies, x);
      NoAnswers(k.replies, x);
    }
    PrefixIds(k.replies, AnswerIds(RepliesOf(k.replies, k.home)), AnswerIds(RepliesOf(k.replies, x)),
              OrderIds(IssuedTo(k.todo, k.next, H, |s.rs|, x)), k.next);
  }

  lemma PrefixIds(w: seq<Written>, a: seq<nat>, b: seq<nat>, more: seq<nat>, k: nat)
    requires Ids(w) == a + b && a + more == Upto(k) && b <= more
    ensures Numbered(w)
  {
    forall i | 0 <= i < |w|
      ensures w[i].id == i
    {
      assert Ids(w)[i] == w[i].id;
      assert (a + b)[i] == (a + more)[i] == Upto(k)[i];
    }
  }

  /** If all commands from the first remote one on go to the same shard, the replies come in request order, in every run
      of every server. */
  lemma {:induction false} OrderedRun(s: Server, H: Hash, run: seq<Action>, c: nat)
    requires Start(s) && c < |s.conns|
    ensures var t := Exec(s, H, run);
      && Lined(t, H) && |t.rs| == |s.rs| && |t.conns| == |s.conns|
      && t.conns[c].todo == s.conns[c].todo && t.conns[c].home == s.conns[c].home
      && (OneTarget(s.conns[c].todo, s.conns[c].home, H, |s.rs|) ==> Numbered(t.conns[c].replies))
    decreases |run|
  {
    hide Flow, Routed, Do, LinedUp, ConnStep, OneTarget, Numbered, Alert, Sharded, Waits;
    if run == [] {
      StartLined(s, H);
      StartInv(s, H);
    } else {
      var front := run[..|run| - 1];
      OrderedRun(s, H, front, c);
      ExecInv(s, H, front);
      var t, a := Exec(s, H, front), run[|run| - 1];
      AnyConns(t, H, a);
      assert ConnStep(t.conns[c], Do(t, H, a).conns[c], H, |t.rs|);
      StepKeepsList(t.conns[c], Do(t, H, a).conns[c], H, |t.rs|);
      LinedStep(t, H, a);
      ExecInv(s, H, run);
    }
    if OneTarget(s.conns[c].todo, s.conns[c].home, H, |s.rs|) {
      InOrderNow(Exec(s, H, run), H, c);
    }
  }

  lemma StepKeepsList(k: Conn, l: Conn, H: Hash, n: nat)
    requires n > 0 && ConnStep(k, l, H, n)
    ensures l.todo == k.todo && l.home == k.home
  {
  }

  lemma StartLined(s: Server, H: Hash)
    requires Start(s)
    ensures Lined(s, H)
  {
  }
}
