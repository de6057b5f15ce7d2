/** A message on its way with the queues spelled out: from the sender's first access to the callback at the target. */
module Delivery {
  import opened Bits
  import opened Inboxes
  import opened Commands
  import opened Reactors
  import opened Composed
  import Mpmc
  import Solo
  import Threads

  type Queue = Mpmc.State<Msg>

  /** A queue of a server of `n` reactors. */
  ghost predicate Sound(q: Queue, n: nat)
  {
    Mpmc.Inv(q) && |q.producers| == n && |q.consumers| == 1
  }

  ghost predicate Good(f: Core)
  {
    |f.queues| == |f.got| == |f.loaded| == |f.s.rs| && forall x | 0 <= x < |f.queues| :: Sound(f.queues[x], |f.s.rs|)
  }

  lemma GoodFormed(f: Core)
    requires Good(f)
    ensures Formed(f)
  {
    hide Mpmc.CellsOk, Mpmc.ProducersOk, Mpmc.ConsumersOk, Mpmc.Faithful;
  }

  function Put(f: Core, x: nat, q: Queue, s: Server): Core
    requires x < |f.queues|
  {
    f.(queues := f.queues[x := q], s := s)
  }

  lemma PutTwice(f: Core, x: nat, q: Queue, s: Server, u: Queue, v: Server)
    requires x < |f.queues|
    ensures Put(Put(f, x, q, s), x, u, v) == Put(f, x, u, v)
  {
    assert f.queues[x := q][x := u] == f.queues[x := u];
  }

  lemma PutGood(f: Core, x: nat, q: Queue, s: Server)
    requires Good(f) && x < |f.queues| && Sound(q, |f.s.rs|) && |s.rs| == |f.s.rs|
    ensures Good(Put(f, x, q, s))
  {
    hide Sound;
  }

  // ----- steps -----

  ghost predicate Reaches(f: Core, g: Core, H: Hash)
  {
    exists steps: seq<Step> :: Runs(f, H, steps, g)
  }

  lemma ReachSelf(f: Core, H: Hash)
    ensures Reaches(f, f, H)
  {
    assert Runs(f, H, [], f);
  }

  lemma ReachStep(f: Core, g: Core, H: Hash, step: Step)
    requires Reaches(f, g, H) && Formed(g)
    ensures Reaches(f, StepOf(g, H, step), H)
  {
    hide StepOf, Formed;
    var steps: seq<Step> :| Runs(f, H, steps, g);
    var more := steps + [step];
    assert more[..|more| - 1] == steps;
    assert Runs(f, H, more, StepOf(g, H, step));
  }

  // ----- the sender -----

  /** One access of sender `r` takes the queue from `q` to `t`. */
  lemma SendAccess(f0: Core, f: Core, H: Hash, r: nat, x: nat, q: Queue, t: Queue)
    requires Good(f0) && r < |f0.s.rs| && x < |f0.s.rs| && f0.s.rs[r].pc.Sending? && f0.s.rs[r].pc.to == x
    requires Sound(q, |f0.s.rs|) && Sound(t, |f0.s.rs|) && Reaches(f, Put(f0, x, q, f0.s), H)
    requires t == Mpmc.Do(q, Threads.SenderAction(q.producers[r], r, f0.s.rs[r].pc.msg, false))
    ensures var pc := f0.s.rs[r].pc;
      var next := if t.producers[r].PClaimed? then Goto(f0.s, r, Publishing(x, pc.msg, pc.task)) else f0.s;
      Reaches(f, Put(f0, x, t, next), H)
  {
    hide Mpmc.Do, Mpmc.Inv, Threads.SenderAction, Reaches, Formed, Goto;
    var h := Put(f0, x, q, f0.s);
    PutGood(f0, x, q, f0.s);
    GoodFormed(h);
    ReachStep(f, h, H, Access(r, false));
    var pc := f0.s.rs[r].pc;
    var next := if t.producers[r].PClaimed? then Goto(f0.s, r, Publishing(x, pc.msg, pc.task)) else f0.s;
    PutTwice(f0, x, q, f0.s, t, next);
    assert SenderDoes(h, x, r, f0.s.rs[r].pc.msg, false) == t;
  }

  lemma PublishAccess(f0: Core, s: Server, f: Core, H: Hash, r: nat, x: nat, q: Queue, t: Queue)
    requires Good(f0) && |s.rs| == |f0.s.rs| && r < |s.rs| && x < |s.rs| && s.rs[r].pc.Publishing? && s.rs[r].pc.to == x
    requires Sound(q, |s.rs|) && Sound(t, |s.rs|) && Reaches(f, Put(f0, x, q, s), H)
    requires t == Mpmc.Do(q, Threads.SenderAction(q.producers[r], r, s.rs[r].pc.msg, false))
    ensures var pc := s.rs[r].pc;
      Reaches(f, Put(f0, x, t, if t.producers[r].PIdle? then Goto(s, r, Marking(x, pc.msg, pc.task)) else s), H)
  {
    hide Mpmc.Do, Mpmc.Inv, Threads.SenderAction, Reaches, Formed, Goto;
    var h := Put(f0, x, q, s);
    PutGood(f0, x, q, s);
    GoodFormed(h);
    ReachStep(f, h, H, Access(r, false));
    var next := if t.producers[r].PIdle? then Goto(s, r, Marking(x, s.rs[r].pc.msg, s.rs[r].pc.task)) else s;
    PutTwice(f0, x, q, s, t, next);
    assert SenderDoes(h, x, r, s.rs[r].pc.msg, false) == t;
  }

  /** Where the sender's reactor stands when its message is published. */
  function SentState(s: Server, r: nat): Server
    requires r < |s.rs| && s.rs[r].pc.Sending?
  {
    var pc := s.rs[r].pc;
    Goto(s, r, Marking(pc.to, pc.msg, pc.task))
  }

  lemma SoundAfter(q: Queue, a: Mpmc.Action<Msg>, n: nat)
    requires Sound(q, n)
    ensures Sound(Mpmc.Do(q, a), n) && |Mpmc.Do(q, a).cells| == |q.cells|
  {
    Mpmc.DoKeeps(q, a);
    hide Mpmc.CellsOk, Mpmc.ProducersOk, Mpmc.ConsumersOk, Mpmc.Faithful, Mpmc.CellOf, IsPow2, BitAnd;
  }

  /** The four accesses up to the claim. */
  lemma Claims(f0: Core, H: Hash, r: nat, x: nat) returns (t: Queue)
    requires Good(f0) && r < |f0.s.rs| && x < |f0.s.rs| && f0.s.rs[r].pc.Sending? && f0.s.rs[r].pc.to == x
    requires Sound(f0.queues[x], |f0.s.rs|) && f0.queues[x].producers[r].PIdle?
    requires |f0.queues[x].cells| > 0 && Solo.Free(f0.queues[x])
    ensures var q, pc := f0.queues[x], f0.s.rs[r].pc;
      var q1 := Mpmc.Do(Mpmc.Do(q, Mpmc.Enqueue(r, pc.msg)), Mpmc.LoadEnq(r));
      && t == Mpmc.Do(Mpmc.Do(q1, Mpmc.ProbeEnq(r)), Mpmc.CasEnq(r, false))
      && Sound(t, |f0.s.rs|) && t.producers[r] == Mpmc.PClaimed(pc.msg, q.enq)
      && Reaches(f0, Put(f0, x, t, Goto(f0.s, r, Publishing(x, pc.msg, pc.task))), H)
  {
    var n, m, q := |f0.s.rs|, f0.s.rs[r].pc.msg, f0.queues[x];
    ReachSelf(f0, H);
    assert Put(f0, x, q, f0.s) == f0 by { assert f0.queues[x := q] == f0.queues; }
    var q1 := Mpmc.Do(q, Mpmc.Enqueue(r, m));
    assert Solo.Stepped(q, q1, r, Mpmc.PStart(m));
    SoundAfter(q, Mpmc.Enqueue(r, m), n);
    SendAccess(f0, f0, H, r, x, q, q1);
    var q2 := Mpmc.Do(q1, Mpmc.LoadEnq(r));
    Solo.LoadTail(q1, r);
    hide Mpmc.Do, Mpmc.Inv, Reaches, Put, Solo.Stepped, Solo.Free, Goto, Good;
    Solo.SteppedAt(q, q1, r, Mpmc.PStart(m));
    SoundAfter(q1, Mpmc.LoadEnq(r), n);
    Solo.SteppedAt(q1, q2, r, Mpmc.PProbe(m, q.enq));
    SendAccess(f0, f0, H, r, x, q1, q2);
    Solo.FreeSame(q, q2);
    Solo.ProbeFits(q2, r, m);
    var q3 := Mpmc.Do(q2, Mpmc.ProbeEnq(r));
    SoundAfter(q2, Mpmc.ProbeEnq(r), n);
    Solo.SteppedAt(q2, q3, r, Mpmc.PMatched(m, q.enq));
    SendAccess(f0, f0, H, r, x, q2, q3);
    Solo.CasClaims(q3, r, m);
    t := Mpmc.Do(q3, Mpmc.CasEnq(r, false));
    SoundAfter(q3, Mpmc.CasEnq(r, false), n);
    SendAccess(f0, f0, H, r, x, q3, t);
  }

  lemma SoundInv(q: Queue, n: nat)
    requires Sound(q, n)
    ensures Mpmc.Inv(q) && |q.producers| == n && |q.consumers| == 1 && Mpmc.Shaped(q) && |q.cells| > 0
  {
    hide Mpmc.CellsOk, Mpmc.ProducersOk, Mpmc.ConsumersOk, Mpmc.Faithful;
  }

  /** The two accesses behind it. */
  lemma Publishes(f0: Core, H: Hash, r: nat, x: nat, q: Queue) returns (t: Queue)
    requires Good(f0) && r < |f0.s.rs| && x < |f0.s.rs| && f0.s.rs[r].pc.Sending? && f0.s.rs[r].pc.to == x
    requires Sound(q, |f0.s.rs|) && q.producers[r].PClaimed?
    requires var pc := f0.s.rs[r].pc; Reaches(f0, Put(f0, x, q, Goto(f0.s, r, Publishing(x, pc.msg, pc.task))), H)
    ensures t == Mpmc.Do(Mpmc.Do(q, Mpmc.Write(r)), Mpmc.Publish(r)) && Sound(t, |f0.s.rs|)
    ensures Reaches(f0, Put(f0, x, t, SentState(f0.s, r)), H)
  {
    var n, m, pc := |f0.s.rs|, f0.s.rs[r].pc.msg, f0.s.rs[r].pc;
    var s := Goto(f0.s, r, Publishing(x, m, pc.task));
    GotoTwice(f0.s, r, Publishing(x, m, pc.task), Marking(x, m, pc.task));
    hide Mpmc.Do, Mpmc.Inv, Reaches, Put, Good, Goto;
    SoundInv(q, n);
    Solo.WritePuts(q, r);
    SoundAfter(q, Mpmc.Write(r), n);
    var q1 := Mpmc.Do(q, Mpmc.Write(r));
    PublishAccess(f0, s, f0, H, r, x, q, q1);
    t := Mpmc.Do(q1, Mpmc.Publish(r));
    SoundInv(q1, n);
    Solo.PublishPuts(q1, r);
    SoundAfter(q1, Mpmc.Publish(r), n);
    PublishAccess(f0, s, f0, H, r, x, q1, t);
  }

  /** The whole send, alone. */
  lemma Sends(f0: Core, H: Hash, r: nat, x: nat) returns (t: Queue)
    requires Good(f0) && r < |f0.s.rs| && x < |f0.s.rs| && f0.s.rs[r].pc.Sending? && f0.s.rs[r].pc.to == x
    requires Sound(f0.queues[x], |f0.s.rs|) && f0.queues[x].producers[r].PIdle?
    requires |f0.queues[x].cells| > 0 && Solo.Free(f0.queues[x])
    ensures Sound(t, |f0.s.rs|) && Solo.Added(f0.queues[x], t, r, f0.s.rs[r].pc.msg)
    ensures Reaches(f0, Put(f0, x, t, SentState(f0.s, r)), H)
  {
    hide Mpmc.Do, Mpmc.Inv, Reaches, Put, Solo.Added, Solo.Free, Goto;
    SoundInv(f0.queues[x], |f0.s.rs|);
    Solo.EnqueueAlone(f0.queues[x], r, f0.s.rs[r].pc.msg);
    var q := Claims(f0, H, r, x);
    t := Publishes(f0, H, r, x, q);
  }

  lemma GotoTwice(s: Server, r: nat, a: Pc, b: Pc)
    requires r < |s.rs|
    ensures Goto(Goto(s, r, a), r, b) == Goto(s, r, b) && Goto(s, r, a).rs[r].pc == a
    ensures |Goto(s, r, a).rs| == |s.rs| && forall y | 0 <= y < |s.rs| && y != r :: Goto(s, r, a).rs[y] == s.rs[y]
  {
    assert s.rs[r := s.rs[r].(pc := a)][r := s.rs[r].(pc := b)] == s.rs[r := s.rs[r].(pc := b)];
  }

  // ----- the reader -----

  /** One access of the reader of `x` that returns nothing yet. */
  lemma ReadAccess(f0: Core, s: Server, f: Core, H: Hash, x: nat, q: Queue, t: Queue)
    requires Good(f0) && |s.rs| == |f0.s.rs| && x < |s.rs| && s.rs[x].pc.Polling? && f0.got[x].None?
    requires Sound(q, |s.rs|) && Sound(t, |s.rs|) && Reaches(f, Put(f0, x, q, s), H)
    requires t == Mpmc.Do(q, Threads.ReaderAction(q.consumers[0], false))
    requires !q.consumers[0].CRead? && !t.consumers[0].CIdle?
    ensures Reaches(f, Put(f0, x, t, s), H)
  {
    hide Mpmc.Do, Mpmc.Inv, Threads.ReaderAction, Reaches, Formed, Goto;
    var h := Put(f0, x, q, s);
    PutGood(f0, x, q, s);
    GoodFormed(h);
    ReachStep(f, h, H, Access(x, false));
    PutTwice(f0, x, q, s, t, s);
  }

  /** The six accesses of a dequeue of the head `m`, and its callback. */
  lemma Receives(f0: Core, s: Server, f: Core, H: Hash, x: nat, q: Queue, m: Msg) returns (t: Queue)
    requires Good(f0) && |s.rs| == |f0.s.rs| && x < |s.rs| && s.rs[x].pc.Polling? && f0.got[x].None?
    requires Sound(q, |s.rs|) && Reaches(f, Put(f0, x, q, s), H) && |q.cells| > 0
    requires q.consumers[0].CIdle? && Mpmc.Published(q, q.deq) && q.deq < |q.sent| && q.sent[q.deq] == m
    ensures Sound(t, |s.rs|) && Solo.TookHead(q, t, 0)
    ensures Reaches(f, Put(f0, x, t, Callback(s, x, m)), H)
  {
    var n := |s.rs|;
    SoundInv(q, n);
    Solo.DequeueAlone(q, 0);
    var q1 := Mpmc.Do(q, Mpmc.Dequeue(0));
    assert q1 == q.(consumers := q.consumers[0 := Mpmc.CStart]);
    hide Mpmc.Do, Mpmc.Inv, Reaches, Put, Solo.TookHead, Good, Callback, Mpmc.Published;
    SoundAfter(q, Mpmc.Dequeue(0), n);
    ReadAccess(f0, s, f, H, x, q, q1);
    SoundInv(q1, n);
    Solo.LoadGoes(q1, 0);
    var q2 := Mpmc.Do(q1, Mpmc.LoadDeq(0));
    SoundAfter(q1, Mpmc.LoadDeq(0), n);
    ReadAccess(f0, s, f, H, x, q1, q2);
    SoundInv(q2, n);
    SamePublished(q, q2);
    Solo.ProbeFinds(q2, 0);
    var q3 := Mpmc.Do(q2, Mpmc.ProbeDeq(0));
    SoundAfter(q2, Mpmc.ProbeDeq(0), n);
    ReadAccess(f0, s, f, H, x, q2, q3);
    t := Takes(f0, s, f, H, x, q3, m);
  }

  lemma SamePublished(q: Queue, t: Queue)
    requires |q.cells| > 0 && t.cells == q.cells && t.deq == q.deq && Mpmc.Published(q, q.deq)
    ensures Mpmc.Published(t, t.deq)
  {
  }

  lemma Takes(f0: Core, s: Server, f: Core, H: Hash, x: nat, q: Queue, m: Msg) returns (t: Queue)
    requires Good(f0) && |s.rs| == |f0.s.rs| && x < |s.rs| && s.rs[x].pc.Polling? && f0.got[x].None?
    requires Sound(q, |s.rs|) && Reaches(f, Put(f0, x, q, s), H)
    requires q.consumers[0] == Mpmc.CMatched(q.deq) && q.deq < |q.sent| && q.sent[q.deq] == m
    ensures t == Mpmc.Do(Mpmc.Do(Mpmc.Do(q, Mpmc.CasDeq(0, false)), Mpmc.Read(0)), Mpmc.Release(0))
    ensures Sound(t, |s.rs|) && Reaches(f, Put(f0, x, t, Callback(s, x, m)), H)
  {
    var n := |s.rs|;
    hide Mpmc.Do, Mpmc.Inv, Reaches, Put, Good, Callback;
    SoundInv(q, n);
    Solo.CasTakes(q, 0);
    var q1 := Mpmc.Do(q, Mpmc.CasDeq(0, false));
    SoundAfter(q, Mpmc.CasDeq(0, false), n);
    ReadAccess(f0, s, f, H, x, q, q1);
    SoundInv(q1, n);
    Solo.ReadGets(q1, 0, q.deq);
    var q2 := Mpmc.Do(q1, Mpmc.Read(0));
    SoundAfter(q1, Mpmc.Read(0), n);
    ReadAccess(f0, s, f, H, x, q1, q2);
    t := Mpmc.Do(q2, Mpmc.Release(0));
    SoundAfter(q2, Mpmc.Release(0), n);
    ReturnAccess(f0, s, f, H, x, q2, t, m);
  }

  /** The last access, and the callback of the message it returns. */
  lemma ReturnAccess(f0: Core, s: Server, f: Core, H: Hash, x: nat, q: Queue, t: Queue, m: Msg)
    requires Good(f0) && |s.rs| == |f0.s.rs| && x < |s.rs| && s.rs[x].pc.Polling? && f0.got[x].None?
    requires Sound(q, |s.rs|) && Sound(t, |s.rs|) && Reaches(f, Put(f0, x, q, s), H)
    requires t == Mpmc.Do(q, Mpmc.Release(0)) && q.consumers[0].CRead? && q.consumers[0].v == m
    ensures Reaches(f, Put(f0, x, t, Callback(s, x, m)), H)
  {
    hide Mpmc.Do, Mpmc.Inv, Reaches, Formed, Goto, Callback;
    var h := Put(f0, x, q, s);
    PutGood(f0, x, q, s);
    GoodFormed(h);
    ReachStep(f, h, H, Access(x, false));
    var g := Put(f0, x, t, s).(got := f0.got[x := Some(m)]);
    PutTwice(f0, x, q, s, t, s);
    assert StepOf(h, H, Access(x, false)) == g;
    PutGood(f0, x, t, s);
    assert Good(g);
    GoodFormed(g);
    ReachStep(f, g, H, Access(x, false));
    assert f0.got[x := Some(m)][x := None] == f0.got;
  }

  // ----- from end to end -----

  /** A message sent into an empty queue with a free next cell, to a reactor about to poll: the sender's six accesses,
      the reader's six, and the callback runs with exactly that message; the queue is empty again. */
  lemma Delivers(f: Core, H: Hash, r: nat, x: nat) returns (t: Queue)
    requires Good(f) && r < |f.s.rs| && x < |f.s.rs| && r != x
    requires f.s.rs[r].pc.Sending? && f.s.rs[r].pc.to == x && f.s.rs[x].pc.Polling? && f.got[x].None?
    requires var q := f.queues[x];
      && |q.producers| == |f.s.rs| && |q.consumers| == 1 && |q.cells| > 0
      && q.producers[r].PIdle? && q.consumers[0].CIdle? && q.enq == q.deq && Solo.Free(q)
    ensures Sound(t, |f.s.rs|) && t.enq == t.deq == f.queues[x].enq + 1
    ensures t.consumers[0].CIdle? && t.producers[r].PIdle?
    ensures Reaches(f, Put(f, x, t, Callback(SentState(f.s, r), x, f.s.rs[r].pc.msg)), H)
  {
    var q, m, n := f.queues[x], f.s.rs[r].pc.msg, |f.s.rs|;
    assert Sound(q, n);
    var u := Sends(f, H, r, x);
    GotoTwice(f.s, r, Marking(x, m, f.s.rs[r].pc.task), Marking(x, m, f.s.rs[r].pc.task));
    SoundInv(q, n);
    AddedHead(q, u, r, m);
    hide Mpmc.Do, Mpmc.Inv, Reaches, Put, Good, Callback, Mpmc.Published, Solo.Added;
    t := Receives(f, SentState(f.s, r), f, H, x, u, m);
    TookEmpty(u, t);
  }

  lemma AddedHead(q: Queue, u: Queue, r: nat, m: Msg)
    requires Mpmc.Inv(q) && r < |q.producers| && q.enq == q.deq && Solo.Added(q, u, r, m) && |q.consumers| == 1
    ensures |u.cells| > 0 && Mpmc.Published(u, u.deq) && u.deq < |u.sent| && u.sent[u.deq] == m && u.enq == u.deq + 1
    ensures u.consumers == q.consumers && u.producers == q.producers[r := Mpmc.PIdle] && u.deq == q.deq
  {
    hide Mpmc.CellsOk, Mpmc.ProducersOk, Mpmc.ConsumersOk, Mpmc.Faithful, Mpmc.Abs;
  }

  lemma TookEmpty(u: Queue, t: Queue)
    requires |u.consumers| == 1 && Solo.TookHead(u, t, 0) && u.enq == u.deq + 1
    ensures t.enq == t.deq == u.deq + 1 && t.consumers == [Mpmc.CIdle] && t.producers == u.producers
  {
    assert u.consumers[0 := Mpmc.CIdle] == [Mpmc.CIdle];
  }

  // ----- nothing to deliver -----

  /** With the head of its queue missing or unpublished, a polling reactor goes on after three accesses. */
  lemma FindsNothing(f: Core, H: Hash, x: nat)
    requires Good(f) && x < |f.s.rs| && f.s.rs[x].pc.Polling? && f.got[x].None?
    requires var q := f.queues[x];
      |q.consumers| == 1 && q.consumers[0].CIdle? && |q.cells| > 0 && !Mpmc.Published(q, q.deq)
    ensures Reaches(f, f.(s := Goto(f.s, x, if f.s.rs[x].pc.n > 0 then Working(Events) else Sleepy)), H)
  {
    var q, n := f.queues[x], |f.s.rs|;
    assert Sound(q, n);
    ReachSelf(f, H);
    assert f.queues[x := q] == f.queues;
    assert Put(f, x, q, f.s) == f;
    SoundInv(q, n);
    Solo.NullAlone(q, 0);
    var q1 := Mpmc.Do(q, Mpmc.Dequeue(0));
    assert q1 == q.(consumers := q.consumers[0 := Mpmc.CStart]);
    SoundAfter(q, Mpmc.Dequeue(0), n);
    ReadAccess(f, f.s, f, H, x, q, q1);
    hide Mpmc.Do, Mpmc.Inv, Reaches, Put, Mpmc.Published, Good;
    SoundInv(q1, n);
    Solo.LoadGoes(q1, 0);
    var q2 := Mpmc.Do(q1, Mpmc.LoadDeq(0));
    SoundAfter(q1, Mpmc.LoadDeq(0), n);
    ReadAccess(f, f.s, f, H, x, q1, q2);
    NothingAccess(f, H, x, q2);
  }

  lemma NothingAccess(f: Core, H: Hash, x: nat, q: Queue)
    requires Good(f) && x < |f.s.rs| && f.s.rs[x].pc.Polling? && f.got[x].None?
    requires Sound(q, |f.s.rs|) && Reaches(f, Put(f, x, q, f.s), H) && q.consumers[0].CProbe?
    requires Mpmc.Do(q, Mpmc.ProbeDeq(0)) == f.queues[x]
    requires |f.queues[x].consumers| == 1 && f.queues[x].consumers[0].CIdle?
    ensures Reaches(f, f.(s := Goto(f.s, x, if f.s.rs[x].pc.n > 0 then Working(Events) else Sleepy)), H)
  {
    hide Mpmc.Do, Mpmc.Inv, Reaches, Formed, Goto;
    var h := Put(f, x, q, f.s);
    PutGood(f, x, q, f.s);
    GoodFormed(h);
    ReachStep(f, h, H, Access(x, false));
    assert f.queues[x := q][x := f.queues[x]] == f.queues;
  }

  /** About to sleep, a reactor decides by two loads: it blocks exactly when the positions of its queue are equal. */
  lemma CountDecides(f: Core, H: Hash, x: nat)
    requires Good(f) && x < |f.s.rs| && f.s.rs[x].pc.Checking? && f.loaded[x].None?
    ensures var q := f.queues[x];
      Reaches(f, f.(s := Goto(f.s, x, if q.enq == q.deq then Blocked else Unsleeping)), H)
  {
    hide Reaches, Formed, Goto, Sound;
    ReachSelf(f, H);
    GoodFormed(f);
    ReachStep(f, f, H, Access(x, false));
    var g := f.(loaded := f.loaded[x := Some(f.queues[x].enq)]);
    assert StepOf(f, H, Access(x, false)) == g;
    GoodFormed(g);
    ReachStep(f, g, H, Access(x, false));
    assert f.loaded[x := Some(f.queues[x].enq)][x := None] == f.loaded;
  }
}
