/** Who sets and clears the flags of reactors and connections, and what follows for whole runs: a connection that waits
    is left alone until its answer is taken, and no reactor is signalled more often than it goes to sleep. */
module Flags {
  import opened Bits
  import opened Inboxes
  import opened Commands
  import opened Reactors
  import opened Wakeup
  import opened Dispatch
  import opened Servers
  import opened Seqs

  // ----- the waiting flag of a connection -----

  /** Action `a` finishes the sending of a request of `c`. */
  predicate SendsFor(s: Server, a: Action, c: nat)
  {
    a.Tick? && a.r < |s.rs| && s.rs[a.r].pc.Marking? && s.rs[a.r].pc.msg.Request? && s.rs[a.r].pc.msg.conn == c
  }

  /** Action `a` takes a response for `c`. */
  predicate AnswersFor(s: Server, a: Action, c: nat)
  {
    && a.Tick? && a.r < |s.rs| && s.rs[a.r].pc.Polling? && s.rs[a.r].inbox != [] && s.rs[a.r].inbox[0].ready
    && s.rs[a.r].inbox[0].item.Response? && s.rs[a.r].inbox[0].item.conn == c
  }

  ghost predicate WaitingRight(s: Server, t: Server, a: Action, c: nat)
    requires c < |s.conns|
  {
    && c < |t.conns|
    && t.conns[c].waiting
       == if SendsFor(s, a, c) then true else if AnswersFor(s, a, c) then false else s.conns[c].waiting
  }

  lemma TickWaiting(s: Server, r: nat, c: nat)
    requires r < |s.rs| && c < |s.conns|
    ensures WaitingRight(s, DoTick(s, r), Tick(r), c)
  {
    hide ReplyTo, Apply, After, Unpublished;
    match s.rs[r].pc
    case Marking(_, _, _) =>
    case Polling(_) =>
    case _ =>
  }

  /** The flag is set by the step that finishes the sending of a request of the connection, cleared by the step that
      takes a response for it, and touched by no other action. */
  lemma WaitingLaw(s: Server, H: Hash, a: Action, c: nat)
    requires c < |s.conns|
    ensures WaitingRight(s, Do(s, H, a), a, c)
  {
    if a.Tick? && a.r < |s.rs| {
      hide DoTick, WaitingRight;
      TickWaiting(s, a.r, c);
    } else {
      hide ReplyTo, Apply, Shard;
    }
  }

  /** While it is set, read events of the connection have no effect. */
  lemma NoOpenWhileWaiting(s: Server, H: Hash, r: nat, c: nat)
    requires c < |s.conns| && s.conns[c].waiting
    ensures Do(s, H, Open(r, c)) == s
  {
  }

  ghost predicate Unanswered(s: Server, H: Hash, run: seq<Action>, c: nat)
  {
    forall i | 0 <= i < |run| :: !AnswersFor(Exec(s, H, run[..i]), run[i], c)
  }

  /** From the end of a send until a response is taken, the connection waits, and no read event has an effect on it. */
  lemma {:induction false} WaitsUntilAnswered(s: Server, H: Hash, a: Action, run: seq<Action>, c: nat)
    requires c < |s.conns| && SendsFor(s, a, c) && Unanswered(Do(s, H, a), H, run, c)
    ensures var t := Exec(Do(s, H, a), H, run);
      c < |t.conns| && t.conns[c].waiting && forall r: nat :: Do(t, H, Open(r, c)) == t
    decreases |run|
  {
    hide Do, Shard;
    var s0 := Do(s, H, a);
    if run == [] {
      WaitingLaw(s, H, a, c);
    } else {
      var n := |run| - 1;
      var front := run[..n];
      assert forall i | 0 <= i < n :: front[..i] == run[..i] && front[i] == run[i];
      WaitsUntilAnswered(s, H, a, front, c);
      var t := Exec(s0, H, front);
      assert !AnswersFor(t, run[n], c);
      WaitingLaw(t, H, run[n], c);
    }
    var t := Exec(s0, H, run);
    forall r: nat
      ensures Do(t, H, Open(r, c)) == t
    {
      NoOpenWhileWaiting(t, H, r, c);
    }
  }

  // ----- the flags of a reactor -----

  /** Reactor `a.r` exchanges the sleeping flag of `y`. */
  predicate Exchanges(s: Server, a: Action, y: nat)
  {
    a.Tick? && a.r < |s.rs| && s.rs[a.r].pc == Waking(y) && y < |s.rs| && y in s.rs[a.r].soft
  }

  /** Reactor `a.r` writes the eventfd of `y`. */
  predicate Signals(s: Server, a: Action, y: nat)
  {
    a.Tick? && a.r < |s.rs| && s.rs[a.r].pc == Signalling(y)
  }

  predicate FallsAsleep(s: Server, a: Action, y: nat)
  {
    a == Tick(y) && y < |s.rs| && s.rs[y].pc.Sleepy?
  }

  predicate GetsUp(s: Server, a: Action, y: nat)
  {
    a == Tick(y) && y < |s.rs| && (s.rs[y].pc.Unsleeping? || s.rs[y].pc.Woken?)
  }

  ghost predicate FlagsRight(s: Server, t: Server, a: Action, y: nat)
    requires y < |s.rs|
  {
    && y < |t.rs|
    && t.rs[y].sleeping == (if FallsAsleep(s, a, y) then true
                            else if GetsUp(s, a, y) || Exchanges(s, a, y) then false else s.rs[y].sleeping)
    && t.rs[y].eventfd == (if Signals(s, a, y) then s.rs[y].eventfd + 1
                           else if a == Drain(y) && s.rs[y].pc == Working(Events) then 0 else s.rs[y].eventfd)
    && t.rs[y].soft == (if a == Tick(y) && s.rs[y].pc.Marking? then s.rs[y].soft + {s.rs[y].pc.to}
                        else if a == Tick(y) && s.rs[y].pc.Waking? && s.rs[y].pc.i >= |s.rs| then {} else s.rs[y].soft)
  }

  lemma WakeFlags(s: Server, r: nat, y: nat)
    requires r < |s.rs| && s.rs[r].pc.Waking? && y < |s.rs|
    ensures FlagsRight(s, Wake(s, r), Tick(r), y)
  {
  }

  lemma SendFlags(s: Server, r: nat, y: nat)
    requires r < |s.rs| && y < |s.rs|
    ensures s.rs[r].pc.Sending? ==> FlagsRight(s, Send(s, r), Tick(r), y)
    ensures s.rs[r].pc.Publishing? ==> FlagsRight(s, Publish(s, r), Tick(r), y)
  {
    hide After, Unpublished;
  }

  lemma PollFlags(s: Server, r: nat, y: nat)
    requires r < |s.rs| && y < |s.rs| && s.rs[r].pc.Polling?
    ensures FlagsRight(s, Poll(s, r), Tick(r), y)
  {
    hide ReplyTo, Apply;
  }

  lemma TickFlags(s: Server, r: nat, y: nat)
    requires r < |s.rs| && y < |s.rs|
    ensures FlagsRight(s, DoTick(s, r), Tick(r), y)
  {
    hide Wake, Send, Publish, Poll;
    var pc := s.rs[r].pc;
    if pc.Waking? {
      WakeFlags(s, r, y);
    } else if pc.Sending? || pc.Publishing? {
      SendFlags(s, r, y);
    } else if pc.Polling? {
      PollFlags(s, r, y);
    }
  }

  /** The sleeping flag is set by its reactor about to look at its queue, and cleared by it or by an exchange; the
      eventfd is written behind an exchange and drained by its reactor; a mark is set behind a send and cleared when all
      marked reactors have been looked at. No other action touches any of them. */
  lemma FlagLaw(s: Server, H: Hash, a: Action, y: nat)
    requires y < |s.rs|
    ensures FlagsRight(s, Do(s, H, a), a, y)
  {
    if a.Tick? && a.r < |s.rs| {
      hide DoTick, FlagsRight;
      TickFlags(s, a.r, y);
    } else {
      hide ReplyTo, Apply, Shard;
    }
  }

  // ----- signals are not wasted -----

  function One(b: bool): nat
  {
    if b then 1 else 0
  }

  /** Writes to the eventfd of `y` in a run, and how often `y` stored its sleeping flag. */
  function Written(s: Server, H: Hash, run: seq<Action>, y: nat): nat
  {
    if run == [] then 0
    else
      var front := run[..|run| - 1];
      Written(s, H, front, y) + One(Signals(Exec(s, H, front), run[|run| - 1], y))
  }

  function Slept(s: Server, H: Hash, run: seq<Action>, y: nat): nat
  {
    if run == [] then 0
    else
      var front := run[..|run| - 1];
      Slept(s, H, front, y) + One(FallsAsleep(Exec(s, H, front), run[|run| - 1], y))
  }

  /** Reactors about to write the eventfd of `y`. */
  function Writers(rs: seq<Reactor>, y: nat): nat
  {
    if rs == [] then 0 else Writers(rs[..|rs| - 1], y) + One(rs[|rs| - 1].pc == Signalling(y))
  }

  lemma {:induction false} WritersUpdate(rs: seq<Reactor>, ts: seq<Reactor>, r: nat, y: nat)
    requires |ts| == |rs| && r < |rs| && forall x | 0 <= x < |rs| && x != r :: ts[x].pc == rs[x].pc
    ensures Writers(ts, y) + One(rs[r].pc == Signalling(y)) == Writers(rs, y) + One(ts[r].pc == Signalling(y))
    decreases |rs|
  {
    var n := |rs| - 1;
    if r < n {
      WritersUpdate(rs[..n], ts[..n], r, y);
    } else {
      WritersSame(rs[..n], ts[..n], y);
    }
  }

  lemma {:induction false} WritersSame(rs: seq<Reactor>, ts: seq<Reactor>, y: nat)
    requires |ts| == |rs| && forall x | 0 <= x < |rs| :: ts[x].pc == rs[x].pc
    ensures Writers(ts, y) == Writers(rs, y)
    decreases |rs|
  {
    if rs != [] {
      var n := |rs| - 1;
      WritersSame(rs[..n], ts[..n], y);
    }
  }

  /** Only `a.r` moves; it becomes a writer exactly when it exchanges a set flag, and stops being one by writing. */
  ghost predicate PcsRight(s: Server, t: Server, a: Action, y: nat)
  {
    && |t.rs| == |s.rs| && (forall x | 0 <= x < |s.rs| && x != a.r :: t.rs[x].pc == s.rs[x].pc)
    && (a.r < |s.rs| ==>
          (t.rs[a.r].pc == Signalling(y)
           <==> (Exchanges(s, a, y) && s.rs[y].sleeping) || (s.rs[a.r].pc == Signalling(y) && !Signals(s, a, y))))
  }

  lemma WakePcs(s: Server, r: nat, y: nat)
    requires r < |s.rs| && s.rs[r].pc.Waking? && y < |s.rs|
    ensures PcsRight(s, Wake(s, r), Tick(r), y)
  {
  }

  lemma QueuePcs(s: Server, r: nat, y: nat)
    requires r < |s.rs| && y < |s.rs|
    ensures s.rs[r].pc.Sending? ==> PcsRight(s, Send(s, r), Tick(r), y)
    ensures s.rs[r].pc.Publishing? ==> PcsRight(s, Publish(s, r), Tick(r), y)
    ensures s.rs[r].pc.Polling? ==> PcsRight(s, Poll(s, r), Tick(r), y)
  {
    hide ReplyTo, Apply, After, Unpublished;
  }

  lemma TickPcs(s: Server, r: nat, y: nat)
    requires r < |s.rs| && y < |s.rs|
    ensures PcsRight(s, DoTick(s, r), Tick(r), y)
  {
    hide Wake, Send, Publish, Poll;
    var pc := s.rs[r].pc;
    if pc.Waking? {
      WakePcs(s, r, y);
    } else if pc.Sending? || pc.Publishing? || pc.Polling? {
      QueuePcs(s, r, y);
    }
  }

  lemma AnyPcs(s: Server, H: Hash, a: Action, y: nat)
    requires y < |s.rs|
    ensures PcsRight(s, Do(s, H, a), a, y)
  {
    if a.Tick? && a.r < |s.rs| {
      hide DoTick, PcsRight;
      TickPcs(s, a.r, y);
    } else {
      hide ReplyTo, Apply, Shard;
    }
  }

  /** Each write to an eventfd was paid for by one store of the sleeping flag. */
  lemma StepPaid(s: Server, H: Hash, a: Action, y: nat)
    requires y < |s.rs|
    ensures var t := Do(s, H, a);
      && |t.rs| == |s.rs|
      && One(Signals(s, a, y)) + Writers(t.rs, y) + One(t.rs[y].sleeping)
         <= Writers(s.rs, y) + One(s.rs[y].sleeping) + One(FallsAsleep(s, a, y))
  {
    hide Do, Writers;
    FlagLaw(s, H, a, y);
    AnyPcs(s, H, a, y);
    var t := Do(s, H, a);
    if a.r < |s.rs| {
      WritersUpdate(s.rs, t.rs, a.r, y);
    } else {
      WritersSame(s.rs, t.rs, y);
    }
  }

  /** In every run a reactor's eventfd is written at most once more often than it goes to sleep, the once being for the
      flag it starts with: however many messages are sent to it, one signal wakes it. */
  lemma {:induction false} SignalsPaid(s: Server, H: Hash, run: seq<Action>, y: nat)
    requires Start(s) && y < |s.rs|
    ensures var t := Exec(s, H, run);
      && |t.rs| == |s.rs|
      && Written(s, H, run, y) + Writers(t.rs, y) + One(t.rs[y].sleeping) <= 1 + Slept(s, H, run, y)
    decreases |run|
  {
    hide Do, Start;
    if run == [] {
      NoWriters(s, y);
    } else {
      var front := run[..|run| - 1];
      SignalsPaid(s, H, front, y);
      StepPaid(Exec(s, H, front), H, run[|run| - 1], y);
    }
  }

  lemma NoWriters(s: Server, y: nat)
    requires Start(s) && y < |s.rs|
    ensures Writers(s.rs, y) == 0
  {
    NoWritersIn(s.rs, y);
  }

  lemma {:induction false} NoWritersIn(rs: seq<Reactor>, y: nat)
    requires forall x | 0 <= x < |rs| :: !rs[x].pc.Signalling?
    ensures Writers(rs, y) == 0
    decreases |rs|
  {
    if rs != [] {
      NoWritersIn(rs[..|rs| - 1], y);
    }
  }
}
