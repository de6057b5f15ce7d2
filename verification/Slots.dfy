/** The queues inside the server: every action is one inbox step on each of them, and places are owned as in the
    queue. */
module Slots {
  import opened Bits
  import opened Inboxes
  import opened Commands
  import opened Reactors
  import opened Dispatch

  // ----- who owns an unpublished place -----

  /** Place `j` was claimed by `r` and is not published. */
  predicate Mine(q: Inbox<Msg>, r: nat, j: nat)
  {
    j < |q| && !q[j].ready && q[j].item.from == r
  }

  /** Place `j` is the only unpublished place of `r`, and holds its message `m`. */
  ghost predicate Sole(q: Inbox<Msg>, r: nat, j: nat, m: Msg)
  {
    j < |q| && q[j] == Slot(m, false) && m.from == r && forall i: nat | Mine(q, r, i) :: i == j
  }

  /** A reactor about to publish in the queue of `x` owns exactly one unpublished place there, with the message it is
      sending; any other reactor owns none. */
  ghost predicate SlotOk(q: Inbox<Msg>, r: nat, x: nat, pc: Pc)
  {
    if pc.Publishing? && pc.to == x then exists j: nat :: Sole(q, r, j, pc.msg) else forall j: nat :: !Mine(q, r, j)
  }

  ghost predicate Owned(s: Server)
  {
    forall r, x | 0 <= r < |s.rs| && 0 <= x < |s.rs| :: SlotOk(s.rs[x].inbox, r, x, s.rs[r].pc)
  }

  /** The source stores into the cell it owns; here that cell is found by its owner. */
  lemma {:induction false} SoleIs(q: Inbox<Msg>, r: nat, j: nat, m: Msg)
    requires Sole(q, r, j, m)
    ensures Unpublished(q, r) == j
    decreases |q|
  {
    assert Mine(q, r, j);
    if j > 0 {
      assert !Mine(q, r, 0);
      assert forall i: nat :: Mine(q[1..], r, i) ==> Mine(q, r, i + 1);
      SoleIs(q[1..], r, j - 1, m);
    }
  }

  // ----- inbox steps and ownership -----

  lemma ClaimOwns(q: Inbox<Msg>, r: nat, x: nat, m: Msg, task: Task)
    requires m.from == r && forall j: nat :: !Mine(q, r, j)
    ensures SlotOk(After(q, Claim(m)), r, x, Publishing(x, m, task))
  {
    var t := After(q, Claim(m));
    assert forall j: nat | j < |q| :: t[j] == q[j] && !Mine(q, r, j);
    assert Sole(t, r, |q|, m);
  }

  lemma ClaimOther(q: Inbox<Msg>, r: nat, x: nat, m: Msg, pc: Pc)
    requires m.from != r && SlotOk(q, r, x, pc)
    ensures SlotOk(After(q, Claim(m)), r, x, pc)
  {
    var t := After(q, Claim(m));
    assert forall j: nat :: Mine(t, r, j) ==> Mine(q, r, j);
    if pc.Publishing? && pc.to == x {
      var j: nat :| Sole(q, r, j, pc.msg);
      assert Sole(t, r, j, pc.msg);
    }
  }

  lemma ReadyFrees(q: Inbox<Msg>, r: nat, j: nat, m: Msg)
    requires Sole(q, r, j, m)
    ensures forall i: nat :: !Mine(After(q, Ready(j)), r, i)
  {
    var t := After(q, Ready(j));
    forall i: nat
      ensures !Mine(t, r, i)
    {
      assert Mine(t, r, i) ==> i != j && Mine(q, r, i);
    }
  }

  lemma ReadyOther(q: Inbox<Msg>, r: nat, x: nat, i: nat, pc: Pc)
    requires i < |q| && q[i].item.from != r && SlotOk(q, r, x, pc)
    ensures SlotOk(After(q, Ready(i)), r, x, pc)
  {
    var t := After(q, Ready(i));
    assert forall j: nat :: Mine(t, r, j) ==> Mine(q, r, j);
    if pc.Publishing? && pc.to == x {
      var j: nat :| Sole(q, r, j, pc.msg);
      assert Sole(t, r, j, pc.msg);
    }
  }

  lemma TakeKeepsOwners(q: Inbox<Msg>, r: nat, x: nat, pc: Pc)
    requires q != [] && q[0].ready && SlotOk(q, r, x, pc)
    ensures SlotOk(q[1..], r, x, pc)
  {
    assert forall j: nat :: Mine(q[1..], r, j) ==> Mine(q, r, j + 1);
    if pc.Publishing? && pc.to == x {
      var j: nat :| Sole(q, r, j, pc.msg);
      assert Sole(q[1..], r, j - 1, pc.msg);
    }
  }

  // ----- every action is one inbox step on each queue -----

  /** What action `a` is to the queue of `x`. */
  function LabelOn(s: Server, a: Action, x: nat): Label<Msg>
    requires x < |s.rs|
  {
    if !a.Tick? || a.r >= |s.rs| then Silent
    else
      var pc, q := s.rs[a.r].pc, s.rs[x].inbox;
      match pc
      case Sending(to, m, _) => if to == x && |q| < CAPACITY then Claim(m) else Silent
      case Publishing(to, _, _) => if to == x then Ready(Unpublished(q, a.r)) else Silent
      case Polling(_) => if a.r != x then Silent else if q == [] || !q[0].ready then Nothing else Take(q[0].item)
      case _ => Silent
  }

  /** The queue of `x` in the state after. */
  ghost predicate StepOn(s: Server, t: Server, l: Label<Msg>, x: nat)
    requires x < |s.rs|
  {
    |t.rs| == |s.rs| && t.rs[x].inbox == After(s.rs[x].inbox, l)
  }

  lemma PollStep(s: Server, H: Hash, r: nat, x: nat)
    requires Routes(s, H) && r < |s.rs| && s.rs[r].pc.Polling? && x < |s.rs|
    ensures StepOn(s, Poll(s, r), LabelOn(s, Tick(r), x), x)
  {
    hide ReplyTo, Apply, Shard;
    if s.rs[r].inbox != [] {
      var m := Mail(s.rs[r])[0];
      assert Routed(s, H, m, m.from, r);
    }
  }

  lemma PublishStep(s: Server, r: nat, x: nat)
    requires r < |s.rs| && s.rs[r].pc.Publishing? && x < |s.rs|
    ensures StepOn(s, Publish(s, r), LabelOn(s, Tick(r), x), x)
  {
    hide Unpublished;
  }

  lemma SendStep(s: Server, r: nat, x: nat)
    requires r < |s.rs| && s.rs[r].pc.Sending? && x < |s.rs|
    ensures StepOn(s, Send(s, r), LabelOn(s, Tick(r), x), x)
  {
  }

  lemma OtherStep(s: Server, H: Hash, a: Action, x: nat)
    requires x < |s.rs|
    requires a.Tick? && a.r < |s.rs| ==> !s.rs[a.r].pc.Sending? && !s.rs[a.r].pc.Publishing? && !s.rs[a.r].pc.Polling?
    ensures StepOn(s, Do(s, H, a), LabelOn(s, a, x), x)
  {
    hide ReplyTo, Apply, Shard;
  }

  lemma AnyStep(s: Server, H: Hash, a: Action, x: nat)
    requires Routes(s, H) && x < |s.rs|
    ensures StepOn(s, Do(s, H, a), LabelOn(s, a, x), x)
  {
    hide Send, Publish, Poll, Routes, LabelOn, StepOn;
    if a.Tick? && a.r < |s.rs| && s.rs[a.r].pc.Sending? {
      SendStep(s, a.r, x);
    } else if a.Tick? && a.r < |s.rs| && s.rs[a.r].pc.Publishing? {
      PublishStep(s, a.r, x);
    } else if a.Tick? && a.r < |s.rs| && s.rs[a.r].pc.Polling? {
      PollStep(s, H, a.r, x);
    } else {
      OtherStep(s, H, a, x);
    }
  }

  /** The server uses its queues through the inbox interface only, and legally; what is published is the message that
      its sender has in hand. */
  lemma QueueSteps(s: Server, H: Hash, a: Action, x: nat)
    requires Routes(s, H) && Owned(s) && x < |s.rs|
    ensures var t, q := Do(s, H, a), s.rs[x].inbox;
      && |t.rs| == |s.rs| && Legal(q, LabelOn(s, a, x)) && t.rs[x].inbox == After(q, LabelOn(s, a, x))
      && (LabelOn(s, a, x).Ready? ==>
            s.rs[a.r].pc.Publishing? && q[LabelOn(s, a, x).place] == Slot(s.rs[a.r].pc.msg, false))
  {
    AnyStep(s, H, a, x);
    hide Do, Routes;
    if a.Tick? && a.r < |s.rs| && s.rs[a.r].pc.Publishing? && s.rs[a.r].pc.to == x {
      var q, m := s.rs[x].inbox, s.rs[a.r].pc.msg;
      assert SlotOk(q, a.r, x, s.rs[a.r].pc);
      var j: nat :| Sole(q, a.r, j, m);
      SoleIs(q, a.r, j, m);
    }
  }

  // ----- every action keeps ownership -----

  /** Where reactor `r` stands afterwards, as far as publishing goes. */
  ghost predicate PcMoves(s: Server, t: Server, a: Action, r: nat)
    requires r < |s.rs|
  {
    var pc := s.rs[r].pc;
    && |t.rs| == |s.rs|
    && (if a == Tick(r) && pc.Sending? && pc.to < |s.rs| && |s.rs[pc.to].inbox| < CAPACITY
        then t.rs[r].pc == Publishing(pc.to, pc.msg, pc.task)
        else if a == Tick(r) && pc.Publishing? && pc.to < |s.rs| then !t.rs[r].pc.Publishing?
        else t.rs[r].pc == pc || (!t.rs[r].pc.Publishing? && !pc.Publishing?))
  }

  lemma PollMoves(s: Server, x: nat, r: nat)
    requires x < |s.rs| && s.rs[x].pc.Polling? && r < |s.rs|
    ensures PcMoves(s, Poll(s, x), Tick(x), r)
  {
    hide ReplyTo, Apply;
  }

  lemma SendMoves(s: Server, x: nat, r: nat)
    requires x < |s.rs| && s.rs[x].pc.Sending? && r < |s.rs|
    ensures PcMoves(s, Send(s, x), Tick(x), r)
  {
    hide After;
  }

  lemma PublishMoves(s: Server, x: nat, r: nat)
    requires x < |s.rs| && s.rs[x].pc.Publishing? && r < |s.rs|
    ensures PcMoves(s, Publish(s, x), Tick(x), r)
  {
    hide After, Unpublished;
  }

  lemma OtherMoves(s: Server, H: Hash, a: Action, r: nat)
    requires r < |s.rs|
    requires a.Tick? && a.r < |s.rs| ==> !s.rs[a.r].pc.Sending? && !s.rs[a.r].pc.Publishing? && !s.rs[a.r].pc.Polling?
    ensures PcMoves(s, Do(s, H, a), a, r)
  {
    hide ReplyTo, Apply, Shard;
  }

  lemma PcAfter(s: Server, H: Hash, a: Action, r: nat)
    requires r < |s.rs|
    ensures PcMoves(s, Do(s, H, a), a, r)
  {
    hide PcMoves, Send, Publish, Poll;
    if a.Tick? && a.r < |s.rs| && s.rs[a.r].pc.Sending? {
      SendMoves(s, a.r, r);
    } else if a.Tick? && a.r < |s.rs| && s.rs[a.r].pc.Publishing? {
      PublishMoves(s, a.r, r);
    } else if a.Tick? && a.r < |s.rs| && s.rs[a.r].pc.Polling? {
      PollMoves(s, a.r, r);
    } else {
      OtherMoves(s, H, a, r);
    }
  }

  lemma OwnedStep(s: Server, H: Hash, a: Action, r: nat, x: nat)
    requires Routes(s, H) && Owned(s) && r < |s.rs| && x < |s.rs|
    ensures var t := Do(s, H, a);
      |t.rs| == |s.rs| && SlotOk(t.rs[x].inbox, r, x, t.rs[r].pc)
  {
    PcAfter(s, H, a, r);
    QueueSteps(s, H, a, x);
    hide Do, After, Unpublished;
    var q, l, pc := s.rs[x].inbox, LabelOn(s, a, x), s.rs[r].pc;
    assert SlotOk(q, r, x, pc);
    match l
    case Claim(m) =>
      SenderSigns(s, H, a.r);
      if a.r == r {
        ClaimOwns(q, r, x, m, pc.task);
      } else {
        ClaimOther(q, r, x, m, pc);
      }
    case Ready(j) =>
      assert SlotOk(q, a.r, x, s.rs[a.r].pc);
      var i: nat :| Sole(q, a.r, i, s.rs[a.r].pc.msg);
      SoleIs(q, a.r, i, s.rs[a.r].pc.msg);
      if a.r == r {
        ReadyFrees(q, r, i, pc.msg);
      } else {
        ReadyOther(q, r, x, i, pc);
      }
    case Take(_) => TakeStep(q, r, x, pc, l);
    case _ => IdleStep(q, l);
  }

  lemma SenderSigns(s: Server, H: Hash, r: nat)
    requires Routes(s, H) && r < |s.rs| && s.rs[r].pc.Sending?
    ensures s.rs[r].pc.msg.from == r
  {
    assert Routed(s, H, s.rs[r].pc.msg, r, s.rs[r].pc.to);
  }

  lemma TakeStep(q: Inbox<Msg>, r: nat, x: nat, pc: Pc, l: Label<Msg>)
    requires l.Take? && Legal(q, l) && SlotOk(q, r, x, pc)
    ensures SlotOk(After(q, l), r, x, pc)
  {
    TakeKeepsOwners(q, r, x, pc);
  }

  lemma IdleStep(q: Inbox<Msg>, l: Label<Msg>)
    requires l.Nothing? || l.Silent?
    ensures After(q, l) == q
  {
  }

  lemma OwnedKept(s: Server, H: Hash, a: Action)
    requires Routes(s, H) && Owned(s)
    ensures Owned(Do(s, H, a))
  {
    hide SlotOk, Do, Routed;
    var t := Do(s, H, a);
    PcAfter(s, H, a, 0);
    forall r, x | 0 <= r < |t.rs| && 0 <= x < |t.rs|
      ensures SlotOk(t.rs[x].inbox, r, x, t.rs[r].pc)
    {
      OwnedStep(s, H, a, r, x);
    }
  }
}
