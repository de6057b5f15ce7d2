/** Connections that have ended and are not closed yet: nothing more is consumed, but the request at the head of the
    window is handled again and again. */
module Endings {
  import opened Bits
  import opened Protocol
  import opened Encoding
  import opened Requests
  import opened Streams
  import opened Seqs

  // ----- on any bytes -----

  /** A run of the loop on a connection that has ended handles the request at the head of the window, if a whole one
      with arguments is there, and changes nothing else. */
  lemma EndedProcess(all: Bytes, events: seq<Event>, behind: byte)
    requires Play(all, events).ended
    ensures var s, t := Play(all, events), Play(all, events + [Process(behind)]);
      && t.ended && t.received == s.received && t.window == s.window
      && t.handled
         == if s.window != [] && Read(s.window + [behind]).Ok? && Read(s.window + [behind]).spans != []
            then s.handled + [Args(s.window, Read(s.window + [behind]).spans)] else s.handled
  {
    hide Read, Args, Quits, Drain;
    var after := events + [Process(behind)];
    assert after[..|after| - 1] == events;
  }

  /** After the end, whatever happens: the connection stays ended, nothing more is consumed, the window grows by what
      arrives, at its end, and what was handled stays handled. */
  lemma {:induction false} AfterEnd(all: Bytes, events: seq<Event>, more: seq<Event>)
    requires Play(all, events).ended
    ensures var s, t := Play(all, events), Play(all, events + more);
      && t.ended && s.received <= t.received && t.window == s.window + all[s.received..t.received]
      && s.handled <= t.handled
    decreases |more|
  {
    hide Round, Drain;
    if more == [] {
      assert events + more == events;
    } else {
      var front := more[..|more| - 1];
      AfterEnd(all, events, front);
      assert (events + more)[..|events + more| - 1] == events + front;
      var s, t, u := Play(all, events), Play(all, events + front), Play(all, events + more);
      RoundGrows(t.window, more[|more| - 1], t.handled);
      assert all[s.received..t.received] + all[t.received..u.received] == all[s.received..u.received];
    }
  }

  lemma RoundGrows(w: Bytes, e: Event, handled: seq<seq<Bytes>>)
    ensures w != [] && e.Process? ==> handled <= Round(w, e.behind, handled).handled
  {
    hide Read, Args, Quits;
  }

  // ----- on streams of requests -----

  /** Request `k` has arrived whole within the first `n` bytes. */
  predicate Whole(rs: seq<Sent>, k: nat, n: nat)
  {
    k < |rs| && Offset(rs, k) + |Encode(rs[k])| <= n
  }

  /** How many times the request behind the consumed ones was passed to handle_command. */
  ghost function Repeats(rs: seq<Sent>, events: seq<Event>): nat
  {
    if events == [] then 0
    else
      var front := events[..|events| - 1];
      var n := Play(EncodeAll(rs), front).received;
      if !events[|events| - 1].Process? then Repeats(rs, front)
      else if Calm(rs, front) then (if Met(rs, n) > Consumed(rs, n) then 1 else 0)
      else Repeats(rs, front) + if Whole(rs, Kept(rs, front), n) then 1 else 0
  }

  function Copies(rs: seq<Sent>, k: nat, m: nat): (c: seq<seq<Bytes>>)
    ensures |c| == if k < |rs| then m else 0
  {
    if k < |rs| then seq(m, _ => rs[k].args) else []
  }

  /** Where a connection stands: the first `k` requests were consumed and handled once, the next one was handled `m`
      times, and the window holds everything that arrived behind the consumed ones. */
  ghost predicate Stands(rs: seq<Sent>, s: Session, k: nat, m: nat)
  {
    && k <= |rs| && Offset(rs, k) <= s.received <= |EncodeAll(rs)|
    && s.window == EncodeAll(rs)[Offset(rs, k)..s.received]
    && s.handled == ArgsOf(rs[..k]) + Copies(rs, k, m)
    && (m > 0 ==> Whole(rs, k, s.received))
  }

  lemma CaughtStands(rs: seq<Sent>, s: Session, k: nat)
    requires Caught(rs, s, k)
    ensures Stands(rs, s, k, 0)
  {
    hide Encode, EncodeAll, Offset;
    assert ArgsOf(rs[..k]) + [] == ArgsOf(rs[..k]);
  }

  lemma ArriveStands(rs: seq<Sent>, s: Session, k: nat, m: nat, n: nat)
    requires Stands(rs, s, k, m) && s.received <= n <= |EncodeAll(rs)|
    ensures Stands(rs, s.(received := n, window := s.window + EncodeAll(rs)[s.received..n]), k, m)
  {
    hide Encode, EncodeAll, Offset;
    var all, p := EncodeAll(rs), Offset(rs, k);
    assert all[p..s.received] + all[s.received..n] == all[p..n];
  }

  /** The run of the loop that ends the connection, or not. */
  lemma LoopStands(rs: seq<Sent>, s: Session, k: nat, behind: byte)
    requires AllGood(rs) && Caught(rs, s, k)
    ensures var o, n := Drain(s.window, behind, s.handled), s.received;
      && Consumed(rs, n) <= Met(rs, n) <= Consumed(rs, n) + 1
      && Stands(rs, s.(window := o.rest, handled := o.handled, ended := o.ended), Consumed(rs, n),
                if Met(rs, n) > Consumed(rs, n) then 1 else 0)
  {
    hide Encode, EncodeAll, Offset, Drain, Good, Quits, Benign, Consumed, Met;
    ProcessServes(rs, s, k, behind);
    ConsumedExactly(rs, s.received);
    var j := Consumed(rs, s.received);
    if Met(rs, s.received) > j {
      assert rs[..j + 1] == rs[..j] + [rs[j]];
      ArgsOfJoin(rs[..j], [rs[j]]);
      assert ArgsOf([rs[j]]) == Copies(rs, j, 1);
    } else {
      assert ArgsOf(rs[..j]) + [] == ArgsOf(rs[..j]);
    }
  }

  /** The window begins with request `k`, or with its first bytes. */
  lemma HeadIs(rs: seq<Sent>, k: nat, n: nat)
    requires k < |rs| && Offset(rs, k) <= n <= |EncodeAll(rs)|
    ensures var p := Offset(rs, k);
      && n - p <= |Encode(rs[k]) + EncodeAll(rs[k + 1..])|
      && EncodeAll(rs)[p..n] == (Encode(rs[k]) + EncodeAll(rs[k + 1..]))[..n - p]
  {
    hide Encode;
    var all, p := EncodeAll(rs), Offset(rs, k);
    OffsetSplit(rs, k);
    assert rs[k..][0] == rs[k] && rs[k..][1..] == rs[k + 1..];
    hide Offset;
    SliceOfDrop(all, p, 0, n);
  }

  lemma EmptyAtEnd(rs: seq<Sent>, n: nat)
    requires Offset(rs, |rs|) <= n <= |EncodeAll(rs)|
    ensures EncodeAll(rs)[Offset(rs, |rs|)..n] == []
  {
    OffsetSplit(rs, |rs|);
    assert rs[|rs|..] == [];
  }

  lemma HeadAgain(rs: seq<Sent>, k: nat, n: nat, behind: byte, handled: seq<seq<Bytes>>)
    requires AllGood(rs) && k <= |rs| && Offset(rs, k) <= n <= |EncodeAll(rs)|
    ensures var w := EncodeAll(rs)[Offset(rs, k)..n];
      Run(w, behind, handled, true)
      == Outcome(if Whole(rs, k, n) then handled + [rs[k].args] else handled, w, true)
  {
    hide EncodeAll, Offset, Encode, Good, Quits, Round, Drain;
    var p := Offset(rs, k);
    if k == |rs| {
      EmptyAtEnd(rs, n);
    } else if n > p {
      var r, tail := rs[k], EncodeAll(rs[k + 1..]);
      assert Good(r);
      HeadIs(rs, k, n);
      TakePast(Encode(r), tail, n - p);
      if n - p < |Encode(r)| {
        CutRound(r, n - p, behind, handled);
      } else {
        RoundWhole(r, tail[..n - p - |Encode(r)|], behind, handled);
      }
    }
  }

  lemma CutRound(r: Sent, c: nat, behind: byte, handled: seq<seq<Bytes>>)
    requires Good(r) && 0 < c < |Encode(r)|
    ensures Round(Encode(r)[..c], behind, handled).handled == handled
  {
    hide Encode, Good, Read, Quits;
    CutIs(r, c, behind);
  }

  lemma AgainStands(rs: seq<Sent>, s: Session, k: nat, m: nat, behind: byte)
    requires AllGood(rs) && Stands(rs, s, k, m) && s.ended
    ensures var o := Run(s.window, behind, s.handled, true);
      Stands(rs, s.(window := o.rest, handled := o.handled, ended := o.ended), k,
             m + if Whole(rs, k, s.received) then 1 else 0)
  {
    hide Encode, EncodeAll, Offset, Run, Good;
    HeadAgain(rs, k, s.received, behind, s.handled);
    if Whole(rs, k, s.received) {
      assert Copies(rs, k, m) + [rs[k].args] == Copies(rs, k, m + 1);
      Assoc(ArgsOf(rs[..k]), Copies(rs, k, m), [rs[k].args]);
    }
  }

  /** Every history of every connection: the consumed requests were handled once each, in order; the one behind them
      `Repeats` times, which is none while the connection is open; the window is exactly the rest of what arrived. */
  lemma {:induction false} WholeHistory(rs: seq<Sent>, events: seq<Event>)
    requires AllGood(rs)
    ensures Stands(rs, Play(EncodeAll(rs), events), Kept(rs, events), Repeats(rs, events))
    ensures Play(EncodeAll(rs), events).ended <==> !Calm(rs, events)
    ensures Calm(rs, events) ==> Repeats(rs, events) == 0
    decreases |events|
  {
    hide Stands, Caught, AllGood, Benign, Run, EncodeAll, Consumed, Met, Whole;
    EndsExactly(rs, events);
    if Calm(rs, events) {
      ChunkingIrrelevant(rs, events);
      CaughtStands(rs, Play(EncodeAll(rs), events), Kept(rs, events));
      CalmAgain(rs, events);
    } else {
      var front, e := events[..|events| - 1], events[|events| - 1];
      var s := Play(EncodeAll(rs), front);
      WholeHistory(rs, front);
      match e
      case Arrive(len) =>
        ArriveStands(rs, s, Kept(rs, front), Repeats(rs, front), Play(EncodeAll(rs), events).received);
      case Hangup => HangupStands(rs, s, Kept(rs, front), Repeats(rs, front));
      case Process(behind) =>
        if Calm(rs, front) {
          ChunkingIrrelevant(rs, front);
          LoopStands(rs, s, Kept(rs, front), behind);
          RunOpen(s.window, behind, s.handled);
        } else {
          AgainStands(rs, s, Kept(rs, front), Repeats(rs, front), behind);
        }
    }
  }

  lemma RunOpen(w: Bytes, behind: byte, handled: seq<seq<Bytes>>)
    ensures Run(w, behind, handled, false) == Drain(w, behind, handled)
  {
  }

  lemma HangupStands(rs: seq<Sent>, s: Session, k: nat, m: nat)
    requires Stands(rs, s, k, m)
    ensures Stands(rs, s.(ended := true), k, m)
  {
  }

  lemma {:induction false} CalmAgain(rs: seq<Sent>, events: seq<Event>)
    requires Calm(rs, events)
    ensures Repeats(rs, events) == 0
    decreases |events|
  {
    hide Benign, Consumed, Met, EncodeAll, Play;
    if events != [] {
      var front, e := events[..|events| - 1], events[|events| - 1];
      CalmAgain(rs, front);
      if e.Process? {
        BenignMeets(rs, Play(EncodeAll(rs), front).received, e.behind);
      }
    }
  }

  /** At every run of the loop the request behind the consumed ones has not been handled yet. */
  ghost predicate AlwaysFresh(rs: seq<Sent>, events: seq<Event>)
  {
    forall i | 0 <= i < |events| && events[i].Process? :: Repeats(rs, events[..i]) == 0
  }

  lemma FreshNext(rs: seq<Sent>, front: seq<Event>, e: Event)
    ensures AlwaysFresh(rs, front + [e]) <==> AlwaysFresh(rs, front) && (e.Process? ==> Repeats(rs, front) == 0)
  {
    hide Repeats;
    var events := front + [e];
    assert forall i | 0 <= i < |front| :: front[..i] == events[..i] && front[i] == events[i];
    assert events[..|front|] == front;
  }

  /** No request is handled twice if and only if that is so. */
  lemma {:induction false} OnceExactly(rs: seq<Sent>, events: seq<Event>)
    requires AllGood(rs)
    ensures Repeats(rs, events) <= 1 <==> AlwaysFresh(rs, events)
    decreases |events|
  {
    hide *;
    if events == [] {
      OnceAtFirst(rs);
    } else {
      var front, e := events[..|events| - 1], events[|events| - 1];
      FrontAndLast(events);
      OnceExactly(rs, front);
      AgainStep(rs, front, e);
      FreshNext(rs, front, e);
    }
  }

  lemma OnceAtFirst(rs: seq<Sent>)
    ensures Repeats(rs, []) == 0 && AlwaysFresh(rs, [])
  {
  }

  lemma AgainStep(rs: seq<Sent>, front: seq<Event>, e: Event)
    requires AllGood(rs)
    ensures var m, l := Repeats(rs, front), Repeats(rs, front + [e]);
      && (!e.Process? ==> l == m) && (e.Process? && m > 0 ==> l == m + 1) && (e.Process? && m == 0 ==> l <= 1)
  {
    hide AllGood, EncodeAll, Consumed, Met, Calm;
    WholeHistory(rs, front);
    assert (front + [e])[..|front + [e]| - 1] == front;
  }

  /** A QUIT received whole is handled by the run of the loop that ends the connection, and by the next one again. */
  lemma QuitTwice(q: Sent, b: byte, c: byte)
    requires Good(q) && Quits(q.args)
    ensures Play(EncodeAll([q]), [Arrive(|Encode(q)|)] + [Process(b)] + [Process(c)]).handled == [q.args, q.args]
  {
    var all, e0 := EncodeAll([q]), [Arrive(|Encode(q)|)];
    assert [q][1..] == [] && EncodeAll([]) == [];
    assert all == Encode(q) + [] == Encode(q);
    AllArrives(all);
    hide Encode, Good, Quits, Round, EncodeAll;
    assert (e0 + [Process(b)])[..1] == e0;
    assert (e0 + [Process(b)] + [Process(c)])[..2] == e0 + [Process(b)];
    RoundWhole(q, [], b, []);
    DrainWhole(q, [], b, []);
    RoundWhole(q, [], c, [q.args]);
    assert [] + [q.args] == [q.args] && [q.args] + [q.args] == [q.args, q.args];
  }

  lemma AllArrives(all: Bytes)
    ensures Play(all, [Arrive(|all|)]) == Session(|all|, all, [], false)
  {
    var events := [Arrive(|all|)];
    assert events[..|events| - 1] == [];
    assert Play(all, []) == Session(0, [], [], false);
    assert [] + all[0..|all|] == all;
  }
}
