/** Request streams: whatever the sizes of the reads, the requests handled are those that were sent, in order. */
module Streams {
  import opened Bits
  import opened Protocol
  import opened Encoding
  import opened Requests
  import opened Seqs

  /** What processing a window leaves: the requests handled, the bytes not consumed, and the END flag. */
  datatype Outcome = Outcome(handled: seq<seq<Bytes>>, rest: Bytes, ended: bool)

  /** The QUIT command of right arity, the one command that ends its connection. */
  predicate Quits(args: seq<Bytes>)
  {
    args == [[81, 85, 73, 84]]
  }

  /** One round of on_data_available on window `w`: a request handled and consumed, or the end of the loop. */
  function Round(w: Bytes, behind: byte, handled: seq<seq<Bytes>>): (o: Outcome)
    requires w != []
    ensures |o.rest| <= |w| && (o.ended ==> o.rest == w)
  {
    var u := w + [behind];
    match Read(u)
    case Incomplete => Outcome(handled, w, false)
    case Error => Outcome(handled, w, true)
    case BadArgc => Outcome(handled, w, true)
    case Ok(spans, len) =>
      OkStable(w, behind, u);
      if spans == [] then Outcome(handled, w[len..], false)
      else
        var args := Args(w, spans);
        if Quits(args) then Outcome(handled + [args], w, true) else Outcome(handled + [args], w[len..], false)
  }

  /** The on_data_available loop: rounds until the window is empty, incomplete, or the connection ends. */
  function Drain(w: Bytes, behind: byte, handled: seq<seq<Bytes>>): Outcome
    decreases |w|
  {
    if w == [] then Outcome(handled, [], false)
    else
      var o := Round(w, behind, handled);
      if !o.ended && |o.rest| < |w| then Drain(o.rest, behind, o.handled) else o
  }

  /** The loop on a connection that may have ended already: such a one still handles the request at the head of its
      window, but consumes nothing and goes no further. */
  function Run(w: Bytes, behind: byte, handled: seq<seq<Bytes>>, ended: bool): Outcome
  {
    if !ended then Drain(w, behind, handled)
    else Outcome(if w == [] then handled else Round(w, behind, handled).handled, w, true)
  }

  // ----- streams of requests -----

  type Sent = r: Request | r.args != [] witness Line([[0]])

  ghost predicate AllGood(rs: seq<Sent>)
  {
    forall i | 0 <= i < |rs| :: Good(rs[i])
  }

  function EncodeAll(rs: seq<Sent>): Bytes
  {
    if rs == [] then [] else Encode(rs[0]) + EncodeAll(rs[1..])
  }

  function ArgsOf(rs: seq<Sent>): seq<seq<Bytes>>
  {
    seq(|rs|, (i: nat) requires i < |rs| => rs[i].args)
  }

  /** How many requests the loop consumes from the first `n` bytes: the whole ones ahead of any QUIT. */
  function Consumed(rs: seq<Sent>, n: nat): (k: nat)
    ensures k <= |rs|
    decreases |rs|
  {
    if rs == [] || n < |Encode(rs[0])| || Quits(rs[0].args) then 0 else 1 + Consumed(rs[1..], n - |Encode(rs[0])|)
  }

  /** How many it passes to handle_command: these, and the QUIT behind them if that is whole. */
  function Met(rs: seq<Sent>, n: nat): (k: nat)
    ensures k <= |rs|
    decreases |rs|
  {
    if rs == [] || n < |Encode(rs[0])| then 0
    else if Quits(rs[0].args) then 1
    else 1 + Met(rs[1..], n - |Encode(rs[0])|)
  }

  /** Bytes of the first `k` requests. */
  function Offset(rs: seq<Sent>, k: nat): nat
    requires k <= |rs|
    decreases |rs|
  {
    if k == 0 then 0 else |Encode(rs[0])| + Offset(rs[1..], k - 1)
  }

  /** The loop leaves the connection open when it stops after `n` bytes of the stream: it met no QUIT, and the request
      cut there, if any, reads as incomplete. */
  ghost predicate Benign(rs: seq<Sent>, n: nat, behind: byte)
    decreases |rs|
  {
    if rs == [] || n == 0 then true
    else if n < |Encode(rs[0])| then CutRead(rs[0], n, behind) == Incomplete
    else !Quits(rs[0].args) && Benign(rs[1..], n - |Encode(rs[0])|, behind)
  }

  lemma RoundWhole(r: Sent, tail: Bytes, behind: byte, handled: seq<seq<Bytes>>)
    requires Good(r)
    ensures Round(Encode(r) + tail, behind, handled)
            == if Quits(r.args) then Outcome(handled + [r.args], Encode(r) + tail, true)
               else Outcome(handled + [r.args], tail, false)
  {
    hide Encode, Read, Good, Spans;
    var e, w := Encode(r), Encode(r) + tail;
    var u := w + [behind];
    assert At(u, 0, e);
    WholeRead(r, u);
    ArgsInside(w, behind, Spans(r), |e|);
    assert w[|e|..] == tail;
  }

  lemma DrainWhole(r: Sent, tail: Bytes, behind: byte, handled: seq<seq<Bytes>>)
    requires Good(r)
    ensures Drain(Encode(r) + tail, behind, handled)
            == if Quits(r.args) then Outcome(handled + [r.args], Encode(r) + tail, true)
               else Drain(tail, behind, handled + [r.args])
  {
    hide Encode, Good, Round, Quits;
    RoundWhole(r, tail, behind, handled);
  }

  lemma DrainCut(r: Sent, n: nat, behind: byte, handled: seq<seq<Bytes>>)
    requires Good(r) && 0 < n < |Encode(r)|
    ensures Drain(Encode(r)[..n], behind, handled)
            == Outcome(handled, Encode(r)[..n], !CutRead(r, n, behind).Incomplete?)
  {
    hide Encode, Good, Read, Quits;
    CutIs(r, n, behind);
  }

  /** Arguments read inside the window do not touch the byte behind it. */
  lemma ArgsInside(w: Bytes, behind: byte, spans: seq<Span>, len: nat)
    requires w != [] && Read(w + [behind]) == Ok(spans, len)
    ensures Args(w, spans) == Args(w + [behind], spans)
  {
    var u := w + [behind];
    assert u[..End(u)] == w;
    SpansInside(u);
    forall i | 0 <= i < |spans|
      ensures Args(w, spans)[i] == Args(u, spans)[i]
    {
      var s := spans[i];
      assert w[s.offset..][..s.len] == w[s.offset..s.offset + s.len] == u[s.offset..s.offset + s.len]
          == u[s.offset..][..s.len];
    }
  }

  lemma SpansInside(u: Bytes)
    requires |u| > 1 && Read(u).Ok?
    ensures forall i | 0 <= i < |Read(u).spans| :: Read(u).spans[i].offset + Read(u).spans[i].len <= End(u)
  {
    if u[0] == STAR {
      ScanRange(u, 1, 0);
      var c := Scan(u, 1, 0);
      ArgsInWindow(u, c.cur, c.value, []);
    } else {
      InlineInWindow(u[..End(u)], 0, [], None, false);
    }
  }

  ghost predicate Within(spans: seq<Span>, n: nat)
  {
    forall i | 0 <= i < |spans| :: spans[i].offset + spans[i].len <= n
  }

  lemma {:induction false} ArgsInWindow(u: Bytes, cur: nat, argc: nat, spans: seq<Span>)
    requires u != [] && cur <= End(u) && |spans| <= argc && Within(spans, End(u))
    ensures ReadArgs(u, cur, argc, spans).Ok? ==> Within(ReadArgs(u, cur, argc, spans).spans, End(u))
    decreases argc - |spans|
  {
    if |spans| < argc && cur < End(u) && u[cur] == DOLLAR {
      ScanRange(u, cur + 1, 0);
      var c := Scan(u, cur + 1, 0);
      if c.Number? && c.cur + c.value + 2 <= End(u) {
        ArgsInWindow(u, c.cur + c.value + 2, argc, spans + [Span(c.cur, c.value)]);
      }
    }
  }

  lemma {:induction false} InlineInWindow(w: Bytes, i: nat, spans: seq<Span>, open: Option<nat>, crlf: bool)
    requires i <= |w| && (open.Some? ==> open.value <= i) && Within(spans, |w|)
    ensures ReadInline(w, i, spans, open, crlf).Ok? ==> Within(ReadInline(w, i, spans, open, crlf).spans, |w|)
    decreases |w| - i
  {
    if i < |w| {
      var closed := if open.Some? then spans + [Span(open.value, i - open.value)] else spans;
      if w[i] == SPACE {
        InlineInWindow(w, i + 1, closed, None, crlf);
      } else if w[i] == CR {
        InlineInWindow(w, i + 1, closed, None, true);
      } else if w[i] != LF && open.Some? {
        InlineInWindow(w, i + 1, spans, open, crlf);
      } else if w[i] != LF && |spans| != MAX_ARGC {
        InlineInWindow(w, i + 1, spans, Some(i), crlf);
      }
    }
  }

  lemma SliceOver(e: Bytes, tail: Bytes, p: nat, n: nat)
    requires p <= n <= |tail|
    ensures (e + tail)[|e| + p..|e| + n] == tail[p..n]
  {
  }

  lemma ArgsOfJoin(a: seq<Sent>, b: seq<Sent>)
    ensures ArgsOf(a + b) == ArgsOf(a) + ArgsOf(b)
  {
  }

  lemma TakeCons<T>(s: seq<T>, k: nat)
    requires k < |s|
    ensures s[..k + 1] == [s[0]] + s[1..][..k]
  {
  }

  /** Draining a window that holds the stream up to byte `n` handles the whole requests up to and including the first
      QUIT, and keeps what follows the last one consumed. */
  ghost predicate Swept(rs: seq<Sent>, n: nat, behind: byte, handled: seq<seq<Bytes>>)
    requires n <= |EncodeAll(rs)|
  {
    var k := Consumed(rs, n);
    && Offset(rs, k) <= n
    && Drain(EncodeAll(rs)[..n], behind, handled)
       == Outcome(handled + ArgsOf(rs[..Met(rs, n)]), EncodeAll(rs)[Offset(rs, k)..n], !Benign(rs, n, behind))
  }

  lemma SweptCut(rs: seq<Sent>, n: nat, behind: byte, handled: seq<seq<Bytes>>)
    requires AllGood(rs) && n <= |EncodeAll(rs)|
    requires rs == [] || n < |Encode(rs[0])|
    ensures Swept(rs, n, behind, handled)
  {
    hide Encode, CutRead, Round, Good, Quits;
    assert ArgsOf(rs[..0]) == [] && handled + [] == handled;
    if rs != [] && n > 0 {
      TakePast(Encode(rs[0]), EncodeAll(rs[1..]), n);
      hide Drain;
      assert Good(rs[0]);
      DrainCut(rs[0], n, behind, handled);
    }
  }

  lemma SweptQuit(rs: seq<Sent>, n: nat, behind: byte, handled: seq<seq<Bytes>>)
    requires rs != [] && Good(rs[0]) && Quits(rs[0].args) && |Encode(rs[0])| <= n <= |EncodeAll(rs)|
    ensures Swept(rs, n, behind, handled)
  {
    hide Encode, CutRead, Round, Good, Quits, Drain;
    var r, e, tail := rs[0], Encode(rs[0]), EncodeAll(rs[1..]);
    TakePast(e, tail, n);
    DrainWhole(r, tail[..n - |e|], behind, handled);
    assert ArgsOf(rs[..1]) == [r.args];
  }

  lemma SweptMore(rs: seq<Sent>, n: nat, behind: byte, handled: seq<seq<Bytes>>)
    requires rs != [] && Good(rs[0]) && !Quits(rs[0].args) && |Encode(rs[0])| <= n <= |EncodeAll(rs)|
    requires Swept(rs[1..], n - |Encode(rs[0])|, behind, handled + [rs[0].args])
    ensures Swept(rs, n, behind, handled)
  {
    hide Encode, CutRead, Round, Good, Quits, Drain;
    var r, e, tail := rs[0], Encode(rs[0]), EncodeAll(rs[1..]);
    var m := n - |e|;
    TakePast(e, tail, n);
    DrainWhole(r, tail[..m], behind, handled);
    SliceOver(e, tail, Offset(rs[1..], Consumed(rs[1..], m)), m);
    ArgsOfNext(rs, Met(rs[1..], m), handled);
  }

  lemma ArgsOfNext(rs: seq<Sent>, k: nat, handled: seq<seq<Bytes>>)
    requires k < |rs|
    ensures handled + ArgsOf(rs[..k + 1]) == handled + [rs[0].args] + ArgsOf(rs[1..][..k])
  {
    TakeCons(rs, k);
    ArgsOfJoin([rs[0]], rs[1..][..k]);
  }

  lemma {:induction false} DrainStream(rs: seq<Sent>, n: nat, behind: byte, handled: seq<seq<Bytes>>)
    requires AllGood(rs) && n <= |EncodeAll(rs)|
    ensures Swept(rs, n, behind, handled)
    decreases |rs|
  {
    hide Encode, CutRead, Round, Good, Quits, Drain, Swept, Consumed, Met, Offset;
    if rs == [] || n < |Encode(rs[0])| {
      SweptCut(rs, n, behind, handled);
    } else if Quits(rs[0].args) {
      assert Good(rs[0]);
      SweptQuit(rs, n, behind, handled);
    } else {
      assert Good(rs[0]);
      DrainStream(rs[1..], n - |Encode(rs[0])|, behind, handled + [rs[0].args]);
      SweptMore(rs, n, behind, handled);
    }
  }

  /** Consumed are the requests that lie wholly within the first `n` bytes and have no QUIT among or before them. */
  lemma {:induction false} ConsumedExactly(rs: seq<Sent>, n: nat)
    ensures var k := Consumed(rs, n);
      && Offset(rs, k) <= n
      && (forall i | 0 <= i < k :: !Quits(rs[i].args))
      && (k < |rs| ==> Quits(rs[k].args) || n < Offset(rs, k) + |Encode(rs[k])|)
      && Met(rs, n) == if k < |rs| && Quits(rs[k].args) && Offset(rs, k) + |Encode(rs[k])| <= n then k + 1 else k
    decreases |rs|
  {
    hide Encode, Quits;
    if rs != [] && n >= |Encode(rs[0])| && !Quits(rs[0].args) {
      ConsumedExactly(rs[1..], n - |Encode(rs[0])|);
      var k := Consumed(rs[1..], n - |Encode(rs[0])|);
      assert k < |rs[1..]| ==> rs[1..][k] == rs[k + 1];
      assert forall i | 0 < i <= k :: rs[i] == rs[1..][i - 1];
    }
  }

  // ----- any sequence of reads and loop runs -----

  /** A read of `len` further bytes, a run of the loop with whatever byte lies behind the window then, or the end of the
      stream or a read error. */
  datatype Event = Arrive(len: nat) | Process(behind: byte) | Hangup

  /** The connection after some events on the stream `all`: bytes received, window, requests handled, END flag. */
  datatype Session = Session(received: nat, window: Bytes, handled: seq<seq<Bytes>>, ended: bool)

  function Play(all: Bytes, events: seq<Event>): (s: Session)
    ensures s.received <= |all|
  {
    if events == [] then Session(0, [], [], false)
    else
      var s := Play(all, events[..|events| - 1]);
      match events[|events| - 1]
      case Arrive(len) =>
        var n := if s.received + len <= |all| then s.received + len else |all|;
        s.(received := n, window := s.window + all[s.received..n])
      case Process(behind) =>
        var o := Run(s.window, behind, s.handled, s.ended);
        s.(window := o.rest, handled := o.handled, ended := o.ended)
      case Hangup => s.(ended := true)
  }

  /** No hangup, and every run of the loop leaves the connection open. */
  ghost predicate Calm(rs: seq<Sent>, events: seq<Event>)
  {
    events == [] || (
      && Calm(rs, events[..|events| - 1])
      && match events[|events| - 1]
         case Arrive(_) => true
         case Process(behind) => Benign(rs, Play(EncodeAll(rs), events[..|events| - 1]).received, behind)
         case Hangup => false)
  }

  /** The requests consumed by the last run of the loop that found the connection open. */
  ghost function Kept(rs: seq<Sent>, events: seq<Event>): (k: nat)
    ensures k <= |rs|
  {
    if events == [] then 0
    else
      var front := events[..|events| - 1];
      if events[|events| - 1].Process? && Calm(rs, front) then Consumed(rs, Play(EncodeAll(rs), front).received)
      else Kept(rs, front)
  }

  lemma {:induction false} OffsetSplit(rs: seq<Sent>, k: nat)
    requires k <= |rs|
    ensures Offset(rs, k) <= |EncodeAll(rs)| && EncodeAll(rs)[Offset(rs, k)..] == EncodeAll(rs[k..])
    decreases |rs|
  {
    hide Encode;
    if k > 0 {
      OffsetSplit(rs[1..], k - 1);
      assert EncodeAll(rs)[|Encode(rs[0])|..] == EncodeAll(rs[1..]);
      assert rs[1..][k - 1..] == rs[k..];
    } else {
      assert rs[0..] == rs;
    }
  }

  lemma {:induction false} ConsumedFrom(rs: seq<Sent>, k: nat, n: nat, behind: byte)
    requires k <= |rs| && Offset(rs, k) <= n && forall i | 0 <= i < k :: !Quits(rs[i].args)
    ensures Consumed(rs, n) == k + Consumed(rs[k..], n - Offset(rs, k))
    ensures Met(rs, n) == k + Met(rs[k..], n - Offset(rs, k))
    ensures Benign(rs, n, behind) == Benign(rs[k..], n - Offset(rs, k), behind)
    decreases |rs|
  {
    hide Encode, CutRead, Quits;
    if k > 0 {
      assert !Quits(rs[0].args);
      assert forall i | 0 <= i < k - 1 :: rs[1..][i] == rs[i + 1];
      ConsumedFrom(rs[1..], k - 1, n - |Encode(rs[0])|, behind);
      assert rs[1..][k - 1..] == rs[k..];
    } else {
      assert rs[0..] == rs;
    }
  }

  lemma {:induction false} OffsetFrom(rs: seq<Sent>, k: nat, j: nat)
    requires k + j <= |rs|
    ensures Offset(rs, k + j) == Offset(rs, k) + Offset(rs[k..], j)
    decreases k
  {
    hide Encode;
    if k > 0 {
      OffsetFrom(rs[1..], k - 1, j);
      assert rs[1..][k - 1..] == rs[k..];
    } else {
      assert rs[0..] == rs;
    }
  }

  /** The first `k` requests, no QUIT among them, are handled; the rest of what arrived is in the window. */
  ghost predicate Caught(rs: seq<Sent>, s: Session, k: nat)
  {
    && k <= |rs| && Offset(rs, k) <= s.received <= |EncodeAll(rs)| && (forall i | 0 <= i < k :: !Quits(rs[i].args))
    && s.handled == ArgsOf(rs[..k]) && s.window == EncodeAll(rs)[Offset(rs, k)..s.received] && !s.ended
  }

  lemma CaughtNone(rs: seq<Sent>)
    ensures Caught(rs, Session(0, [], [], false), 0)
  {
  }

  lemma ArriveCatches(rs: seq<Sent>, s: Session, k: nat, n: nat)
    requires Caught(rs, s, k) && s.received <= n <= |EncodeAll(rs)|
    ensures Caught(rs, s.(received := n, window := s.window + EncodeAll(rs)[s.received..n]), k)
  {
    hide Encode, EncodeAll, Offset, Quits;
    var all, p := EncodeAll(rs), Offset(rs, k);
    assert all[p..s.received] + all[s.received..n] == all[p..n];
  }

  lemma TakeMore<T>(s: seq<T>, k: nat, j: nat)
    requires k + j <= |s|
    ensures s[..k + j] == s[..k] + s[k..][..j]
  {
  }

  lemma SliceOfDrop(all: Bytes, p: nat, q: nat, n: nat)
    requires p + q <= n <= |all|
    ensures all[p..][q..n - p] == all[p + q..n]
  {
  }

  /** A run of the loop handles everything whole up to the first QUIT, and ends the connection unless that is benign. */
  lemma ProcessServes(rs: seq<Sent>, s: Session, k: nat, behind: byte)
    requires AllGood(rs) && Caught(rs, s, k)
    ensures var n := s.received;
      && Offset(rs, Consumed(rs, n)) <= n <= |EncodeAll(rs)|
      && Drain(s.window, behind, s.handled)
         == Outcome(ArgsOf(rs[..Met(rs, n)]), EncodeAll(rs)[Offset(rs, Consumed(rs, n))..n], !Benign(rs, n, behind))
  {
    hide Encode, CutRead, Drain, Round, Good, Quits, Consumed, Met, Offset, EncodeAll, Benign;
    var all, n, p, rest := EncodeAll(rs), s.received, Offset(rs, k), rs[k..];
    OffsetSplit(rs, k);
    ConsumedFrom(rs, k, n, behind);
    SliceOfDrop(all, p, 0, n);
    assert AllGood(rest);
    DrainStream(rest, n - p, behind, s.handled);
    OffsetFrom(rs, k, Consumed(rest, n - p));
    TakeMore(rs, k, Met(rest, n - p));
    ArgsOfJoin(rs[..k], rest[..Met(rest, n - p)]);
    SliceOfDrop(all, p, Offset(rest, Consumed(rest, n - p)), n);
  }

  lemma ProcessCatches(rs: seq<Sent>, s: Session, k: nat, behind: byte)
    requires AllGood(rs) && Caught(rs, s, k) && Benign(rs, s.received, behind)
    ensures var o := Drain(s.window, behind, s.handled);
      Caught(rs, s.(window := o.rest, handled := o.handled, ended := o.ended), Consumed(rs, s.received))
  {
    hide Encode, CutRead, Drain, Good, Quits, Consumed, Met, Offset, EncodeAll, Benign;
    ProcessServes(rs, s, k, behind);
    ConsumedExactly(rs, s.received);
    BenignMeets(rs, s.received, behind);
  }

  lemma {:induction false} BenignMeets(rs: seq<Sent>, n: nat, behind: byte)
    requires Benign(rs, n, behind)
    ensures Met(rs, n) == Consumed(rs, n)
    decreases |rs|
  {
    hide Encode, CutRead, Quits;
    if rs != [] && n >= |Encode(rs[0])| {
      BenignMeets(rs[1..], n - |Encode(rs[0])|, behind);
    }
  }

  /** Chunking does not matter: after any reads, the requests handled are exactly those consumed by the last run of the
      loop, in order, and the window is exactly the rest of what arrived. */
  lemma {:induction false} ChunkingIrrelevant(rs: seq<Sent>, events: seq<Event>)
    requires AllGood(rs) && Calm(rs, events)
    ensures Caught(rs, Play(EncodeAll(rs), events), Kept(rs, events))
    decreases |events|
  {
    hide Caught, AllGood, Benign, Drain, EncodeAll, Consumed;
    if events == [] {
      CaughtNone(rs);
    } else {
      var front, e := events[..|events| - 1], events[|events| - 1];
      ChunkingIrrelevant(rs, front);
      var s, k := Play(EncodeAll(rs), front), Kept(rs, front);
      match e
      case Arrive(len) =>
        ArriveCatches(rs, s, k, Play(EncodeAll(rs), events).received);
      case Process(behind) =>
        EndsExactly(rs, front);
        ProcessCatches(rs, s, k, behind);
    }
  }

  /** The connection has ended exactly when it hung up, or some run of the loop met a QUIT or a trap. */
  lemma {:induction false} EndsExactly(rs: seq<Sent>, events: seq<Event>)
    requires AllGood(rs)
    ensures Play(EncodeAll(rs), events).ended <==> !Calm(rs, events)
    decreases |events|
  {
    hide Caught, AllGood, Benign, Drain, Round, EncodeAll, Consumed, Met, Offset;
    if events != [] {
      var front, e := events[..|events| - 1], events[|events| - 1];
      EndsExactly(rs, front);
      if Calm(rs, front) && e.Process? {
        ChunkingIrrelevant(rs, front);
        ProcessServes(rs, Play(EncodeAll(rs), front), Kept(rs, front), e.behind);
      }
    }
  }

  /** The run of the loop that follows a calm history, also one that ends the connection: all whole requests up to and
      including the first QUIT are handled, in order, and the QUIT stays in the window. */
  lemma LastRun(rs: seq<Sent>, front: seq<Event>, behind: byte)
    requires AllGood(rs) && Calm(rs, front)
    ensures var t, n := Play(EncodeAll(rs), front + [Process(behind)]), Play(EncodeAll(rs), front).received;
      && t.handled == ArgsOf(rs[..Met(rs, n)]) && t.ended == !Benign(rs, n, behind)
      && Offset(rs, Consumed(rs, n)) <= n && t.window == EncodeAll(rs)[Offset(rs, Consumed(rs, n))..n]
  {
    hide Caught, AllGood, Benign, Drain, Round, EncodeAll, Consumed, Met, Offset, Calm;
    var events := front + [Process(behind)];
    assert events[..|events| - 1] == front;
    EndsExactly(rs, front);
    ChunkingIrrelevant(rs, front);
    ProcessServes(rs, Play(EncodeAll(rs), front), Kept(rs, front), behind);
  }

  /** Once the whole stream is in and the loop has run, every request has been handled and nothing is left over. */
  lemma AllHandled(rs: seq<Sent>, events: seq<Event>)
    requires AllGood(rs) && Calm(rs, events) && events != [] && events[|events| - 1].Process?
    requires Play(EncodeAll(rs), events).received == |EncodeAll(rs)|
    ensures var t := Play(EncodeAll(rs), events); t.handled == ArgsOf(rs) && t.window == [] && !t.ended
  {
    hide Benign, Drain, Round, Consumed, Met, Encode, Offset;
    ChunkingIrrelevant(rs, events);
    ConsumedAll(rs, events[|events| - 1].behind);
    assert rs[..|rs|] == rs;
  }

  lemma {:induction false} ConsumedAll(rs: seq<Sent>, behind: byte)
    requires Benign(rs, |EncodeAll(rs)|, behind)
    ensures Consumed(rs, |EncodeAll(rs)|) == |rs| && Offset(rs, |rs|) == |EncodeAll(rs)|
    decreases |rs|
  {
    if rs != [] {
      ConsumedAll(rs[1..], behind);
    }
  }

  /** Right after a run of the loop, less than one request is left in the window. */
  lemma LessThanOne(rs: seq<Sent>, events: seq<Event>)
    requires AllGood(rs) && Calm(rs, events) && (events == [] || events[|events| - 1].Process?)
    ensures var t, k := Play(EncodeAll(rs), events), Kept(rs, events);
      if k < |rs| then |t.window| < |Encode(rs[k])| else t.window == []
  {
    hide Benign, Drain, Round, Consumed, Met, Encode, Offset;
    ChunkingIrrelevant(rs, events);
    var n, k := Play(EncodeAll(rs), events).received, Kept(rs, events);
    OffsetSplit(rs, k);
    if events != [] {
      ConsumedExactly(rs, n);
      BenignMeets(rs, n, events[|events| - 1].behind);
    } else {
      assert Offset(rs, 0) == 0;
    }
    assert k == |rs| ==> rs[k..] == [];
  }

  function Total(events: seq<Event>): nat
  {
    if events == [] then 0
    else
      var e := events[|events| - 1];
      Total(events[..|events| - 1]) + if e.Arrive? then e.len else 0
  }

  /** What has happened does not depend on the bytes still to come. */
  lemma {:induction false} PlayExtend(all: Bytes, more: Bytes, events: seq<Event>)
    requires Total(events) <= |all|
    ensures Play(all + more, events) == Play(all, events) && Play(all, events).received == Total(events)
    decreases |events|
  {
    hide Run;
    if events != [] {
      var front := events[..|events| - 1];
      PlayExtend(all, more, front);
      assert (all + more)[Total(front)..Total(events)] == all[Total(front)..Total(events)];
    }
  }

  /** After `n` bytes the stream is between a '*' or '$' and the CR of its length line. */
  predicate InLengthLine(rs: seq<Sent>, n: nat)
    decreases |rs|
  {
    && rs != [] && n > 0
    && if n < |Encode(rs[0])| then rs[0].Array? && RespCut(rs[0].args, n).Some?
       else InLengthLine(rs[1..], n - |Encode(rs[0])|)
  }

  /** The reads that are benign whatever the memory behind the window are those that neither complete a QUIT nor end in
      a length line. */
  lemma {:induction false} BenignExactly(rs: seq<Sent>, n: nat)
    ensures InLengthLine(rs, n) || Met(rs, n) > Consumed(rs, n) ==> !Benign(rs, n, 0)
    ensures !InLengthLine(rs, n) && Met(rs, n) == Consumed(rs, n) ==> forall behind: byte :: Benign(rs, n, behind)
    decreases |rs|
  {
    hide RespCut, EncodeResp, EncodeInline;
    if rs != [] && n > 0 {
      var e := |Encode(rs[0])|;
      if n >= e {
        BenignExactly(rs[1..], n - e);
      }
    }
  }
}
