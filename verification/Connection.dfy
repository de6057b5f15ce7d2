/** The receive side of a connection: a buffer of fixed size, compacted in place and filled by reads. */
module Connections {
  import opened Bits
  import opened Protocol
  import opened Parsing
  import opened Requests
  import opened Streams
  import opened Endings

  /** What a round is, by the verdict of the parser. */
  lemma RoundCases(w: Bytes, behind: byte, handled: seq<seq<Bytes>>)
    requires w != []
    ensures match Read(w + [behind])
      case Ok(spans, len) =>
        && 0 < len <= |w|
        && Round(w, behind, handled)
           == if spans == [] then Outcome(handled, w[len..], false)
              else if Quits(Args(w, spans)) then Outcome(handled + [Args(w, spans)], w, true)
              else Outcome(handled + [Args(w, spans)], w[len..], false)
      case Incomplete => Round(w, behind, handled) == Outcome(handled, w, false)
      case _ => Round(w, behind, handled) == Outcome(handled, w, true)
  {
    hide Read, Args, Quits;
    if Read(w + [behind]).Ok? {
      OkStable(w, behind, w + [behind]);
    }
  }

  /** A round on any bytes, by their meaning: a refused request ends the connection, an unfinished one is left alone, a
      request of no arguments is skipped, and any other is handled, its arguments being the bytes at their places; QUIT
      ends the connection and is not consumed. */
  lemma RoundByMeaning(w: Bytes, behind: byte, handled: seq<seq<Bytes>>, r: Parsed)
    requires w != [] && ReadingIs(w + [behind], r)
    ensures var o := Round(w, behind, handled);
      match r
      case Error => o == Outcome(handled, w, true)
      case BadArgc => o == Outcome(handled, w, true)
      case Incomplete => o == Outcome(handled, w, false)
      case Ok(spans, len) =>
        && 0 < len <= |w|
        && if spans == [] then o == Outcome(handled, w[len..], false)
           else
             && |o.handled| == |handled| + 1 && o.handled[..|handled|] == handled
             && HoldsArgs(w, spans, o.handled[|handled|])
             && o.ended == (o.handled[|handled|] == [[81, 85, 73, 84]])
             && o.rest == if o.ended then w else w[len..]
  {
    ReadingExactly(w + [behind], r);
    RoundCases(w, behind, handled);
    if r.Ok? {
      ArgsHold(w, behind, r.spans, r.len);
    }
    hide Read, Args, Round;
  }

  ghost predicate HoldsArgs(w: Bytes, spans: seq<Span>, args: seq<Bytes>)
  {
    && |args| == |spans|
    && forall i | 0 <= i < |spans| ::
         spans[i].offset + spans[i].len <= |w| && args[i] == w[spans[i].offset..spans[i].offset + spans[i].len]
  }

  lemma ArgsHold(w: Bytes, behind: byte, spans: seq<Span>, len: nat)
    requires w != [] && Read(w + [behind]) == Ok(spans, len)
    ensures HoldsArgs(w, spans, Args(w, spans))
  {
    var u := w + [behind];
    assert u[..End(u)] == w;
    SpansInside(u);
    forall i | 0 <= i < |spans|
      ensures spans[i].offset + spans[i].len <= |w|
      ensures Args(w, spans)[i] == w[spans[i].offset..spans[i].offset + spans[i].len]
    {
      assert w[spans[i].offset..][..spans[i].len] == w[spans[i].offset..spans[i].offset + spans[i].len];
    }
  }

  /** The loop started on `w0` has come to `w`, whatever lay behind the window: what is left is to drain `w`. */
  ghost predicate Going(w0: Bytes, h0: seq<seq<Bytes>>, w: Bytes, h: seq<seq<Bytes>>)
  {
    forall behind: byte :: Run(w0, behind, h0, false) == Drain(w, behind, h)
  }

  /** One round more: one that ends the loop gives its outcome, any other goes on and is the same whatever lies
      behind. */
  lemma GoesOn(w0: Bytes, h0: seq<seq<Bytes>>, w: Bytes, h: seq<seq<Bytes>>, behind: byte)
    requires w != [] && Going(w0, h0, w, h)
    ensures var o := Round(w, behind, h);
      if o.ended || |o.rest| == |w| || o.rest == [] then Run(w0, behind, h0, false) == o
      else Going(w0, h0, o.rest, o.handled)
  {
    hide Read, Quits, Run;
    var o := Round(w, behind, h);
    if !o.ended && |o.rest| < |w| {
      forall c: byte
        ensures Drain(w, c, h) == Drain(o.rest, c, o.handled)
      {
        OkStable(w, behind, w + [c]);
      }
    }
  }

  lemma FirstRound(w: Bytes, behind: byte, h: seq<seq<Bytes>>, ended: bool)
    ensures w == [] ==> Run(w, behind, h, ended) == Outcome(h, w, ended)
    ensures w != [] && ended ==> Run(w, behind, h, ended) == Outcome(Round(w, behind, h).handled, w, true)
    ensures Going(w, h, w, h)
  {
    hide Read, Quits, Round;
  }

  lemma Processed(all: Bytes, events: seq<Event>, behind: byte)
    ensures Total(events + [Process(behind)]) == Total(events)
    ensures var s := Play(all, events);
      var o := Run(s.window, behind, s.handled, s.ended);
      Play(all, events + [Process(behind)]) == s.(window := o.rest, handled := o.handled, ended := o.ended)
  {
    hide Run;
    var after := events + [Process(behind)];
    assert after[..|after| - 1] == events;
  }

  lemma Arrived(all: Bytes, events: seq<Event>, chunk: Bytes)
    requires Total(events) == |all|
    ensures Total(events + [Arrive(|chunk|)]) == |all + chunk|
    ensures Play(all + chunk, events + [Arrive(|chunk|)])
            == Play(all, events).(received := |all + chunk|, window := Play(all, events).window + chunk)
  {
    hide Run;
    var after := events + [Arrive(|chunk|)];
    assert after[..|after| - 1] == events;
    PlayExtend(all, chunk, events);
    assert (all + chunk)[|all|..] == chunk;
  }

  lemma ProcessReceives(all: Bytes, events: seq<Event>, behind: byte)
    ensures Play(all, events + [Process(behind)]).received == Play(all, events).received
  {
    Processed(all, events, behind);
  }

  lemma HungUp(all: Bytes, events: seq<Event>)
    ensures Total(events + [Hangup]) == Total(events)
    ensures Play(all, events + [Hangup]) == Play(all, events).(ended := true)
  {
    hide Run;
    var after := events + [Hangup];
    assert after[..|after| - 1] == events;
  }

  const MESSAGE_MAX_LENGTH := 8192

  /** What read() delivers: bytes, nothing for now (EAGAIN), or the end of the stream or an error. */
  datatype ReadResult = Data(chunk: Bytes) | Again | Closed

  class Connection {
    const Dispatches: seq<Bytes> -> bool   // whether handling a request sends it to another shard
    var recvBuf: array<byte>
    var recvBufRead: nat
    var recvBufSize: nat
    var beyond: byte                       // the byte of memory behind the buffer: send_buf_size, changed by replies
    var ended: bool                        // END
    var waiting: bool                      // DISPATCH_WAITING
    var handled: seq<seq<Bytes>>           // the requests passed to handle_command
    ghost var received: Bytes
    ghost var consumed: Bytes
    ghost var events: seq<Event>

    ghost predicate Fits()
      reads this`recvBuf, this`recvBufRead, this`recvBufSize
    {
      recvBuf.Length == MESSAGE_MAX_LENGTH && recvBufRead + recvBufSize <= MESSAGE_MAX_LENGTH
    }

    function Window(): (w: Bytes)
      reads this`recvBuf, this`recvBufRead, this`recvBufSize, recvBuf
      requires Fits()
      ensures |w| == recvBufSize
    {
      recvBuf[recvBufRead..recvBufRead + recvBufSize]
    }

    /** The byte parse_number may read behind the window. */
    function Behind(): byte
      reads this`recvBuf, this`recvBufRead, this`recvBufSize, this`beyond, recvBuf
      requires Fits()
    {
      if recvBufRead + recvBufSize < recvBuf.Length then recvBuf[recvBufRead + recvBufSize] else beyond
    }

    /** Nothing received is lost or read twice, and the connection is where its reads and loop runs put it. */
    ghost predicate Sound()
      reads this, recvBuf
    {
      && Fits()
      && consumed + Window() == received
      && Total(events) == |received|
      && Play(received, events) == Session(|received|, Window(), handled, ended)
    }

    /** Besides, bytes are left unprocessed only while a dispatched request has no response yet. */
    ghost predicate Valid()
      reads this, recvBuf
    {
      Sound() && (waiting || ended || events == [] || events[|events| - 1].Process?)
    }

    /** `Sound`, spelled out. */
    lemma SoundFacts()
      requires Sound()
      ensures Fits() && consumed + Window() == received
      ensures Total(events) == |received| && Play(received, events) == Session(|received|, Window(), handled, ended)
    {
    }

    lemma FitsIn()
      requires Sound()
      ensures Fits()
    {
    }

    lemma Restored()
      requires Fits() && consumed + Window() == received
      requires Total(events) == |received| && Play(received, events) == Session(|received|, Window(), handled, ended)
      ensures Sound()
    {
    }

    lemma Settled()
      requires Sound() && events != [] && events[|events| - 1].Process?
      ensures Valid()
    {
    }

    /** Among the requests handled between `before` and `after` one was sent to another shard. */
    ghost predicate Sends(before: seq<seq<Bytes>>, after: seq<seq<Bytes>>)
    {
      exists i | |before| <= i < |after| :: Dispatches(after[i])
    }

    lemma SendsJoin(a: seq<seq<Bytes>>, b: seq<seq<Bytes>>, c: seq<seq<Bytes>>)
      requires a <= b <= c
      ensures Sends(a, c) == (Sends(a, b) || Sends(b, c))
    {
      if Sends(a, b) {
        var i :| |a| <= i < |b| && Dispatches(b[i]);
        assert c[i] == b[i];
      }
    }

    lemma SendsOne(a: seq<seq<Bytes>>, args: seq<Bytes>)
      ensures Sends(a, a + [args]) == Dispatches(args) && !Sends(a, a)
    {
      assert (a + [args])[|a|] == args;
    }

    lemma NothingYet()
      requires Valid() && received == []
      ensures Fits() && Window() == []
    {
      assert |consumed + Window()| == 0;
    }

    lemma SentOne(args: seq<Bytes>)
      requires Valid() && handled == [args]
      ensures Sound() && Sends([], handled) == Dispatches(args)
    {
      assert handled[0] == args;
    }

    constructor (dispatches: seq<Bytes> -> bool, beyond: byte)
      ensures Valid() && fresh(recvBuf) && Dispatches == dispatches
      ensures received == [] && events == [] && handled == [] && !ended && !waiting
    {
      Dispatches := dispatches;
      recvBuf := new byte[MESSAGE_MAX_LENGTH](_ => 0);
      recvBufRead, recvBufSize := 0, 0;
      this.beyond := beyond;
      ended, waiting := false, false;
      handled, received, consumed, events := [], [], [], [];
    }

    /** The request at the head of the window, by its first byte. */
    method Parse() returns (r: Parsed)
      requires Fits() && recvBufSize > 0
      ensures r == Read(Window() + [Behind()])
    {
      hide ReadResp, ReadInline;
      var u := Window() + [Behind()];
      assert u[..End(u)] == Window();
      if recvBuf[recvBufRead] == STAR {
        r := ParseRespRequest(u);
      } else {
        r := ParseInlineRequest(Window());
      }
    }

    method Advance(len: nat)
      requires Fits() && len <= recvBufSize
      modifies this`recvBufRead, this`recvBufSize, this`consumed
      ensures Fits() && Window() == old(Window())[len..]
      ensures consumed + Window() == old(consumed + Window())
    {
      ghost var w := Window();
      consumed := consumed + w[..len];
      assert w == w[..len] + w[len..];
      recvBufRead := recvBufRead + len;
      recvBufSize := recvBufSize - len;
    }

    /** handle_command, as far as the connection's own state goes. */
    method HandleCommand(args: seq<Bytes>)
      modifies this`handled, this`ended, this`waiting, this`beyond
      ensures handled == old(handled) + [args] && ended == (old(ended) || Quits(args))
      ensures waiting == (old(waiting) || Sends(old(handled), handled))
    {
      SendsOne(handled, args);
      handled := handled + [args];
      ended := ended || Quits(args);
      waiting := waiting || Dispatches(args);
      beyond := *;
    }

    /** The part of on_data_available behind a whole request. */
    method Serve(spans: seq<Span>, len: nat) returns (more: bool)
      requires Fits() && len <= recvBufSize
      modifies this`recvBufRead, this`recvBufSize, this`beyond, this`ended, this`waiting, this`handled, this`consumed
      ensures Fits() && consumed + Window() == old(consumed + Window())
      ensures waiting == (old(waiting) || Sends(old(handled), handled))
      ensures handled == if spans == [] then old(handled) else old(handled + [Args(Window(), spans)])
      ensures ended == (old(ended) || (spans != [] && Quits(old(Args(Window(), spans)))))
      ensures Window() == if ended then old(Window()) else old(Window())[len..]
      ensures more == (!ended && Window() != [])
    {
      hide *;
      SendsOne(handled, []);
      if |spans| > 0 {
        HandleCommand(Args(Window(), spans));
      }
      if ended {
        return false;
      }
      if recvBufSize < len {
        return false;
      }
      Advance(len);
      return recvBufSize > 0;
    }

    /** on_data_available: one round on the window; says whether to go on. */
    method OnDataAvailable() returns (more: bool)
      requires Fits()
      modifies this`recvBufRead, this`recvBufSize, this`beyond, this`ended, this`waiting, this`handled, this`consumed
      ensures Fits() && consumed + Window() == old(consumed + Window())
      ensures Window() == [] ==> !more
      ensures old(handled) <= handled && waiting == (old(waiting) || Sends(old(handled), handled))
      ensures old(Window()) == [] ==> !more && Window() == [] && handled == old(handled) && ended == old(ended)
      ensures old(Window()) != [] ==>
                var o := Round(old(Window()), old(Behind()), old(handled));
                && handled == o.handled && ended == (old(ended) || o.ended)
                && Window() == (if ended then old(Window()) else o.rest)
                && more == (!ended && 0 < |Window()| < |old(Window())|)
    {
      if recvBufSize < 1 {
        return false;
      }
      hide *;
      ghost var w, b := Window(), Behind();
      RoundCases(w, b, handled);
      SendsOne(handled, []);
      var r := Parse();
      match r
      case Incomplete => return false;
      case Error => ended, beyond := true, *; return false;
      case BadArgc => ended, beyond := true, *; return false;
      case Ok(spans, len) => more := Serve(spans, len);
    }

    /** The memmove to the front of the buffer. */
    method MoveDown()
      requires Fits()
      modifies this`recvBufRead, recvBuf
      ensures Fits() && recvBufRead == 0 && Window() == old(Window())
    {
      var from, n := recvBufRead, recvBufSize;
      ghost var w := Window();
      assert forall i | 0 <= i < n :: w[i] == recvBuf[from + i];
      forall i | 0 <= i < n {
        recvBuf[i] := recvBuf[from + i];
      }
      recvBufRead := 0;
      assert forall i | 0 <= i < n :: recvBuf[i] == w[i];
      assert recvBuf[0..n] == w;
    }

    method Compact()
      requires Sound()
      modifies this`recvBufRead, recvBuf
      ensures Sound() && recvBufRead == 0 && Window() == old(Window())
    {
      hide *;
      SoundFacts();
      MoveDown();
      Restored();
    }

    /** What read() puts behind the window. */
    method Append(chunk: Bytes)
      requires Sound() && recvBufRead == 0 && recvBufSize + |chunk| <= MESSAGE_MAX_LENGTH
      modifies this`recvBufSize, this`received, this`events, recvBuf
      ensures Sound() && Window() == old(Window()) + chunk
      ensures received == old(received) + chunk && events == old(events) + [Arrive(|chunk|)]
    {
      hide Play, Total;
      ghost var w := Window();
      Arrived(received, events, chunk);
      forall i | 0 <= i < |chunk| {
        recvBuf[recvBufSize + i] := chunk[i];
      }
      recvBufSize := recvBufSize + |chunk|;
      assert Window() == w + chunk;
      assert consumed + (w + chunk) == received + chunk;
      received := received + chunk;
      events := events + [Arrive(|chunk|)];
    }

    /** `while (on_data_available(...)) {}` */
    method RunLoop()
      requires Sound()
      modifies this`recvBufRead, this`recvBufSize, this`beyond, this`ended, this`waiting, this`handled, this`consumed,
               this`events
      ensures Valid() && |events| == |old(events)| + 1 && events[..|old(events)|] == old(events)
      ensures events[|events| - 1].Process?
      ensures old(handled) <= handled && waiting == (old(waiting) || Sends(old(handled), handled))
      ensures Outcome(handled, Window(), ended)
              == Run(old(Window()), events[|events| - 1].behind, old(handled), old(ended))
    {
      hide *;
      SoundFacts();
      ghost var w, b, h, e := Window(), Behind(), handled, ended;
      FirstRound(w, b, h, e);
      if w != [] {
        GoesOn(w, h, w, h, b);
      }
      ghost var log := events;
      var more := OnDataAvailable();
      while more
        invariant Fits() && events == log && consumed + Window() == received
        invariant more ==> !e && !ended && Window() != [] && Going(w, h, Window(), handled)
        invariant h <= handled && waiting == (old(waiting) || Sends(h, handled))
        invariant !more ==> Outcome(handled, Window(), ended) == Run(w, b, h, e)
        decreases more, |Window()|
      {
        b := Behind();
        ghost var h1 := handled;
        GoesOn(w, h, Window(), handled, b);
        more := OnDataAvailable();
        SendsJoin(h, h1, handled);
      }
      Processed(received, events, b);
      events := events + [Process(b)];
      assert events[..|log|] == log;
      Restored();
      Settled();
    }

    method HangUp()
      requires Sound()
      modifies this`ended, this`events
      ensures Valid() && Window() == old(Window()) && ended && events == old(events) + [Hangup]
    {
      hide Play, Total;
      HungUp(received, events);
      ended := true;
      events := events + [Hangup];
    }

    /** reactor_epoll_on_epollin, whose read() gives `r`. Its first assertion aborts the server when the buffer is
        full. */
    method OnEpollin(r: ReadResult) returns (aborted: bool)
      requires Valid()
      requires r.Data? && recvBufSize < MESSAGE_MAX_LENGTH ==> 0 < |r.chunk| <= MESSAGE_MAX_LENGTH - recvBufSize
      modifies this, recvBuf
      ensures Valid() && recvBuf == old(recvBuf)
      ensures aborted <==> old(recvBufSize) == MESSAGE_MAX_LENGTH
      ensures aborted ==> unchanged(this) && unchanged(recvBuf)
      ensures !aborted ==> received == if r.Data? then old(received) + r.chunk else old(received)
      ensures !aborted && r.Again? ==> Window() == old(Window()) && events == old(events) && waiting == old(waiting)
      ensures !aborted && r.Closed? ==> Window() == old(Window()) && ended && events == old(events) + [Hangup]
      ensures !aborted && r.Data? && old(waiting) ==>
                Window() == old(Window()) + r.chunk && waiting && events == old(events) + [Arrive(|r.chunk|)]
      ensures !aborted && r.Data? && !old(waiting) ==>
                && |events| == |old(events)| + 2 && events[..|events| - 1] == old(events) + [Arrive(|r.chunk|)]
                && events[|events| - 1].Process?
                && old(handled) <= handled && waiting == Sends(old(handled), handled)
                && Outcome(handled, Window(), ended)
                   == Run(old(Window()) + r.chunk, events[|events| - 1].behind, old(handled), old(ended))
    {
      hide Sound, Run, Sends, Window;
      FitsIn();
      if recvBufSize >= recvBuf.Length {
        return true;
      }
      aborted := false;
      if recvBufRead > 0 {
        Compact();
      }
      match r
      case Again =>
      case Closed => HangUp();
      case Data(chunk) =>
        Append(chunk);
        if !waiting {
          RunLoop();
        }
    }

    /** The rest of on_cb after a response callback has cleared DISPATCH_WAITING. */
    method OnResponse()
      requires Valid()
      modifies this
      ensures Valid() && recvBuf == old(recvBuf) && received == old(received)
      ensures |events| == |old(events)| + 1 && events[..|old(events)|] == old(events) && events[|events| - 1].Process?
      ensures old(handled) <= handled && waiting == Sends(old(handled), handled)
      ensures Outcome(handled, Window(), ended)
              == Run(old(Window()), events[|events| - 1].behind, old(handled), old(ended))
    {
      waiting := false;
      RunLoop();
    }

    /** A client that sends the requests `rs`: its connection ends exactly on a hangup or a run of the loop that meets a
        QUIT or a trap. In every history the consumed requests were handled once each, in order, the one behind them
        `Repeats` times, which is none until the end, and the window holds what arrived behind them. */
    lemma Served(rs: seq<Sent>)
      requires Valid() && AllGood(rs) && received <= EncodeAll(rs)
      ensures ended <==> !Calm(rs, events)
      ensures var k, m := Kept(rs, events), Repeats(rs, events);
        && handled == ArgsOf(rs[..k]) + Copies(rs, k, m) && (!ended ==> m == 0)
        && Offset(rs, k) <= |received| && consumed == received[..Offset(rs, k)]
      ensures !ended && received == EncodeAll(rs) && events != [] && events[|events| - 1].Process?
              ==> handled == ArgsOf(rs) && Window() == []
    {
      hide Encode, EncodeAll, Drain, Round, Good, Quits, Benign, Consumed, Met, Offset, Calm, Kept, Repeats, Copies;
      SoundFacts();
      PlaySent(rs);
      WholeHistory(rs, events);
      assert Window() == received[Offset(rs, Kept(rs, events))..];
      assert consumed == received[..|received| - |Window()|];
      if !ended && received == EncodeAll(rs) && events != [] && events[|events| - 1].Process? {
        AllHandled(rs, events);
      }
    }

    /** The run of the loop that ends the connection has handled all whole requests up to and including a QUIT. */
    lemma ServedLast(rs: seq<Sent>, front: seq<Event>, behind: byte)
      requires Valid() && AllGood(rs) && received <= EncodeAll(rs)
      requires events == front + [Process(behind)] && Calm(rs, front)
      ensures handled == ArgsOf(rs[..Met(rs, |received|)]) && ended == !Benign(rs, |received|, behind)
      ensures Offset(rs, Consumed(rs, |received|)) <= |received|
      ensures consumed == received[..Offset(rs, Consumed(rs, |received|))]
    {
      hide Encode, EncodeAll, Drain, Round, Good, Quits, Benign, Consumed, Met, Offset, Calm;
      SoundFacts();
      PlaySent(rs);
      LastRun(rs, front, behind);
      ProcessReceives(EncodeAll(rs), front, behind);
      var p := Offset(rs, Consumed(rs, |received|));
      assert Window() == received[p..];
      assert consumed == received[..|received| - |Window()|];
    }

    /** The session may be read off the whole stream. */
    lemma PlaySent(rs: seq<Sent>)
      requires Sound() && received <= EncodeAll(rs)
      ensures Play(EncodeAll(rs), events) == Session(|received|, Window(), handled, ended)
    {
      hide EncodeAll, Play, Total;
      SoundFacts();
      var all := EncodeAll(rs);
      assert all == received + all[|received|..];
      PlayExtend(received, all[|received|..], events);
    }

    // ----- when the buffer is full -----

    /** The next epoll event aborts the server exactly when 8192 bytes have arrived since those consumed. */
    lemma FullExactly(rs: seq<Sent>)
      requires Valid() && AllGood(rs) && received <= EncodeAll(rs)
      ensures recvBufSize == MESSAGE_MAX_LENGTH <==> |received| == Offset(rs, Kept(rs, events)) + MESSAGE_MAX_LENGTH
    {
      hide Encode, EncodeAll, Play, Calm, Kept, Offset;
      Served(rs);
      SoundFacts();
    }

    /** While no response is outstanding that is the case exactly when the request being received is larger than the
        buffer and its first 8192 bytes are there: small requests never abort. */
    lemma FullOnlyIfLarge(rs: seq<Sent>)
      requires Valid() && AllGood(rs) && received <= EncodeAll(rs) && !ended && !waiting
      ensures var k := Kept(rs, events);
        recvBufSize == MESSAGE_MAX_LENGTH
        <==> k < |rs| && |Encode(rs[k])| > MESSAGE_MAX_LENGTH && |received| == Offset(rs, k) + MESSAGE_MAX_LENGTH
    {
      hide Encode, EncodeAll, Play, Calm, Kept, Offset;
      SoundFacts();
      PlaySent(rs);
      EndsExactly(rs, events);
      LessThanOne(rs, events);
      FullExactly(rs);
    }
  }

  /** While a response is outstanding any bytes will do: two reads abort the server exactly when the first fills the
      buffer, whatever the size of the requests in it. */
  method ReadTwice(c: Connection, chunk: Bytes, r: ReadResult) returns (aborted: bool)
    requires c.Valid() && c.waiting && 0 < |chunk| <= MESSAGE_MAX_LENGTH - c.recvBufSize
    requires r.Data? ==> 0 < |r.chunk| <= MESSAGE_MAX_LENGTH - c.recvBufSize - |chunk|
                         || c.recvBufSize + |chunk| == MESSAGE_MAX_LENGTH
    modifies c, c.recvBuf
    ensures aborted <==> old(c.recvBufSize) + |chunk| == MESSAGE_MAX_LENGTH
  {
    hide Connection.Valid, Run;
    var first := c.OnEpollin(Data(chunk));
    aborted := c.OnEpollin(r);
  }

  /** From a new connection: one request that goes to another shard, then a buffer full of anything before its
      response. */
  method Overrun(c: Connection, sent: Sent, chunk: Bytes, r: ReadResult) returns (aborted: bool)
    requires c.Valid() && c.received == [] && c.events == [] && c.handled == [] && !c.ended && !c.waiting
    requires Good(sent) && !Quits(sent.args) && c.Dispatches(sent.args) && |Encode(sent)| <= MESSAGE_MAX_LENGTH
    requires |chunk| == MESSAGE_MAX_LENGTH
    modifies c, c.recvBuf
    ensures aborted
  {
    hide *;
    ReadOne(c, sent);
    aborted := ReadTwice(c, chunk, r);
  }

  method ReadOne(c: Connection, sent: Sent)
    requires c.Valid() && c.received == [] && c.events == [] && c.handled == [] && !c.ended && !c.waiting
    requires Good(sent) && !Quits(sent.args) && |Encode(sent)| <= MESSAGE_MAX_LENGTH
    modifies c, c.recvBuf
    ensures c.Valid() && c.recvBuf == old(c.recvBuf) && c.recvBufSize == 0
    ensures c.handled == [sent.args] && c.waiting == c.Dispatches(sent.args)
  {
    hide *;
    c.NothingYet();
    var first := c.OnEpollin(Data(Encode(sent)));
    RunOne(sent, c.events[|c.events| - 1].behind);
    c.SentOne(sent.args);
    c.SoundFacts();
  }

  lemma RunOne(sent: Sent, behind: byte)
    requires Good(sent) && !Quits(sent.args)
    ensures Run([] + Encode(sent), behind, [], false) == Outcome([sent.args], [], false)
  {
    hide Encode, Good, Quits, Round;
    assert [] + Encode(sent) == Encode(sent) == Encode(sent) + [];
    DrainWhole(sent, [], behind, []);
    assert [] + [sent.args] == [sent.args];
  }
}
