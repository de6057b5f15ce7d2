/** What a thread achieves on the queue of `Mpmc` when it runs alone: a dequeue takes the published head, an enqueue
    fills a free cell, from wherever in its call the thread stands. */
module Solo {
  import opened Bits
  import opened Inboxes
  import opened Mpmc
  import opened Dequeues

  // ----- one dequeue -----

  /** A dequeue that has taken and returned the head: nothing else moved. */
  ghost predicate TookHead<T>(s: State<T>, t: State<T>, c: nat)
    requires c < |s.consumers|
  {
    && Inv(s) && Inv(t) && s.deq < s.enq && t.deq == s.deq + 1 && t.enq == s.enq && t.sent == s.sent
    && t.producers == s.producers && t.consumers == s.consumers[c := CIdle]
    && t.received == s.received[s.deq := s.sent[s.deq]] && Abs(t) == Abs(s)[1..]
  }

  /** The last four accesses, from the probe of the head on. */
  lemma TakeHead<T>(s: State<T>, c: nat)
    requires Inv(s) && c < |s.consumers| && s.consumers[c] == CProbe(s.deq) && Published(s, s.deq)
    ensures TookHead(s, Do(Do(Do(Do(s, ProbeDeq(c)), CasDeq(c, false)), Read(c)), Release(c)), c)
  {
    HeadCell(s);
    var s1 := Do(s, ProbeDeq(c));
    ProbeFinds(s, c);
    var s2 := Do(s1, CasDeq(c, false));
    StepRefines(s, ProbeDeq(c));
    TakeMatched(s1, c);
    hide Inv, Abs, Do;
  }

  lemma ProbeFinds<T>(s: State<T>, c: nat)
    requires Inv(s) && c < |s.consumers| && s.consumers[c] == CProbe(s.deq) && Published(s, s.deq)
    ensures Do(s, ProbeDeq(c)) == s.(consumers := s.consumers[c := CMatched(s.deq)])
    ensures LabelOf(s, ProbeDeq(c)) == Silent
  {
    hide CellsOk, ProducersOk, ConsumersOk, Faithful, IsPow2, BitAnd;
  }

  lemma TakeMatched<T>(s: State<T>, c: nat)
    requires Inv(s) && c < |s.consumers| && s.consumers[c] == CMatched(s.deq)
    ensures TookHead(s, Do(Do(Do(s, CasDeq(c, false)), Read(c)), Release(c)), c)
  {
    var s1 := Do(s, CasDeq(c, false));
    CasTakes(s, c);
    StepRefines(s, CasDeq(c, false));
    var s2 := Do(s1, Read(c));
    ReadGets(s1, c, s.deq);
    StepRefines(s1, Read(c));
    var s3 := Do(s2, Release(c));
    ReleaseGives(s2, c);
    StepRefines(s2, Release(c));
    hide Inv, Abs, Do;
    assert s.consumers[c := CClaimed(s.deq)][c := CRead(s.deq, s.sent[s.deq])][c := CIdle] == s.consumers[c := CIdle];
  }

  lemma CasTakes<T>(s: State<T>, c: nat)
    requires Inv(s) && c < |s.consumers| && s.consumers[c] == CMatched(s.deq)
    ensures s.deq < s.enq == |s.sent| && Published(s, s.deq) && s.cells[s.deq % |s.cells|].data == Some(s.sent[s.deq])
    ensures Do(s, CasDeq(c, false)) == s.(deq := s.deq + 1, consumers := s.consumers[c := CClaimed(s.deq)])
    ensures LabelOf(s, CasDeq(c, false)) == Take(s.sent[s.deq])
  {
    HeadCell(s);
    hide CellsOk, ProducersOk, Faithful, IsPow2, BitAnd;
    assert ConsumerOk(s.cells, s.deq, s.sent, s.received, s.consumers[c]);
  }

  lemma ReadGets<T>(s: State<T>, c: nat, pos: nat)
    requires Inv(s) && c < |s.consumers| && s.consumers[c] == CClaimed(pos)
    requires pos < |s.sent| && s.cells[pos % |s.cells|].data == Some(s.sent[pos])
    ensures Do(s, Read(c)) == s.(consumers := s.consumers[c := CRead(pos, s.sent[pos])])
    ensures LabelOf(s, Read(c)) == Silent
  {
    hide CellsOk, ProducersOk, ConsumersOk, Faithful, IsPow2, BitAnd;
  }

  lemma ReleaseGives<T>(s: State<T>, c: nat)
    requires Inv(s) && c < |s.consumers| && s.consumers[c].CRead?
    ensures var t, C := Do(s, Release(c)), s.consumers[c];
      && t.deq == s.deq && t.enq == s.enq && t.sent == s.sent && t.producers == s.producers
      && t.consumers == s.consumers[c := CIdle] && t.received == s.received[C.pos := C.v]
    ensures LabelOf(s, Release(c)) == Silent
  {
    hide CellsOk, ProducersOk, ConsumersOk, Faithful, IsPow2, BitAnd, CellOf;
  }

  /** An idle consumer's dequeue of a published head, alone: six accesses, and it has the item. */
  lemma DequeueAlone<T>(s: State<T>, c: nat)
    requires Inv(s) && c < |s.consumers| && s.consumers[c].CIdle? && Published(s, s.deq)
    ensures var t := Do(Do(Do(s, Dequeue(c)), LoadDeq(c)), ProbeDeq(c));
      TookHead(s, Do(Do(Do(t, CasDeq(c, false)), Read(c)), Release(c)), c)
  {
    var s1 := Do(s, Dequeue(c));
    assert s1 == s.(consumers := s.consumers[c := CStart]);
    StepRefines(s, Dequeue(c));
    LoadGoes(s1, c);
    var s2 := Do(s1, LoadDeq(c));
    TakeHead(s2, c);
    hide Inv, Abs, Do;
    assert s.consumers[c := CStart][c := CProbe(s.deq)][c := CIdle] == s.consumers[c := CIdle];
  }

  lemma LoadGoes<T>(s: State<T>, c: nat)
    requires Inv(s) && c < |s.consumers| && s.consumers[c].CStart?
    ensures Do(s, LoadDeq(c)) == s.(consumers := s.consumers[c := CProbe(s.deq)])
    ensures Inv(Do(s, LoadDeq(c))) && Abs(Do(s, LoadDeq(c))) == Abs(s)
  {
    StepRefines(s, LoadDeq(c));
    hide CellsOk, ProducersOk, ConsumersOk, Faithful, IsPow2, BitAnd, CellOf, Abs;
  }

  // ----- from any point of the call -----

  ghost predicate OnlyConsumer<T>(run: seq<Action<T>>, c: nat)
  {
    forall i | 0 <= i < |run| :: OfConsumer(run[i]) && run[i].c == c
  }

  lemma More<T>(s: State<T>, run: seq<Action<T>>, a: Action<T>) returns (more: seq<Action<T>>)
    requires Shaped(s)
    ensures more == run + [a] && Exec(s, more) == Do(Exec(s, run), a)
  {
    more := run + [a];
    assert more[..|run|] == run;
  }

  /** `t` is `s` but for where consumer `c` stands. */
  ghost predicate Moved<T>(s: State<T>, t: State<T>, c: nat, C: Consumer<T>)
    requires c < |s.consumers|
  {
    t == s.(consumers := s.consumers[c := C])
  }

  /** A probe with an old ticket sends the consumer back, or on to a compare-and-swap that will fail. */
  lemma OldProbe<T>(s: State<T>, c: nat)
    requires Inv(s) && c < |s.consumers| && s.consumers[c].CProbe? && s.consumers[c].pos < s.deq
    ensures var t := Do(s, ProbeDeq(c));
      Inv(t) && (Moved(s, t, c, CStart) || Moved(s, t, c, CMatched(s.consumers[c].pos)))
  {
    TakenCell(s, s.consumers[c].pos);
    DoKeeps(s, ProbeDeq(c));
    hide CellsOk, ProducersOk, ConsumersOk, Faithful, IsPow2, BitAnd;
  }

  lemma OldCas<T>(s: State<T>, c: nat)
    requires Inv(s) && c < |s.consumers| && s.consumers[c].CMatched? && s.consumers[c].pos != s.deq
    ensures var t := Do(s, CasDeq(c, false)); Inv(t) && Moved(s, t, c, CProbe(s.deq))
  {
    DoKeeps(s, CasDeq(c, false));
    hide CellsOk, ProducersOk, ConsumersOk, Faithful, IsPow2, BitAnd, CellOf;
  }

  lemma MovedTwice<T>(s: State<T>, t: State<T>, u: State<T>, c: nat, C: Consumer<T>, D: Consumer<T>)
    requires c < |s.consumers| && Moved(s, t, c, C) && Moved(t, u, c, D)
    ensures Moved(s, u, c, D)
  {
    assert s.consumers[c := C][c := D] == s.consumers[c := D];
  }

  lemma NotMoved<T>(s: State<T>, c: nat)
    requires c < |s.consumers|
    ensures Moved(s, s, c, s.consumers[c])
  {
  }

  lemma TicketOld<T>(s: State<T>, c: nat)
    requires Inv(s) && c < |s.consumers|
    ensures s.consumers[c].CProbe? || s.consumers[c].CMatched? ==> s.consumers[c].pos <= s.deq
  {
    assert ConsumerOk(s.cells, s.deq, s.sent, s.received, s.consumers[c]);
  }

  lemma StartReturns<T>(s: State<T>, c: nat)
    requires Inv(s) && c < |s.consumers| && s.consumers[c].CStart?
    ensures Inv(Do(s, LoadDeq(c))) && Moved(s, Do(s, LoadDeq(c)), c, CProbe(s.deq))
  {
    LoadGoes(s, c);
  }

  lemma ProbeReturns<T>(s: State<T>, c: nat) returns (a: Action<T>)
    requires Inv(s) && c < |s.consumers| && s.consumers[c].CProbe? && s.consumers[c].pos < s.deq
    ensures OfConsumer(a) && a.c == c
    ensures var t := Do(Do(s, ProbeDeq(c)), a); Inv(t) && Moved(s, t, c, CProbe(s.deq))
  {
    var pos, t := s.consumers[c].pos, Do(s, ProbeDeq(c));
    OldProbe(s, c);
    hide Do, Inv, Moved;
    if Moved(s, t, c, CStart) {
      MovedAt(s, t, c, CStart);
      StartReturns(t, c);
      MovedTwice(s, t, Do(t, LoadDeq(c)), c, CStart, CProbe(s.deq));
      a := LoadDeq(c);
    } else {
      MovedAt(s, t, c, CMatched(pos));
      OldCas(t, c);
      MovedTwice(s, t, Do(t, CasDeq(c, false)), c, CMatched(pos), CProbe(s.deq));
      a := CasDeq(c, false);
    }
  }

  /** A consumer whose ticket is old finds out and comes back with the head's; nobody else is touched. */
  lemma ReturnsToHead<T>(s: State<T>, c: nat) returns (run: seq<Action<T>>)
    requires Inv(s) && c < |s.consumers| && Undecided(s.consumers[c])
    ensures OnlyConsumer(run, c) && Inv(Exec(s, run))
    ensures Moved(s, Exec(s, run), c, CProbe(s.deq)) || (run == [] && s.consumers[c] == CMatched(s.deq))
  {
    hide Do, Inv, Moved, Shaped, Exec;
    TicketOld(s, c);
    InvShaped(s);
    ExecNone(s);
    run := [];
    match s.consumers[c]
    case CStart =>
      StartReturns(s, c);
      run := More(s, run, LoadDeq(c));
    case CProbe(pos) =>
      if pos < s.deq {
        var a := ProbeReturns(s, c);
        run := More(s, run, ProbeDeq(c));
        run := More(s, run, a);
      } else {
        NotMoved(s, c);
      }
    case CMatched(pos) =>
      if pos != s.deq {
        OldCas(s, c);
        run := More(s, run, CasDeq(c, false));
      }
  }

  lemma InvShaped<T>(s: State<T>)
    requires Inv(s)
    ensures Shaped(s) && |s.cells| > 0
  {
  }

  lemma MovedAt<T>(s: State<T>, t: State<T>, c: nat, C: Consumer<T>)
    requires c < |s.consumers| && Moved(s, t, c, C)
    ensures |t.consumers| == |s.consumers| && t.deq == s.deq && t.consumers[c] == C
  {
  }

  /** From any point before its compare-and-swap succeeds, a consumer that runs alone takes the published head. */
  lemma DequeueFinishes<T>(s: State<T>, c: nat) returns (run: seq<Action<T>>)
    requires Inv(s) && c < |s.consumers| && Undecided(s.consumers[c]) && Published(s, s.deq)
    ensures OnlyConsumer(run, c) && TookHead(s, Exec(s, run), c)
  {
    hide Do, Inv, TookHead, Moved, Exec, Published;
    InvShaped(s);
    var back := ReturnsToHead(s, c);
    var t := Exec(s, back);
    if back == [] && s.consumers[c] == CMatched(s.deq) {
      run := back;
      ExecNone(s);
      TakeMatched(s, c);
    } else {
      SameQueue(s, t, c);
      TakeHead(t, c);
      run := More(s, back, ProbeDeq(c));
    }
    run := More(s, run, CasDeq(c, false));
    run := More(s, run, Read(c));
    run := More(s, run, Release(c));
    if back != [] || s.consumers[c] != CMatched(s.deq) {
      TookFromMoved(s, t, Exec(s, run), c);
    }
  }

  lemma ExecNone<T>(s: State<T>)
    requires Shaped(s)
    ensures Exec(s, []) == s
  {
  }

  lemma SameQueue<T>(s: State<T>, t: State<T>, c: nat)
    requires Inv(s) && Inv(t) && c < |s.consumers| && Moved(s, t, c, CProbe(s.deq)) && Published(s, s.deq)
    ensures c < |t.consumers| && t.consumers[c] == CProbe(t.deq) && Published(t, t.deq) && Abs(t) == Abs(s)
  {
    hide CellsOk, ProducersOk, ConsumersOk, Faithful, Abs;
    AbsSame(s, t);
  }

  lemma TookFromMoved<T>(s: State<T>, t: State<T>, u: State<T>, c: nat)
    requires Inv(s) && Inv(t) && c < |s.consumers| && Moved(s, t, c, CProbe(s.deq)) && TookHead(t, u, c)
    ensures TookHead(s, u, c)
  {
    hide CellsOk, ProducersOk, ConsumersOk, Faithful, Abs;
    AbsSame(s, t);
    assert s.consumers[c := CProbe(s.deq)][c := CIdle] == s.consumers[c := CIdle];
  }

  /** With the head missing or unpublished an idle consumer is told so after three accesses, and nothing has changed. */
  lemma NullAlone<T>(s: State<T>, c: nat)
    requires Inv(s) && c < |s.consumers| && s.consumers[c].CIdle? && !Published(s, s.deq)
    ensures Do(Do(Do(s, Dequeue(c)), LoadDeq(c)), ProbeDeq(c)) == s
  {
    var s1 := Do(s, Dequeue(c));
    assert s1 == s.(consumers := s.consumers[c := CStart]);
    DoKeeps(s, Dequeue(c));
    LoadGoes(s1, c);
    var s2 := Do(s1, LoadDeq(c));
    NullExactly(s2, c);
    ProbeFrame(s2, c);
    hide Inv, Do;
    assert s.consumers[c := CStart][c := CProbe(s.deq)][c := CIdle] == s.consumers[c := CIdle] == s.consumers;
  }

  lemma ProbeFrame<T>(s: State<T>, c: nat)
    requires Inv(s) && c < |s.consumers| && s.consumers[c].CProbe?
    ensures var t := Do(s, ProbeDeq(c));
      |t.consumers| == |s.consumers| && t == s.(consumers := s.consumers[c := t.consumers[c]])
  {
    hide CellsOk, ProducersOk, ConsumersOk, Faithful, IsPow2, BitAnd, CellOf;
  }

  /** From any point before its compare-and-swap succeeds, a consumer that runs alone comes to the end of its call: it
      takes the published head, and without one it is told so and nothing has changed. */
  lemma DequeueEnds<T>(s: State<T>, c: nat) returns (run: seq<Action<T>>)
    requires Inv(s) && c < |s.consumers| && Undecided(s.consumers[c])
    ensures OnlyConsumer(run, c)
    ensures if Published(s, s.deq) then TookHead(s, Exec(s, run), c) else Moved(s, Exec(s, run), c, CIdle)
  {
    if Published(s, s.deq) {
      run := DequeueFinishes(s, c);
    } else {
      run := ReturnsToHead(s, c);
      if run == [] && s.consumers[c] == CMatched(s.deq) {
        CasTakes(s, c);
        assert false;
      }
      hide Do, Inv, Published, Exec, Moved;
      InvShaped(s);
      var t := Exec(s, run);
      ToldNothing(s, t, c);
      run := More(s, run, ProbeDeq(c));
    }
  }

  lemma ToldNothing<T>(s: State<T>, t: State<T>, c: nat)
    requires Inv(s) && Inv(t) && c < |s.consumers| && Moved(s, t, c, CProbe(s.deq)) && !Published(s, s.deq)
    ensures Moved(s, Do(t, ProbeDeq(c)), c, CIdle)
  {
    NullExactly(t, c);
    ProbeFrame(t, c);
    hide Do, Inv;
    MovedTwice(s, t, Do(t, ProbeDeq(c)), c, CProbe(s.deq), CIdle);
  }

  lemma {:induction false} ExecOn<T>(s: State<T>, run: seq<Action<T>>, more: seq<Action<T>>)
    requires Shaped(s)
    ensures Exec(s, run + more) == Exec(Exec(s, run), more)
    decreases |more|
  {
    hide Do;
    if more == [] {
      assert run + more == run;
    } else {
      var front := more[..|more| - 1];
      ExecOn(s, run, front);
      assert (run + more)[..|run + more| - 1] == run + front;
    }
  }

  /** In every run each dequeue under way can be brought to its end by its own thread alone, and is then answered. */
  lemma CallsEnd<T>(size: nat, producers: nat, consumers: nat, run: seq<Action<T>>, c: nat)
    returns (more: seq<Action<T>>)
    requires IsPow2(size) && size >= 2 && c < consumers
    requires var t := Exec(Init<T>(size, producers, consumers), run);
      c < |t.consumers| && Undecided(t.consumers[c])
    ensures OnlyConsumer(more, c)
    ensures var s := Init<T>(size, producers, consumers);
      var t := Exec(s, run + more);
      && c < |t.consumers| && t.consumers[c].CIdle?
      && Begun(s, run + more, c) == Answered(s, run + more, c)
  {
    var s := Init<T>(size, producers, consumers);
    ExecSafe(size, producers, consumers, run);
    hide Do, Inv, Exec, IsPow2, Init, Published;
    more := DequeueEnds(Exec(s, run), c);
    ExecOn(s, run, more);
    AnsweredOnce(size, producers, consumers, run + more, c);
  }

  // ----- one enqueue -----

  /** The cell of the next ticket waits for it. */
  predicate Free<T>(s: State<T>)
    requires |s.cells| > 0
  {
    s.cells[s.enq % |s.cells|].seqno == s.enq
  }

  /** A whole enqueue of `v`: nothing else moved. */
  ghost predicate Added<T>(s: State<T>, t: State<T>, p: nat, v: T)
    requires p < |s.producers|
  {
    && Inv(s) && Inv(t) && t.enq == s.enq + 1 && t.deq == s.deq && t.sent == s.sent + [v] && t.received == s.received
    && t.consumers == s.consumers && t.producers == s.producers[p := PIdle]
    && Published(t, s.enq) && Abs(t) == Abs(s) + [Slot(v, true)]
  }

  ghost predicate Stepped<T>(s: State<T>, t: State<T>, p: nat, P: Producer<T>)
    requires p < |s.producers|
  {
    t == s.(producers := s.producers[p := P])
  }

  lemma SteppedAt<T>(s: State<T>, t: State<T>, p: nat, P: Producer<T>)
    requires p < |s.producers| && Stepped(s, t, p, P)
    ensures |t.producers| == |s.producers| && t.producers[p] == P && t.enq == s.enq && t.cells == s.cells
  {
  }

  lemma SteppedTwice<T>(s: State<T>, t: State<T>, u: State<T>, p: nat, P: Producer<T>, Q: Producer<T>)
    requires p < |s.producers| && Stepped(s, t, p, P) && Stepped(t, u, p, Q)
    ensures Stepped(s, u, p, Q)
  {
    assert s.producers[p := P][p := Q] == s.producers[p := Q];
  }

  lemma ProbeFits<T>(s: State<T>, p: nat, v: T)
    requires Inv(s) && p < |s.producers| && s.producers[p] == PProbe(v, s.enq) && Free(s)
    ensures var t := Do(s, ProbeEnq(p)); Inv(t) && Stepped(s, t, p, PMatched(v, s.enq))
  {
    DoKeeps(s, ProbeEnq(p));
    hide CellsOk, ProducersOk, ConsumersOk, Faithful, IsPow2, BitAnd;
  }

  lemma CasClaims<T>(s: State<T>, p: nat, v: T)
    requires Inv(s) && p < |s.producers| && s.producers[p] == PMatched(v, s.enq)
    ensures Do(s, CasEnq(p, false))
            == s.(enq := s.enq + 1, sent := s.sent + [v], producers := s.producers[p := PClaimed(v, s.enq)])
    ensures LabelOf(s, CasEnq(p, false)) == Claim(v)
  {
    hide CellsOk, ProducersOk, ConsumersOk, Faithful, IsPow2, BitAnd, CellOf;
  }

  lemma WritePuts<T>(s: State<T>, p: nat)
    requires Inv(s) && p < |s.producers| && s.producers[p].PClaimed?
    ensures var t, P := Do(s, Write(p)), s.producers[p];
      && t.enq == s.enq && t.deq == s.deq && t.sent == s.sent && t.received == s.received && t.consumers == s.consumers
      && t.producers == s.producers[p := PWritten(P.v, P.pos)]
    ensures LabelOf(s, Write(p)) == Silent
  {
    hide CellsOk, ProducersOk, ConsumersOk, Faithful, IsPow2, BitAnd, CellOf;
  }

  lemma PublishPuts<T>(s: State<T>, p: nat)
    requires Inv(s) && p < |s.producers| && s.producers[p].PWritten?
    ensures var t, P := Do(s, Publish(p)), s.producers[p];
      && t.enq == s.enq && t.deq == s.deq && t.sent == s.sent && t.received == s.received && t.consumers == s.consumers
      && t.producers == s.producers[p := PIdle] && |t.cells| == |s.cells| && Published(t, P.pos)
      && s.deq <= P.pos < s.enq && LabelOf(s, Publish(p)) == Ready(P.pos - s.deq)
  {
    PublishRefines(s, p);
    hide CellsOk, ProducersOk, ConsumersOk, Faithful, IsPow2, BitAnd;
  }

  /** The last three accesses, from the compare-and-swap on. */
  lemma AddMatched<T>(s: State<T>, p: nat, v: T)
    requires Inv(s) && p < |s.producers| && s.producers[p] == PMatched(v, s.enq)
    ensures Added(s, Do(Do(Do(s, CasEnq(p, false)), Write(p)), Publish(p)), p, v)
  {
    var s1 := Do(s, CasEnq(p, false));
    CasClaims(s, p, v);
    StepRefines(s, CasEnq(p, false));
    var s2 := Do(s1, Write(p));
    WritePuts(s1, p);
    StepRefines(s1, Write(p));
    var s3 := Do(s2, Publish(p));
    PublishPuts(s2, p);
    StepRefines(s2, Publish(p));
    AbsLength(s);
    hide Inv, Abs, Do, Published;
    assert s.producers[p := PClaimed(v, s.enq)][p := PWritten(v, s.enq)][p := PIdle] == s.producers[p := PIdle];
    assert Abs(s3) == Abs(s) + [Slot(v, true)];
  }

  lemma AbsLength<T>(s: State<T>)
    requires Inv(s)
    ensures Counted(s) && |Abs(s)| == s.enq - s.deq
  {
    AbsAt(s);
  }

  lemma LoadTail<T>(s: State<T>, p: nat)
    requires Inv(s) && p < |s.producers| && s.producers[p].PStart?
    ensures var t := Do(s, LoadEnq(p)); Inv(t) && Stepped(s, t, p, PProbe(s.producers[p].v, s.enq))
  {
    DoKeeps(s, LoadEnq(p));
    hide CellsOk, ProducersOk, ConsumersOk, Faithful, IsPow2, BitAnd, CellOf;
  }

  lemma OldProbeEnq<T>(s: State<T>, p: nat)
    requires Inv(s) && p < |s.producers| && s.producers[p].PProbe?
    ensures var t, P := Do(s, ProbeEnq(p)), s.producers[p];
      Inv(t) && (Stepped(s, t, p, PStart(P.v)) || Stepped(s, t, p, PMatched(P.v, P.pos)))
  {
    DoKeeps(s, ProbeEnq(p));
    hide CellsOk, ProducersOk, ConsumersOk, Faithful, IsPow2, BitAnd;
  }

  lemma OldCasEnq<T>(s: State<T>, p: nat)
    requires Inv(s) && p < |s.producers| && s.producers[p].PMatched? && s.producers[p].pos != s.enq
    ensures var t := Do(s, CasEnq(p, false)); Inv(t) && Stepped(s, t, p, PProbe(s.producers[p].v, s.enq))
  {
    DoKeeps(s, CasEnq(p, false));
    hide CellsOk, ProducersOk, ConsumersOk, Faithful, IsPow2, BitAnd, CellOf;
  }

  lemma AddedFromStepped<T>(s: State<T>, t: State<T>, u: State<T>, p: nat, P: Producer<T>, v: T)
    requires Inv(s) && Inv(t) && p < |s.producers| && Stepped(s, t, p, P) && Added(t, u, p, v)
    ensures Added(s, u, p, v)
  {
    hide CellsOk, ProducersOk, ConsumersOk, Faithful, Abs;
    AbsSame(s, t);
    assert s.producers[p := P][p := PIdle] == s.producers[p := PIdle];
  }

  lemma AddProbed<T>(s: State<T>, p: nat, v: T)
    requires Inv(s) && p < |s.producers| && s.producers[p] == PProbe(v, s.enq) && Free(s)
    ensures Added(s, Do(Do(Do(Do(s, ProbeEnq(p)), CasEnq(p, false)), Write(p)), Publish(p)), p, v)
  {
    var t := Do(s, ProbeEnq(p));
    ProbeFits(s, p, v);
    hide Inv, Do, Added, Stepped;
    SteppedAt(s, t, p, PMatched(v, s.enq));
    AddMatched(t, p, v);
    AddedFromStepped(s, t, Do(Do(Do(t, CasEnq(p, false)), Write(p)), Publish(p)), p, PMatched(v, s.enq), v);
  }

  /** An idle producer's enqueue with a free next cell, alone: six accesses, and the item is published. */
  lemma EnqueueAlone<T>(s: State<T>, p: nat, v: T)
    requires Inv(s) && p < |s.producers| && s.producers[p].PIdle? && Free(s)
    ensures var t := Do(Do(Do(s, Enqueue(p, v)), LoadEnq(p)), ProbeEnq(p));
      Added(s, Do(Do(Do(t, CasEnq(p, false)), Write(p)), Publish(p)), p, v)
  {
    var s1 := Do(s, Enqueue(p, v));
    assert Stepped(s, s1, p, PStart(v));
    DoKeeps(s, Enqueue(p, v));
    hide Inv, Do, Added, Stepped, Free;
    SteppedAt(s, s1, p, PStart(v));
    LoadTail(s1, p);
    var s2 := Do(s1, LoadEnq(p));
    SteppedAt(s1, s2, p, PProbe(v, s.enq));
    FreeSame(s, s2);
    AddProbed(s2, p, v);
    SteppedTwice(s, s1, s2, p, PStart(v), PProbe(v, s.enq));
    var t := Do(Do(Do(Do(s2, ProbeEnq(p)), CasEnq(p, false)), Write(p)), Publish(p));
    AddedFromStepped(s, s2, t, p, PProbe(v, s.enq), v);
  }

  lemma FreeSame<T>(s: State<T>, t: State<T>)
    requires |s.cells| > 0 && t.cells == s.cells && t.enq == s.enq && Free(s)
    ensures Free(t)
  {
  }

  ghost predicate OnlyProducer<T>(run: seq<Action<T>>, p: nat)
  {
    forall i | 0 <= i < |run| :: !OfConsumer(run[i]) && run[i].p == p
  }

  /** A producer whose ticket is old finds out and comes back with the next one; nobody else is touched. */
  lemma ReturnsToTail<T>(s: State<T>, p: nat) returns (run: seq<Action<T>>)
    requires Inv(s) && p < |s.producers|
    requires s.producers[p].PStart? || s.producers[p].PProbe? || s.producers[p].PMatched?
    ensures OnlyProducer(run, p) && Inv(Exec(s, run))
    ensures Stepped(s, Exec(s, run), p, PProbe(s.producers[p].v, s.enq))
            || (run == [] && s.producers[p] == PMatched(s.producers[p].v, s.enq))
  {
    hide Do, Inv, Stepped, Shaped, Exec;
    InvShaped(s);
    ExecNone(s);
    run := [];
    match s.producers[p]
    case PStart(v) =>
      LoadTail(s, p);
      run := More(s, run, LoadEnq(p));
    case PProbe(v, pos) =>
      if pos != s.enq {
        var a := ProbeComesBack(s, p);
        run := More(s, run, ProbeEnq(p));
        run := More(s, run, a);
      } else {
        NotStepped(s, p);
      }
    case PMatched(v, pos) =>
      if pos != s.enq {
        OldCasEnq(s, p);
        run := More(s, run, CasEnq(p, false));
      }
  }

  lemma NotStepped<T>(s: State<T>, p: nat)
    requires p < |s.producers|
    ensures Stepped(s, s, p, s.producers[p])
  {
  }

  lemma ProbeComesBack<T>(s: State<T>, p: nat) returns (a: Action<T>)
    requires Inv(s) && p < |s.producers| && s.producers[p].PProbe? && s.producers[p].pos != s.enq
    ensures !OfConsumer(a) && a.p == p
    ensures var t := Do(Do(s, ProbeEnq(p)), a); Inv(t) && Stepped(s, t, p, PProbe(s.producers[p].v, s.enq))
  {
    var P, t := s.producers[p], Do(s, ProbeEnq(p));
    OldProbeEnq(s, p);
    hide Do, Inv, Stepped;
    if Stepped(s, t, p, PStart(P.v)) {
      SteppedAt(s, t, p, PStart(P.v));
      LoadTail(t, p);
      SteppedTwice(s, t, Do(t, LoadEnq(p)), p, PStart(P.v), PProbe(P.v, s.enq));
      a := LoadEnq(p);
    } else {
      SteppedAt(s, t, p, PMatched(P.v, P.pos));
      OldCasEnq(t, p);
      SteppedTwice(s, t, Do(t, CasEnq(p, false)), p, PMatched(P.v, P.pos), PProbe(P.v, s.enq));
      a := CasEnq(p, false);
    }
  }

  /** From any point before its compare-and-swap succeeds, a producer that runs alone publishes its item in a free
      cell. */
  lemma EnqueueFinishes<T>(s: State<T>, p: nat) returns (run: seq<Action<T>>)
    requires Inv(s) && p < |s.producers|
    requires s.producers[p].PStart? || s.producers[p].PProbe? || s.producers[p].PMatched?
    requires Free(s)
    ensures OnlyProducer(run, p) && Added(s, Exec(s, run), p, s.producers[p].v)
  {
    hide Do, Inv, Added, Stepped, Exec, Free;
    var v := s.producers[p].v;
    InvShaped(s);
    ExecNone(s);
    var back := ReturnsToTail(s, p);
    var t := Exec(s, back);
    if back == [] && s.producers[p] == PMatched(v, s.enq) {
      run := back;
      AddMatched(s, p, v);
    } else {
      SteppedAt(s, t, p, PProbe(v, s.enq));
      FreeSame(s, t);
      AddProbed(t, p, v);
      run := More(s, back, ProbeEnq(p));
    }
    run := More(s, run, CasEnq(p, false));
    run := More(s, run, Write(p));
    run := More(s, run, Publish(p));
    if back != [] || s.producers[p] != PMatched(v, s.enq) {
      AddedFromStepped(s, t, Exec(s, run), p, PProbe(v, s.enq), v);
    }
  }
}
