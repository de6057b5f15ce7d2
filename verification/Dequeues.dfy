/** Whole dequeues and counts on the queue of `Mpmc`, seen from the thread that makes them. */
module Dequeues {
  import opened Bits
  import opened Inboxes
  import opened Mpmc

  predicate OfConsumer<T>(a: Action<T>)
  {
    a.Dequeue? || a.LoadDeq? || a.ProbeDeq? || a.CasDeq? || a.Read? || a.Release?
  }

  // ----- each dequeue is answered once -----

  /** Dequeue calls begun by consumer `c`. */
  function Begun<T>(s: State<T>, run: seq<Action<T>>, c: nat): nat
    requires Shaped(s)
  {
    if run == [] then 0
    else
      var front, a := run[..|run| - 1], run[|run| - 1];
      var t := Exec(s, front);
      Begun(s, front, c) + if a == Dequeue(c) && c < |t.consumers| && t.consumers[c].CIdle? then 1 else 0
  }

  /** The steps of consumer `c` at which an item leaves the inbox for it, or it is told there is none. */
  predicate Answers<T>(s: State<T>, a: Action<T>, c: nat)
    requires Shaped(s)
  {
    OfConsumer(a) && a.c == c && (LabelOf(s, a).Take? || LabelOf(s, a).Nothing?)
  }

  function Answered<T>(s: State<T>, run: seq<Action<T>>, c: nat): nat
    requires Shaped(s)
  {
    if run == [] then 0
    else
      var front, a := run[..|run| - 1], run[|run| - 1];
      Answered(s, front, c) + if Answers(Exec(s, front), a, c) then 1 else 0
  }

  /** A dequeue under way that has no answer yet. */
  predicate Undecided<T>(C: Consumer<T>)
  {
    C.CStart? || C.CProbe? || C.CMatched?
  }

  function One(b: bool): nat
  {
    if b then 1 else 0
  }

  lemma StepAnswers<T>(s: State<T>, a: Action<T>, c: nat)
    requires Inv(s) && c < |s.consumers|
    ensures var t := Do(s, a);
      && |t.consumers| == |s.consumers|
      && One(Undecided(s.consumers[c])) + One(a == Dequeue(c) && s.consumers[c].CIdle?)
         == One(Answers(s, a, c)) + One(Undecided(t.consumers[c]))
  {
    hide CellsOk, ProducersOk, ConsumersOk, Faithful, IsPow2, BitAnd, CellOf, Abs;
    if a.CasDeq? && a.c == c && s.consumers[c].CMatched? && s.deq == s.consumers[c].pos && !a.spurious {
      CasDeqRefines(s, c);
    }
  }

  /** Every dequeue has exactly one answer: in any run, calls begun are calls answered, plus one if one is undecided. */
  lemma {:induction false} AnsweredOnce<T>(size: nat, producers: nat, consumers: nat, run: seq<Action<T>>, c: nat)
    requires IsPow2(size) && size >= 2 && c < consumers
    ensures var s := Init<T>(size, producers, consumers);
      var t := Exec(s, run);
      && |t.consumers| == consumers
      && Begun(s, run, c) == Answered(s, run, c) + One(Undecided(t.consumers[c]))
    decreases |run|
  {
    hide Do, Inv, Accounted, Answers, Undecided, IsPow2;
    var s := Init<T>(size, producers, consumers);
    if run == [] {
      BeginsIdle<T>(size, producers, consumers, c);
    } else {
      var front := run[..|run| - 1];
      AnsweredOnce(size, producers, consumers, front, c);
      ExecSafe(size, producers, consumers, front);
      StepAnswers(Exec(s, front), run[|run| - 1], c);
    }
  }

  lemma BeginsIdle<T>(size: nat, producers: nat, consumers: nat, c: nat)
    requires size > 0 && c < consumers
    ensures var s := Init<T>(size, producers, consumers); |s.consumers| == consumers && !Undecided(s.consumers[c])
  {
  }

  // ----- a single consumer -----

  /** The items its dequeues returned. */
  function Yielded<T>(s: State<T>, run: seq<Action<T>>): seq<T>
    requires Shaped(s)
  {
    if run == [] then []
    else
      var front, a := run[..|run| - 1], run[|run| - 1];
      Yielded(s, front) + Yields(Exec(s, front), a)
  }

  function Yields<T>(s: State<T>, a: Action<T>): seq<T>
  {
    if a.Release? && a.c < |s.consumers| && s.consumers[a.c].CRead? then [s.consumers[a.c].v] else []
  }

  /** The item a consumer has taken and not yet returned. */
  function InFlight<T>(s: State<T>, C: Consumer<T>): seq<T>
  {
    match C
    case CClaimed(pos) => if pos < |s.sent| then [s.sent[pos]] else []
    case CRead(_, v) => [v]
    case _ => []
  }

  ghost predicate YieldsRight<T>(s: State<T>, a: Action<T>)
    requires Shaped(s) && |s.consumers| == 1
  {
    var t, l := Do(s, a), LabelOf(s, a);
    && |t.consumers| == 1
    && InFlight(s, s.consumers[0]) + (if l.Take? then [l.got] else []) == Yields(s, a) + InFlight(t, t.consumers[0])
  }

  lemma ProducerYields<T>(s: State<T>, a: Action<T>)
    requires Inv(s) && |s.consumers| == 1 && !OfConsumer(a)
    ensures YieldsRight(s, a)
  {
    hide CellsOk, ProducersOk, Faithful, IsPow2, BitAnd, CellOf;
    assert ConsumerOk(s.cells, s.deq, s.sent, s.received, s.consumers[0]);
  }

  /** What was read from the cell is what was sent under the ticket. */
  lemma ReadYields<T>(s: State<T>, c: nat)
    requires Inv(s) && Inv(Do(s, Read(c))) && |s.consumers| == 1
    ensures YieldsRight(s, Read(c))
  {
    hide CellsOk, ProducersOk, Faithful, IsPow2, BitAnd, CellOf;
    assert ConsumerOk(s.cells, s.deq, s.sent, s.received, s.consumers[0]);
  }

  lemma OtherYields<T>(s: State<T>, a: Action<T>)
    requires Inv(s) && |s.consumers| == 1 && OfConsumer(a) && !a.Read?
    ensures YieldsRight(s, a)
  {
    hide CellsOk, ProducersOk, ConsumersOk, Faithful, IsPow2, BitAnd, CellOf;
  }

  lemma StepYields<T>(s: State<T>, a: Action<T>)
    requires Inv(s) && |s.consumers| == 1
    ensures YieldsRight(s, a)
  {
    hide YieldsRight, Do;
    if !OfConsumer(a) {
      ProducerYields(s, a);
    } else if a.Read? {
      DoKeeps(s, a);
      ReadYields(s, a.c);
    } else {
      OtherYields(s, a);
    }
  }

  /** With one consumer, what its dequeues return, in order, followed by the item it has in flight, is exactly what left
      the inbox: taking an item at the compare-and-swap and returning it later come to the same. */
  lemma {:induction false} OneConsumer<T>(size: nat, producers: nat, run: seq<Action<T>>)
    requires IsPow2(size) && size >= 2
    ensures var s := Init<T>(size, producers, 1);
      var t := Exec(s, run);
      && |t.consumers| == 1
      && Taken(Trace(s, run)) == Yielded(s, run) + InFlight(t, t.consumers[0])
    decreases |run|
  {
    hide Do, Inv, Accounted, Yields, InFlight, IsPow2, LabelOf;
    var s := Init<T>(size, producers, 1);
    if run == [] {
      BeginsIdle<T>(size, producers, 1, 0);
      BeginsEmpty<T>(size, producers);
    } else {
      var front, a := run[..|run| - 1], run[|run| - 1];
      OneConsumer(size, producers, front);
      ExecSafe(size, producers, 1, front);
      var t := Exec(s, front);
      StepYields(t, a);
      TakenNext(Trace(s, front), LabelOf(t, a));
      Regroup(Yielded(s, front), InFlight(t, t.consumers[0]), if LabelOf(t, a).Take? then [LabelOf(t, a).got] else [],
              Yields(t, a), InFlight(Do(t, a), Do(t, a).consumers[0]));
    }
  }

  lemma BeginsEmpty<T>(size: nat, producers: nat)
    requires size > 0
    ensures var s := Init<T>(size, producers, 1); InFlight(s, s.consumers[0]) == []
  {
  }

  lemma TakenNext<T>(ls: seq<Label<T>>, l: Label<T>)
    ensures Taken(ls + [l]) == Taken(ls) + if l.Take? then [l.got] else []
  {
    assert (ls + [l])[..|ls|] == ls;
  }

  lemma Regroup<T>(a: seq<T>, b: seq<T>, c: seq<T>, d: seq<T>, e: seq<T>)
    requires b + c == d + e
    ensures a + b + c == a + d + e
  {
    assert a + b + c == a + (b + c) && a + d + e == a + (d + e);
  }

  // ----- counting -----

  /** mpmcq_count loads the enqueue position, then the dequeue position. When no consumer moves in between, as when the
      only consumer is the thread that counts, the difference is the length of the inbox at the first load. */
  lemma {:induction false} CountAtFirstLoad<T>(s: State<T>, run: seq<Action<T>>)
    requires Inv(s) && forall i | 0 <= i < |run| :: !OfConsumer(run[i])
    ensures Exec(s, run).deq == s.deq && s.enq - Exec(s, run).deq == |Abs(s)|
    decreases |run|
  {
    hide CellsOk, ProducersOk, ConsumersOk, Faithful, IsPow2, BitAnd, CellOf;
    if run != [] {
      CountAtFirstLoad(s, run[..|run| - 1]);
      assert !OfConsumer(run[|run| - 1]);
    }
  }
}
