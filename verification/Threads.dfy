/** What one step of a sender or of the only reader does to a queue, as its reactor sees it. */
module Threads {
  import opened Bits
  import opened Inboxes
  import opened Mpmc
  import opened Dequeues
  import opened Seqs

  /** Items in hand of the reader, in front of the inbox. */
  function Slots<T>(items: seq<T>): Inbox<T>
  {
    seq(|items|, (i: nat) requires i < |items| => Slot(items[i], true))
  }

  lemma SlotsOf<T>(x: T)
    ensures Slots<T>([]) == [] && Slots([x]) == [Slot(x, true)]
  {
  }

  // ----- senders -----

  /** The next atomic step of sender `r`, which sends `m` when it begins. */
  function SenderAction<T>(P: Producer<T>, r: nat, m: T, spurious: bool): Action<T>
  {
    match P
    case PIdle => Enqueue(r, m)
    case PStart(_) => LoadEnq(r)
    case PProbe(_, _) => ProbeEnq(r)
    case PMatched(_, _) => CasEnq(r, spurious)
    case PClaimed(_, _) => Write(r)
    case PWritten(_, _) => Publish(r)
  }

  /** A sender stands before its compare-and-swap with item `m`. */
  predicate Trying<T(==)>(P: Producer<T>, m: T)
  {
    (P.PStart? || P.PProbe? || P.PMatched?) && P.v == m
  }

  /** A sender owns a place and holds `m`. */
  predicate Owning<T(==)>(P: Producer<T>, m: T)
  {
    (P.PClaimed? || P.PWritten?) && P.v == m
  }

  /** Nothing moved but producer `r`, and perhaps the inbox. */
  ghost predicate SenderFrame<T>(q: State<T>, t: State<T>, r: nat)
  {
    && Inv(t) && |t.cells| == |q.cells| && |t.producers| == |q.producers|
    && t.consumers == q.consumers && t.deq == q.deq
    && forall p | 0 <= p < |q.producers| && p != r :: t.producers[p] == q.producers[p]
  }

  lemma SenderFrames<T>(q: State<T>, r: nat, m: T, spurious: bool)
    requires Inv(q) && r < |q.producers|
    ensures SenderFrame(q, Do(q, SenderAction(q.producers[r], r, m, spurious)), r)
  {
    DoKeeps(q, SenderAction(q.producers[r], r, m, spurious));
    hide CellsOk, ProducersOk, ConsumersOk, Faithful, IsPow2, CellOf, BitAnd;
  }

  lemma SenderTries<T>(q: State<T>, r: nat, m: T, spurious: bool)
    requires Inv(q) && r < |q.producers| && (q.producers[r].PIdle? || Trying(q.producers[r], m))
    ensures var t := Do(q, SenderAction(q.producers[r], r, m, spurious));
      && Counted(q) && Counted(t)
      && ((Trying(t.producers[r], m) && Abs(t) == Abs(q))
          || (Owning(t.producers[r], m) && t.producers[r].PClaimed? && Abs(t) == After(Abs(q), Claim(m))))
  {
    var a := SenderAction(q.producers[r], r, m, spurious);
    StepRefines(q, a);
    hide CellsOk, ProducersOk, ConsumersOk, Faithful, IsPow2, CellOf, BitAnd, Abs;
  }

  lemma SenderOwns<T>(q: State<T>, r: nat, m: T, spurious: bool)
    requires Inv(q) && r < |q.producers| && q.producers[r].PClaimed? && Owning(q.producers[r], m)
    ensures var t := Do(q, SenderAction(q.producers[r], r, m, spurious));
      Counted(q) && Counted(t) && Owning(t.producers[r], m) && Abs(t) == Abs(q)
  {
    var a := SenderAction(q.producers[r], r, m, spurious);
    StepRefines(q, a);
    hide CellsOk, ProducersOk, ConsumersOk, Faithful, IsPow2, CellOf, BitAnd, Abs;
  }

  lemma SenderPublishes<T>(q: State<T>, r: nat, m: T, spurious: bool) returns (j: nat)
    requires Inv(q) && r < |q.producers| && q.producers[r].PWritten?
    requires q.producers[r].v == m
    ensures var t := Do(q, SenderAction(q.producers[r], r, m, spurious));
      && Counted(q) && Counted(t) && t.producers[r].PIdle?
      && j < |Abs(q)| && Abs(q)[j] == Slot(m, false) && Abs(t) == After(Abs(q), Ready(j))
  {
    PublishRefines(q, r);
    DoKeeps(q, Publish(r));
    assert ProducerOk(q.cells, q.sent, q.producers[r]);
    AbsAt(q);
    j := q.producers[r].pos - q.deq;
    hide CellsOk, ProducersOk, ConsumersOk, Faithful, IsPow2, CellOf, BitAnd, Abs;
  }

  /** What the reader has in flight does not depend on the senders. */
  lemma SenderFlight<T>(q: State<T>, r: nat, m: T, spurious: bool)
    requires Inv(q) && r < |q.producers| && |q.consumers| == 1
    ensures var t := Do(q, SenderAction(q.producers[r], r, m, spurious));
      |t.consumers| == 1 && InFlight(t, t.consumers[0]) == InFlight(q, q.consumers[0])
  {
    var a := SenderAction(q.producers[r], r, m, spurious);
    StepYields(q, a);
    hide CellsOk, ProducersOk, ConsumersOk, Faithful, IsPow2, CellOf, BitAnd;
  }

  // ----- the reader -----

  function ReaderAction<T>(C: Consumer<T>, spurious: bool): Action<T>
  {
    match C
    case CIdle => Dequeue(0)
    case CStart => LoadDeq(0)
    case CProbe(_) => ProbeDeq(0)
    case CMatched(_) => CasDeq(0, spurious)
    case CClaimed(_) => Read(0)
    case CRead(_, _) => Release(0)
  }

  /** The inbox with what the reader has in flight in front. */
  ghost function Ahead<T>(q: State<T>): Inbox<T>
    requires Counted(q) && |q.consumers| == 1
  {
    Slots(InFlight(q, q.consumers[0])) + Abs(q)
  }

  ghost predicate ReaderFrame<T>(q: State<T>, t: State<T>)
  {
    Inv(t) && |t.cells| == |q.cells| && |t.consumers| == 1 && t.producers == q.producers
  }

  lemma ReaderFrames<T>(q: State<T>, spurious: bool)
    requires Inv(q) && |q.consumers| == 1
    ensures ReaderFrame(q, Do(q, ReaderAction(q.consumers[0], spurious)))
  {
    DoKeeps(q, ReaderAction(q.consumers[0], spurious));
    hide CellsOk, ProducersOk, ConsumersOk, Faithful, IsPow2, CellOf, BitAnd;
  }

  /** Until an item is returned the reader only moves it from the inbox to its hand; told there is none, it is idle. */
  lemma ReaderMoves<T>(q: State<T>, spurious: bool)
    requires Inv(q) && |q.consumers| == 1 && !q.consumers[0].CRead?
    ensures var t := Do(q, ReaderAction(q.consumers[0], spurious));
      && Counted(q) && Counted(t) && |t.consumers| == 1 && Ahead(t) == Ahead(q)
      && (t.consumers[0].CIdle? ==>
            q.consumers[0].CProbe? && InFlight(q, q.consumers[0]) == [] && (Abs(q) == [] || !Abs(q)[0].ready))
  {
    var a := ReaderAction(q.consumers[0], spurious);
    var t := Do(q, a);
    StepYields(q, a);
    StepRefines(q, a);
    ReaderLabels(q, spurious);
    hide CellsOk, ProducersOk, ConsumersOk, Faithful, IsPow2, CellOf, BitAnd, Abs, Do, LabelOf, Inv;
    if LabelOf(q, a).Take? {
      SlotsOf(LabelOf(q, a).got);
      assert Abs(q) == [Abs(q)[0]] + Abs(q)[1..];
    }
  }

  lemma ReaderLabels<T>(q: State<T>, spurious: bool)
    requires Inv(q) && |q.consumers| == 1 && !q.consumers[0].CRead?
    ensures var a := ReaderAction(q.consumers[0], spurious);
      var t, l := Do(q, a), LabelOf(q, a);
      && |t.consumers| == 1 && Counted(q) && Counted(t) && Yields(q, a) == []
      && (l.Take? || l.Nothing? || l.Silent?) && (l.Take? ==> InFlight(q, q.consumers[0]) == [])
      && (t.consumers[0].CIdle? ==> q.consumers[0].CProbe? && l.Nothing? && InFlight(q, q.consumers[0]) == [])
  {
    DoKeeps(q, ReaderAction(q.consumers[0], spurious));
    hide CellsOk, ProducersOk, ConsumersOk, Faithful, IsPow2, CellOf, BitAnd;
  }

  /** The item is returned. */
  lemma ReaderReturns<T>(q: State<T>, spurious: bool)
    requires Inv(q) && |q.consumers| == 1 && q.consumers[0].CRead?
    ensures var t := Do(q, ReaderAction(q.consumers[0], spurious));
      && Counted(q) && Counted(t) && |t.consumers| == 1 && t.consumers[0].CIdle?
      && Abs(t) == Abs(q) && Ahead(q) == [Slot(q.consumers[0].v, true)] + Abs(q) && Ahead(t) == Abs(t)
  {
    StepRefines(q, Release(0));
    SlotsOf(q.consumers[0].v);
    ReleaseMoves(q);
    hide Do, Abs, Slots, Inv;
    EmptyFront(Abs(q));
  }

  lemma EmptyFront<T>(q: Inbox<T>)
    ensures [] + q == q
  {
  }

  lemma ReleaseMoves<T>(q: State<T>)
    requires Inv(q) && |q.consumers| == 1 && q.consumers[0].CRead?
    ensures var t := Do(q, Release(0));
      && Counted(q) && Counted(t) && |t.consumers| == 1 && t.consumers[0].CIdle? && LabelOf(q, Release(0)) == Silent
      && InFlight(q, q.consumers[0]) == [q.consumers[0].v] && InFlight(t, t.consumers[0]) == []
  {
    DoKeeps(q, Release(0));
    hide CellsOk, ProducersOk, ConsumersOk, Faithful, IsPow2, CellOf, BitAnd;
  }

  lemma NotReading<T>(q: State<T>)
    requires Counted(q) && |q.consumers| == 1 && q.consumers[0].CIdle?
    ensures Ahead(q) == Abs(q) && |Abs(q)| == q.enq - q.deq
  {
    AbsAt(q);
  }
}
