/** The bounded multi-producer multi-consumer queue, one atomic load, compare-and-swap or store per step. */
module Mpmc {
  import opened Bits
  import opened Inboxes

  datatype Cell<T> = Cell(seqno: nat, data: Option<T>)

  /** Where a thread stands inside mpmcq_enqueue. */
  datatype Producer<T> =
    | PIdle
    | PStart(v: T)                // about to load enqueue_pos
    | PProbe(v: T, pos: nat)      // about to load the cell's seq
    | PMatched(v: T, pos: nat)    // saw seq == pos, about to compare-and-swap
    | PClaimed(v: T, pos: nat)    // owns the cell, about to write its data
    | PWritten(v: T, pos: nat)    // about to store seq

  /** Where a thread stands inside mpmcq_dequeue. */
  datatype Consumer<T> =
    | CIdle
    | CStart                      // about to load dequeue_pos
    | CProbe(pos: nat)            // about to load the cell's seq
    | CMatched(pos: nat)          // saw seq == pos + 1, about to compare-and-swap
    | CClaimed(pos: nat)          // owns the cell, about to read its data
    | CRead(pos: nat, v: T)       // about to store seq

  /** The queue, its threads, and the history: what was sent under each ticket, what was received for each ticket. */
  datatype State<T> = State(
    mask: nat, cells: seq<Cell<T>>, enq: nat, deq: nat,
    producers: seq<Producer<T>>, consumers: seq<Consumer<T>>,
    sent: seq<T>, received: map<nat, T>)

  datatype Action<T> =
    | Enqueue(p: nat, v: T) | LoadEnq(p: nat) | ProbeEnq(p: nat) | CasEnq(p: nat, spurious: bool)
    | Write(p: nat) | Publish(p: nat)
    | Dequeue(c: nat) | LoadDeq(c: nat) | ProbeDeq(c: nat) | CasDeq(c: nat, spurious: bool)
    | Read(c: nat) | Release(c: nat)

  function Init<T>(size: nat, producers: nat, consumers: nat): State<T>
    requires size > 0
  {
    State(size - 1, seq(size, (i: nat) => Cell(i, None)), 0, 0,
          seq(producers, _ => PIdle), seq(consumers, _ => CIdle), [], map[])
  }

  predicate Shaped<T>(s: State<T>)
  {
    |s.cells| == s.mask + 1 && IsPow2(s.mask + 1)
  }

  /** The cell of a ticket. */
  function CellOf<T>(s: State<T>, pos: nat): (r: nat)
    requires Shaped(s)
    ensures r < |s.cells| && r == pos % |s.cells|
  {
    MaskIsMod(pos, s.mask + 1);
    BitAnd(pos, s.mask)
  }

  /** One step of one producer. `diff` is unsigned in the source, so a full queue only ever makes the producer retry. */
  function DoProducer<T>(s: State<T>, a: Action<T>): State<T>
    requires Shaped(s)
  {
    match a
    case Enqueue(p, v) =>
      if p < |s.producers| && s.producers[p].PIdle? then s.(producers := s.producers[p := PStart(v)]) else s
    case LoadEnq(p) =>
      if p < |s.producers| && s.producers[p].PStart?
      then s.(producers := s.producers[p := PProbe(s.producers[p].v, s.enq)]) else s
    case ProbeEnq(p) =>
      if p < |s.producers| && s.producers[p].PProbe? then
        var P := s.producers[p];
        var free := s.cells[CellOf(s, P.pos)].seqno == P.pos;
        s.(producers := s.producers[p := if free then PMatched(P.v, P.pos) else PStart(P.v)])
      else s
    case CasEnq(p, spurious) =>
      if p < |s.producers| && s.producers[p].PMatched? then
        var P := s.producers[p];
        if s.enq == P.pos && !spurious
        then s.(enq := s.enq + 1, sent := s.sent + [P.v], producers := s.producers[p := PClaimed(P.v, P.pos)])
        else s.(producers := s.producers[p := PProbe(P.v, s.enq)])
      else s
    case Write(p) =>
      if p < |s.producers| && s.producers[p].PClaimed? then
        var P := s.producers[p];
        var i := CellOf(s, P.pos);
        s.(cells := s.cells[i := s.cells[i].(data := Some(P.v))], producers := s.producers[p := PWritten(P.v, P.pos)])
      else s
    case Publish(p) =>
      if p < |s.producers| && s.producers[p].PWritten? then
        var P := s.producers[p];
        var i := CellOf(s, P.pos);
        s.(cells := s.cells[i := s.cells[i].(seqno := P.pos + 1)], producers := s.producers[p := PIdle])
      else s
    case _ => s
  }

  /** One step of one consumer; `ProbeDeq` on a cell behind its ticket returns NULL. */
  function DoConsumer<T>(s: State<T>, a: Action<T>): State<T>
    requires Shaped(s)
  {
    match a
    case Dequeue(c) =>
      if c < |s.consumers| && s.consumers[c].CIdle? then s.(consumers := s.consumers[c := CStart]) else s
    case LoadDeq(c) =>
      if c < |s.consumers| && s.consumers[c].CStart? then s.(consumers := s.consumers[c := CProbe(s.deq)]) else s
    case ProbeDeq(c) =>
      if c < |s.consumers| && s.consumers[c].CProbe? then
        var pos := s.consumers[c].pos;
        var q := s.cells[CellOf(s, pos)].seqno;
        s.(consumers := s.consumers[c := if q == pos + 1 then CMatched(pos) else if q < pos + 1 then CIdle else CStart])
      else s
    case CasDeq(c, spurious) =>
      if c < |s.consumers| && s.consumers[c].CMatched? then
        var pos := s.consumers[c].pos;
        if s.deq == pos && !spurious
        then s.(deq := s.deq + 1, consumers := s.consumers[c := CClaimed(pos)])
        else s.(consumers := s.consumers[c := CProbe(s.deq)])
      else s
    case Read(c) =>
      if c < |s.consumers| && s.consumers[c].CClaimed? && s.cells[CellOf(s, s.consumers[c].pos)].data.Some? then
        var pos := s.consumers[c].pos;
        s.(consumers := s.consumers[c := CRead(pos, s.cells[CellOf(s, pos)].data.value)])
      else s
    case Release(c) =>
      if c < |s.consumers| && s.consumers[c].CRead? then
        var C := s.consumers[c];
        var i := CellOf(s, C.pos);
        s.(cells := s.cells[i := s.cells[i].(seqno := C.pos + s.mask + 1)], consumers := s.consumers[c := CIdle],
           received := s.received[C.pos := C.v])
      else s
    case _ => s
  }

  function Do<T>(s: State<T>, a: Action<T>): (t: State<T>)
    requires Shaped(s)
    ensures Shaped(t) && t.mask == s.mask
  {
    if a.Enqueue? || a.LoadEnq? || a.ProbeEnq? || a.CasEnq? || a.Write? || a.Publish? then DoProducer(s, a)
    else DoConsumer(s, a)
  }

  /** Every interleaving of any number of producers and consumers is one list of actions. */
  function Exec<T>(s: State<T>, run: seq<Action<T>>): (t: State<T>)
    requires Shaped(s)
    ensures Shaped(t) && t.mask == s.mask
  {
    if run == [] then s else Do(Exec(s, run[..|run| - 1]), run[|run| - 1])
  }

  // ----- the invariant -----

  /** The cell waits for ticket `seqno`, or is being filled under it. */
  ghost predicate Open<T>(cells: seq<Cell<T>>, deq: nat, i: nat)
    requires i < |cells|
  {
    var q := cells[i].seqno;
    q % |cells| == i && deq <= q < deq + |cells|
  }

  /** The cell holds the published item of ticket `seqno - 1`. */
  ghost predicate Filled<T>(cells: seq<Cell<T>>, sent: seq<T>, i: nat)
    requires i < |cells|
  {
    var q := cells[i].seqno;
    q > 0 && (q - 1) % |cells| == i && q <= |sent| < q + |cells| && cells[i].data == Some(sent[q - 1])
  }

  ghost predicate CellsOk<T>(cells: seq<Cell<T>>, deq: nat, sent: seq<T>)
  {
    forall i | 0 <= i < |cells| :: Open(cells, deq, i) || Filled(cells, sent, i)
  }

  predicate OwnsP<T>(P: Producer<T>) { P.PClaimed? || P.PWritten? }

  predicate OwnsC<T>(C: Consumer<T>) { C.CClaimed? || C.CRead? }

  ghost predicate ProducerOk<T>(cells: seq<Cell<T>>, sent: seq<T>, P: Producer<T>)
    requires |cells| > 0
  {
    match P
    case PProbe(_, pos) => pos <= |sent|
    case PMatched(_, pos) => pos <= |sent| && cells[pos % |cells|].seqno >= pos
    case PClaimed(v, pos) => pos < |sent| && sent[pos] == v && cells[pos % |cells|].seqno == pos
    case PWritten(v, pos) => pos < |sent| && sent[pos] == v && cells[pos % |cells|] == Cell(pos, Some(v))
    case _ => true
  }

  ghost predicate ConsumerOk<T>(cells: seq<Cell<T>>, deq: nat, sent: seq<T>, received: map<nat, T>, C: Consumer<T>)
    requires |cells| > 0
  {
    match C
    case CProbe(pos) => pos <= deq
    case CMatched(pos) => pos <= deq && cells[pos % |cells|].seqno > pos
    case CClaimed(pos) => pos < deq && cells[pos % |cells|].seqno == pos + 1 && pos !in received
    case CRead(pos, v) =>
      pos < deq && cells[pos % |cells|].seqno == pos + 1 && pos !in received && pos < |sent| && v == sent[pos]
    case _ => true
  }

  /** Every producer's view is right, and no two own the same ticket. */
  ghost predicate ProducersOk<T>(cells: seq<Cell<T>>, sent: seq<T>, ps: seq<Producer<T>>)
    requires |cells| > 0
  {
    && (forall p | 0 <= p < |ps| :: ProducerOk(cells, sent, ps[p]))
    && (forall p, q | 0 <= p < |ps| && 0 <= q < |ps| && OwnsP(ps[p]) && OwnsP(ps[q]) && ps[p].pos == ps[q].pos
         :: p == q)
  }

  ghost predicate ConsumersOk<T>(cells: seq<Cell<T>>, deq: nat, sent: seq<T>, received: map<nat, T>,
                                 cs: seq<Consumer<T>>)
    requires |cells| > 0
  {
    && (forall c | 0 <= c < |cs| :: ConsumerOk(cells, deq, sent, received, cs[c]))
    && (forall c, d | 0 <= c < |cs| && 0 <= d < |cs| && OwnsC(cs[c]) && OwnsC(cs[d]) && cs[c].pos == cs[d].pos
         :: c == d)
  }

  /** Whatever was received for a ticket is what was sent under it. */
  ghost predicate Faithful<T>(deq: nat, sent: seq<T>, received: map<nat, T>)
  {
    forall k | k in received :: k < deq && k < |sent| && received[k] == sent[k]
  }

  ghost predicate Inv<T>(s: State<T>)
  {
    && Shaped(s) && |s.cells| >= 2
    && s.deq <= s.enq <= s.deq + |s.cells| && |s.sent| == s.enq
    && CellsOk(s.cells, s.deq, s.sent)
    && ProducersOk(s.cells, s.sent, s.producers)
    && ConsumersOk(s.cells, s.deq, s.sent, s.received, s.consumers)
    && Faithful(s.deq, s.sent, s.received)
  }

  // ----- tickets and cells -----

  lemma Neighbours(a: nat, n: nat)
    requires n >= 2
    ensures (a + 1) % n != a % n
  {
    if (a + 1) % n == a % n {
      SameSlot(a, a + 1, n);
    }
  }

  lemma LapSlot(a: nat, n: nat)
    requires n > 0
    ensures (a + n) % n == a % n
  {
    ModUnique(a + n, n, a / n + 1, a % n);
  }

  /** The head ticket's cell is past the ticket exactly when its item is published, and then it holds that item. */
  lemma HeadCell<T>(s: State<T>)
    requires Inv(s)
    ensures var cell := s.cells[s.deq % |s.cells|];
      cell.seqno <= s.deq || (cell.seqno == s.deq + 1 && s.deq < s.enq && cell.data == Some(s.sent[s.deq]))
  {
    var n, i := |s.cells|, s.deq % |s.cells|;
    var q := s.cells[i].seqno;
    if q > s.deq {
      if Open(s.cells, s.deq, i) {
        SameSlot(s.deq, q, n);
      } else if q - 1 > s.deq {
        SameSlot(s.deq, q - 1, n);
      }
    }
  }

  /** The next ticket's cell reaches that ticket only free for it, when the queue is not full. */
  lemma TailCell<T>(s: State<T>)
    requires Inv(s) && s.cells[s.enq % |s.cells|].seqno >= s.enq
    ensures s.cells[s.enq % |s.cells|].seqno == s.enq < s.deq + |s.cells|
  {
    var n, i := |s.cells|, s.enq % |s.cells|;
    var q := s.cells[i].seqno;
    if Open(s.cells, s.deq, i) {
      if q > s.enq {
        SameSlot(s.enq, q, n);
      }
    } else {
      Neighbours(q - 1, n);
    }
  }

  /** The cell of a ticket already taken is past the ticket. */
  lemma TakenCell<T>(s: State<T>, k: nat)
    requires Inv(s) && k < s.deq
    ensures s.cells[k % |s.cells|].seqno > k
  {
    var n, i := |s.cells|, k % |s.cells|;
    var q := s.cells[i].seqno;
    if !Open(s.cells, s.deq, i) && q - 1 < k {
      SameSlot(q - 1, k, n);
    }
  }

  // ----- every step keeps the invariant -----

  lemma InitInv<T>(size: nat, producers: nat, consumers: nat)
    requires IsPow2(size) && size >= 2
    ensures Inv(Init<T>(size, producers, consumers))
  {
    hide IsPow2, CellsOk;
    InitCells<T>(size);
  }

  lemma InitCells<T>(size: nat)
    requires size > 0
    ensures CellsOk<T>(seq(size, (i: nat) => Cell(i, None)), 0, [])
  {
    var cells: seq<Cell<T>> := seq(size, (i: nat) => Cell(i, None));
    forall i | 0 <= i < |cells|
      ensures Open(cells, 0, i)
    {
      ModUnique(i, |cells|, 0, i);
    }
  }

  lemma LocalKeeps<T>(s: State<T>, a: Action<T>)
    requires Inv(s)
    requires a.Enqueue? || a.LoadEnq? || a.ProbeEnq? || a.Dequeue? || a.LoadDeq? || a.ProbeDeq?
    ensures Inv(Do(s, a))
  {
    hide CellsOk, Faithful, IsPow2, CellOf;
  }

  lemma CasEnqKeeps<T>(s: State<T>, p: nat, spurious: bool)
    requires Inv(s)
    ensures Inv(Do(s, CasEnq(p, spurious)))
  {
    if p < |s.producers| && s.producers[p].PMatched? && s.enq == s.producers[p].pos && !spurious {
      TailCell(s);
      var sent := s.sent + [s.producers[p].v];
      forall i | 0 <= i < |s.cells|
        ensures Open(s.cells, s.deq, i) || Filled(s.cells, sent, i)
      {
        var q := s.cells[i].seqno;
        if !Open(s.cells, s.deq, i) && s.enq + 1 == q + |s.cells| {
          LapSlot(q - 1, |s.cells|);
        }
      }
    }
  }

  /** A cell whose `seqno` is its own ticket is open, not filled. */
  lemma OpenAt<T>(s: State<T>, pos: nat)
    requires Inv(s) && s.cells[pos % |s.cells|].seqno == pos
    ensures Open(s.cells, s.deq, pos % |s.cells|)
  {
    if !Open(s.cells, s.deq, pos % |s.cells|) {
      Neighbours(pos - 1, |s.cells|);
    }
  }

  lemma FilledAt<T>(s: State<T>, pos: nat)
    requires Inv(s) && s.cells[pos % |s.cells|].seqno == pos + 1
    ensures Filled(s.cells, s.sent, pos % |s.cells|)
  {
    Neighbours(pos, |s.cells|);
  }

  lemma CellUpdate<T>(cells: seq<Cell<T>>, deq: nat, sent: seq<T>, i: nat, cell: Cell<T>)
    requires CellsOk(cells, deq, sent) && i < |cells|
    requires Open(cells[i := cell], deq, i) || Filled(cells[i := cell], sent, i)
    ensures CellsOk(cells[i := cell], deq, sent)
  {
    var t := cells[i := cell];
    forall j | 0 <= j < |cells|
      ensures Open(t, deq, j) || Filled(t, sent, j)
    {
      assert Open(cells, deq, j) || Filled(cells, sent, j);
    }
  }

  lemma WriteKeeps<T>(s: State<T>, p: nat)
    requires Inv(s)
    ensures Inv(Do(s, Write(p)))
  {
    if p < |s.producers| && s.producers[p].PClaimed? {
      var pos, n := s.producers[p].pos, |s.cells|;
      OpenAt(s, pos);
      CellUpdate(s.cells, s.deq, s.sent, pos % n, s.cells[pos % n].(data := Some(s.producers[p].v)));
    }
  }

  lemma PublishKeeps<T>(s: State<T>, p: nat)
    requires Inv(s)
    ensures Inv(Do(s, Publish(p)))
  {
    if p < |s.producers| && s.producers[p].PWritten? {
      var pos, n := s.producers[p].pos, |s.cells|;
      OpenAt(s, pos);
      PublishThreads(s, p);
      CellUpdate(s.cells, s.deq, s.sent, pos % n, s.cells[pos % n].(seqno := pos + 1));
      hide ProducersOk, ConsumersOk, IsPow2;
    }
  }

  /** No other thread's view changes: a neighbouring ticket has another cell. */
  lemma PublishThreads<T>(s: State<T>, p: nat)
    requires Inv(s) && p < |s.producers| && s.producers[p].PWritten?
    ensures var t := Do(s, Publish(p));
      ProducersOk(t.cells, t.sent, t.producers) && ConsumersOk(t.cells, t.deq, t.sent, t.received, t.consumers)
  {
    var pos, n := s.producers[p].pos, |s.cells|;
    OpenAt(s, pos);
    hide CellsOk, Faithful, IsPow2;
    forall k: nat | k + 1 == pos
      ensures k % n != pos % n
    {
      Neighbours(k, n);
    }
  }

  lemma CasDeqKeeps<T>(s: State<T>, c: nat, spurious: bool)
    requires Inv(s)
    ensures Inv(Do(s, CasDeq(c, spurious)))
  {
    if c < |s.consumers| && s.consumers[c].CMatched? && s.deq == s.consumers[c].pos && !spurious {
      HeadCell(s);
      forall i | 0 <= i < |s.cells|
        ensures Open(s.cells, s.deq + 1, i) || Filled(s.cells, s.sent, i)
      {
        assert Open(s.cells, s.deq, i) ==> s.cells[i].seqno != s.deq;
      }
    }
  }

  lemma ReadKeeps<T>(s: State<T>, c: nat)
    requires Inv(s)
    ensures Inv(Do(s, Read(c)))
  {
    hide CellsOk;
    if c < |s.consumers| && s.consumers[c].CClaimed? {
      FilledAt(s, s.consumers[c].pos);
    }
  }

  lemma ReleaseKeeps<T>(s: State<T>, c: nat)
    requires Inv(s)
    ensures Inv(Do(s, Release(c)))
  {
    if c < |s.consumers| && s.consumers[c].CRead? {
      var pos, n := s.consumers[c].pos, |s.cells|;
      FilledAt(s, pos);
      LapSlot(pos, n);
      CellUpdate(s.cells, s.deq, s.sent, pos % n, s.cells[pos % n].(seqno := pos + n));
      ReleaseProducers(s, pos);
      ReleaseConsumers(s, c);
    }
  }

  lemma ReleaseProducers<T>(s: State<T>, pos: nat)
    requires Inv(s) && s.cells[pos % |s.cells|].seqno == pos + 1
    ensures ProducersOk(s.cells[pos % |s.cells| := s.cells[pos % |s.cells|].(seqno := pos + |s.cells|)], s.sent,
            s.producers)
  {
    hide CellsOk, ConsumersOk, Faithful;
    Neighbours(pos, |s.cells|);
  }

  lemma ReleaseConsumers<T>(s: State<T>, c: nat)
    requires Inv(s) && c < |s.consumers| && s.consumers[c].CRead?
    ensures var pos, v := s.consumers[c].pos, s.consumers[c].v;
      ConsumersOk(s.cells[pos % |s.cells| := s.cells[pos % |s.cells|].(seqno := pos + |s.cells|)], s.deq, s.sent,
                  s.received[pos := v], s.consumers[c := CIdle])
  {
    hide CellsOk, ProducersOk, Faithful;
  }

  lemma DoKeeps<T>(s: State<T>, a: Action<T>)
    requires Inv(s)
    ensures Inv(Do(s, a))
  {
    hide Inv;
    match a
    case CasEnq(p, spurious) => CasEnqKeeps(s, p, spurious);
    case Write(p) => WriteKeeps(s, p);
    case Publish(p) => PublishKeeps(s, p);
    case CasDeq(c, spurious) => CasDeqKeeps(s, c, spurious);
    case Read(c) => ReadKeeps(s, c);
    case Release(c) => ReleaseKeeps(s, c);
    case _ => LocalKeeps(s, a);
  }

  // ----- nothing is lost -----

  ghost predicate Held<T>(cs: seq<Consumer<T>>, k: nat)
  {
    exists c :: 0 <= c < |cs| && OwnsC(cs[c]) && cs[c].pos == k
  }

  ghost predicate Pending<T>(ps: seq<Producer<T>>, k: nat)
  {
    exists p :: 0 <= p < |ps| && OwnsP(ps[p]) && ps[p].pos == k
  }

  predicate Published<T>(s: State<T>, k: nat)
    requires |s.cells| > 0
  {
    s.cells[k % |s.cells|].seqno == k + 1
  }

  /** Every ticket taken was received or is in the hands of a consumer; every ticket still queued is published or in
      the hands of a producer. */
  ghost predicate Accounted<T>(s: State<T>)
    requires |s.cells| > 0
  {
    && (forall k: nat | k < s.deq :: k in s.received || Held(s.consumers, k))
    && (forall k: nat {:trigger Published(s, k)} | s.deq <= k < s.enq :: Published(s, k) || Pending(s.producers, k))
  }

  lemma HeldUpdate<T>(cs: seq<Consumer<T>>, c: nat, C: Consumer<T>, k: nat)
    requires c < |cs| && Held(cs, k)
    requires OwnsC(cs[c]) && cs[c].pos == k ==> OwnsC(C) && C.pos == k
    ensures Held(cs[c := C], k)
  {
    var d :| 0 <= d < |cs| && OwnsC(cs[d]) && cs[d].pos == k;
    assert OwnsC(cs[c := C][d]) && cs[c := C][d].pos == k;
  }

  lemma PendingUpdate<T>(ps: seq<Producer<T>>, p: nat, P: Producer<T>, k: nat)
    requires p < |ps| && Pending(ps, k)
    requires OwnsP(ps[p]) && ps[p].pos == k ==> OwnsP(P) && P.pos == k
    ensures Pending(ps[p := P], k)
  {
    var q :| 0 <= q < |ps| && OwnsP(ps[q]) && ps[q].pos == k;
    assert OwnsP(ps[p := P][q]) && ps[p := P][q].pos == k;
  }

  /** Two queued tickets never share a cell. */
  lemma QueuedApart<T>(s: State<T>, j: nat, k: nat)
    requires Inv(s) && j != k && s.deq <= j < s.enq && s.deq <= k < s.enq
    ensures j % |s.cells| != k % |s.cells|
  {
    if j % |s.cells| == k % |s.cells| {
      if j < k {
        SameSlot(j, k, |s.cells|);
      } else {
        SameSlot(k, j, |s.cells|);
      }
    }
  }

  /** A consumer's cell is shared with no queued ticket. */
  lemma HeldApart<T>(s: State<T>, pos: nat, k: nat)
    requires Inv(s) && pos < s.deq <= k < s.enq && s.cells[pos % |s.cells|].seqno == pos + 1
    ensures pos % |s.cells| != k % |s.cells|
  {
    FilledAt(s, pos);
    if pos % |s.cells| == k % |s.cells| {
      SameSlot(pos, k, |s.cells|);
    }
  }

  lemma ProducerAccounted<T>(s: State<T>, a: Action<T>)
    requires Inv(s) && Accounted(s) && (a.Enqueue? || a.LoadEnq? || a.ProbeEnq? || a.CasEnq? || a.Write? || a.Publish?)
    ensures Accounted(Do(s, a))
  {
    var t, p := Do(s, a), a.p;
    if t != s {
      var P := t.producers[p];
      assert t.producers == s.producers[p := P];
      if a.Write? || a.Publish? {
        OpenAt(s, s.producers[p].pos);
      }
      forall k: nat | t.deq <= k < t.enq
        ensures Published(t, k) || Pending(t.producers, k)
      {
        if k == s.enq {
          assert OwnsP(t.producers[p]) && t.producers[p].pos == k;
        } else {
          assert Published(s, k) || Pending(s.producers, k);
          if OwnsP(s.producers[p]) && k != s.producers[p].pos {
            QueuedApart(s, s.producers[p].pos, k);
          }
          if !Published(t, k) {
            PendingUpdate(s.producers, p, P, k);
          }
        }
      }
    }
  }

  lemma ConsumerAccounted<T>(s: State<T>, a: Action<T>)
    requires Inv(s) && Accounted(s) && (a.Dequeue? || a.LoadDeq? || a.ProbeDeq? || a.CasDeq? || a.Read? || a.Release?)
    ensures Accounted(Do(s, a))
  {
    var t, c := Do(s, a), a.c;
    if t != s {
      var C := t.consumers[c];
      assert t.consumers == s.consumers[c := C];
      forall k: nat | k < t.deq
        ensures k in t.received || Held(t.consumers, k)
      {
        if k == s.deq {
          assert OwnsC(t.consumers[c]) && t.consumers[c].pos == k;
        } else if k !in t.received {
          HeldUpdate(s.consumers, c, C, k);
        }
      }
      forall k: nat | t.deq <= k < t.enq
        ensures Published(t, k) || Pending(t.producers, k)
      {
        assert Published(s, k) || Pending(s.producers, k);
        if a.Release? {
          HeldApart(s, s.consumers[c].pos, k);
        }
      }
    }
  }

  /** Under every interleaving: the invariant holds, and no ticket is unaccounted for. */
  lemma {:induction false} ExecSafe<T>(size: nat, producers: nat, consumers: nat, run: seq<Action<T>>)
    requires IsPow2(size) && size >= 2
    ensures var t := Exec(Init(size, producers, consumers), run); Inv(t) && Accounted(t)
    decreases |run|
  {
    hide CellsOk, ProducersOk, ConsumersOk, Faithful, Do, IsPow2;
    if run == [] {
      InitInv<T>(size, producers, consumers);
    } else {
      var front, a := run[..|run| - 1], run[|run| - 1];
      ExecSafe(size, producers, consumers, front);
      var s := Exec(Init(size, producers, consumers), front);
      DoKeeps(s, a);
      if a.Enqueue? || a.LoadEnq? || a.ProbeEnq? || a.CasEnq? || a.Write? || a.Publish? {
        ProducerAccounted(s, a);
      } else {
        ConsumerAccounted(s, a);
      }
    }
  }

  // ----- the queue is an inbox -----

  /** Claimed tickets not yet taken, in ticket order. */
  function Abs<T>(s: State<T>): Inbox<T>
    requires |s.cells| > 0 && s.deq <= s.enq == |s.sent|
  {
    seq(s.enq - s.deq, (j: nat) requires s.deq + j < |s.sent| => Slot(s.sent[s.deq + j], Published(s, s.deq + j)))
  }

  /** The two compare-and-swaps are the points where items enter and leave; a probe behind its ticket answers NULL. */
  function LabelOf<T>(s: State<T>, a: Action<T>): Label<T>
    requires Shaped(s)
  {
    match a
    case CasEnq(p, spurious) =>
      if p < |s.producers| && s.producers[p].PMatched? && s.enq == s.producers[p].pos && !spurious
      then Claim(s.producers[p].v) else Silent
    case Publish(p) =>
      if p < |s.producers| && s.producers[p].PWritten? && s.producers[p].pos >= s.deq
      then Ready(s.producers[p].pos - s.deq) else Silent
    case CasDeq(c, spurious) =>
      if c < |s.consumers| && s.consumers[c].CMatched? && s.deq == s.consumers[c].pos < |s.sent| && !spurious
      then Take(s.sent[s.deq]) else Silent
    case ProbeDeq(c) =>
      if c < |s.consumers| && s.consumers[c].CProbe? && Do(s, a).consumers[c].CIdle? then Nothing else Silent
    case _ => Silent
  }

  ghost predicate Counted<T>(s: State<T>)
  {
    |s.cells| > 0 && s.deq <= s.enq == |s.sent|
  }

  lemma AbsIs<T>(s: State<T>, q: Inbox<T>)
    requires Counted(s) && |q| == s.enq - s.deq
    requires forall j | 0 <= j < |q| :: q[j] == Slot(s.sent[s.deq + j], Published(s, s.deq + j))
    ensures Abs(s) == q
  {
  }

  lemma AbsAt<T>(s: State<T>)
    requires Counted(s)
    ensures |Abs(s)| == s.enq - s.deq
    ensures forall j | 0 <= j < |Abs(s)| :: Abs(s)[j] == Slot(s.sent[s.deq + j], Published(s, s.deq + j))
  {
  }

  lemma AbsSame<T>(s: State<T>, t: State<T>)
    requires Counted(s) && Counted(t) && s.enq == t.enq && s.deq == t.deq && s.sent == t.sent
    requires forall k: nat | s.deq <= k < s.enq :: Published(t, k) == Published(s, k)
    ensures Abs(t) == Abs(s)
  {
    AbsAt(s);
    AbsIs(t, Abs(s));
  }

  lemma PublishRefines<T>(s: State<T>, p: nat)
    requires Inv(s) && p < |s.producers| && s.producers[p].PWritten?
    ensures var pos := s.producers[p].pos;
      && s.deq <= pos < s.enq && !Published(s, pos)
      && Abs(Do(s, Publish(p))) == After(Abs(s), Ready(pos - s.deq))
  {
    hide CellsOk, ConsumersOk, Faithful, Abs;
    var pos, t := s.producers[p].pos, Do(s, Publish(p));
    OpenAt(s, pos);
    AbsAt(s);
    PublishFrame(s, p);
    hide Inv, Published, Do;
    var q := Abs(s)[pos - s.deq := Abs(s)[pos - s.deq].(ready := true)];
    AbsIs(t, q);
  }

  /** Publishing a ticket publishes it and no other. */
  lemma PublishFrame<T>(s: State<T>, p: nat)
    requires Inv(s) && p < |s.producers| && s.producers[p].PWritten?
    ensures var t := Do(s, Publish(p));
      && |t.cells| == |s.cells| && t.sent == s.sent && t.deq == s.deq && t.enq == s.enq
      && forall k: nat | s.deq <= k < s.enq :: Published(t, k) == (k == s.producers[p].pos || Published(s, k))
  {
    hide CellsOk, ConsumersOk, Faithful, Abs;
    var t := Do(s, Publish(p));
    OpenAt(s, s.producers[p].pos);
    forall k: nat | s.deq <= k < s.enq
      ensures Published(t, k) == (k == s.producers[p].pos || Published(s, k))
    {
      if k != s.producers[p].pos {
        QueuedApart(s, s.producers[p].pos, k);
      }
    }
  }

  lemma ReleaseRefines<T>(s: State<T>, c: nat)
    requires Inv(s) && c < |s.consumers| && s.consumers[c].CRead?
    ensures Abs(Do(s, Release(c))) == Abs(s)
  {
    hide CellsOk, ProducersOk, Faithful, Abs;
    var t := Do(s, Release(c));
    forall k: nat | s.deq <= k < s.enq
      ensures Published(t, k) == Published(s, k)
    {
      HeldApart(s, s.consumers[c].pos, k);
    }
    AbsSame(s, t);
  }

  lemma CasEnqRefines<T>(s: State<T>, p: nat)
    requires Inv(s) && p < |s.producers| && s.producers[p].PMatched? && s.enq == s.producers[p].pos
    ensures Abs(Do(s, CasEnq(p, false))) == Abs(s) + [Slot(s.producers[p].v, false)]
  {
    TailCell(s);
    hide CellsOk, ProducersOk, ConsumersOk, Faithful, Abs, IsPow2;
    var t := Do(s, CasEnq(p, false));
    AbsAt(s);
    assert forall k: nat | k < s.enq :: Published(t, k) == Published(s, k) && t.sent[k] == s.sent[k];
    AbsIs(t, Abs(s) + [Slot(s.producers[p].v, false)]);
  }

  lemma CasDeqRefines<T>(s: State<T>, c: nat)
    requires Inv(s) && c < |s.consumers| && s.consumers[c].CMatched? && s.deq == s.consumers[c].pos
    ensures s.deq < s.enq && Published(s, s.deq)
    ensures Abs(Do(s, CasDeq(c, false))) == Abs(s)[1..]
  {
    HeadCell(s);
    hide CellsOk, ProducersOk, Faithful, Abs, IsPow2;
    var t := Do(s, CasDeq(c, false));
    AbsAt(s);
    assert forall k: nat :: Published(t, k) == Published(s, k);
    AbsIs(t, Abs(s)[1..]);
  }

  /** NULL is answered exactly when the loaded ticket is still the head and the head is unpublished at the probe. */
  lemma NullExactly<T>(s: State<T>, c: nat)
    requires Inv(s) && c < |s.consumers| && s.consumers[c].CProbe?
    ensures Do(s, ProbeDeq(c)).consumers[c].CIdle?
            <==> s.consumers[c].pos == s.deq && !Published(s, s.deq)
  {
    HeadCell(s);
    if s.consumers[c].pos < s.deq {
      TakenCell(s, s.consumers[c].pos);
    }
  }

  ghost predicate RefinesStep<T>(s: State<T>, a: Action<T>)
    requires Inv(s)
  {
    var t := Do(s, a);
    Inv(t) && Legal(Abs(s), LabelOf(s, a)) && Abs(t) == After(Abs(s), LabelOf(s, a))
  }

  /** A step of a producer that touches no ticket: nothing claimed, nothing published. */
  lemma LocalRefines<T>(s: State<T>, a: Action<T>)
    requires Inv(s) && Inv(Do(s, a)) && (a.Enqueue? || a.LoadEnq? || a.ProbeEnq? || a.Write?)
    ensures RefinesStep(s, a)
  {
    hide CellsOk, ProducersOk, ConsumersOk, Faithful, IsPow2, Abs, CellOf;
    AbsSame(s, Do(s, a));
  }

  lemma ClaimRefines<T>(s: State<T>, p: nat, spurious: bool)
    requires Inv(s) && Inv(Do(s, CasEnq(p, spurious)))
    ensures RefinesStep(s, CasEnq(p, spurious))
  {
    hide CellsOk, ProducersOk, ConsumersOk, Faithful, IsPow2, Abs, CellOf;
    if LabelOf(s, CasEnq(p, spurious)).Claim? {
      CasEnqRefines(s, p);
    } else {
      AbsSame(s, Do(s, CasEnq(p, spurious)));
    }
  }

  lemma ReadyRefines<T>(s: State<T>, p: nat)
    requires Inv(s) && Inv(Do(s, Publish(p)))
    ensures RefinesStep(s, Publish(p))
  {
    hide CellsOk, ProducersOk, ConsumersOk, Faithful, IsPow2, Abs, CellOf;
    AbsAt(s);
    if p < |s.producers| && s.producers[p].PWritten? {
      PublishRefines(s, p);
    } else {
      AbsSame(s, Do(s, Publish(p)));
    }
  }

  lemma ProducerRefines<T>(s: State<T>, a: Action<T>)
    requires Inv(s) && (a.Enqueue? || a.LoadEnq? || a.ProbeEnq? || a.CasEnq? || a.Write? || a.Publish?)
    ensures RefinesStep(s, a)
  {
    DoKeeps(s, a);
    hide Inv, Do, RefinesStep, Abs;
    if a.CasEnq? {
      ClaimRefines(s, a.p, a.spurious);
    } else if a.Publish? {
      ReadyRefines(s, a.p);
    } else {
      LocalRefines(s, a);
    }
  }

  lemma CasRefines<T>(s: State<T>, c: nat, spurious: bool)
    requires Inv(s) && Inv(Do(s, CasDeq(c, spurious)))
    ensures RefinesStep(s, CasDeq(c, spurious))
  {
    hide CellsOk, ProducersOk, ConsumersOk, Faithful, IsPow2, Abs;
    AbsAt(s);
    if c < |s.consumers| && s.consumers[c].CMatched? && s.deq == s.consumers[c].pos && !spurious {
      CasDeqRefines(s, c);
    } else {
      AbsSame(s, Do(s, CasDeq(c, spurious)));
    }
  }

  lemma ProbeRefines<T>(s: State<T>, c: nat)
    requires Inv(s) && Inv(Do(s, ProbeDeq(c)))
    ensures RefinesStep(s, ProbeDeq(c))
  {
    hide CellsOk, ProducersOk, ConsumersOk, Faithful, IsPow2, Abs, CellOf;
    AbsAt(s);
    if LabelOf(s, ProbeDeq(c)).Nothing? {
      NullExactly(s, c);
    }
    AbsSame(s, Do(s, ProbeDeq(c)));
  }

  lemma FreeRefines<T>(s: State<T>, c: nat)
    requires Inv(s) && Inv(Do(s, Release(c)))
    ensures RefinesStep(s, Release(c))
  {
    hide CellsOk, ProducersOk, ConsumersOk, Faithful, IsPow2, Abs, CellOf;
    if c < |s.consumers| && s.consumers[c].CRead? {
      ReleaseRefines(s, c);
    } else {
      AbsSame(s, Do(s, Release(c)));
    }
  }

  lemma InnerRefines<T>(s: State<T>, a: Action<T>)
    requires Inv(s) && Inv(Do(s, a)) && (a.Dequeue? || a.LoadDeq? || a.Read?)
    ensures RefinesStep(s, a)
  {
    hide CellsOk, ProducersOk, ConsumersOk, Faithful, IsPow2, Abs, CellOf;
    AbsSame(s, Do(s, a));
  }

  lemma ConsumerRefines<T>(s: State<T>, a: Action<T>)
    requires Inv(s) && (a.Dequeue? || a.LoadDeq? || a.ProbeDeq? || a.CasDeq? || a.Read? || a.Release?)
    ensures RefinesStep(s, a)
  {
    DoKeeps(s, a);
    hide Inv, Do, RefinesStep, Abs;
    if a.CasDeq? {
      CasRefines(s, a.c, a.spurious);
    } else if a.Release? {
      FreeRefines(s, a.c);
    } else if a.ProbeDeq? {
      ProbeRefines(s, a.c);
    } else {
      InnerRefines(s, a);
    }
  }

  /** Each step is the step of the inbox that its label names. */
  lemma StepRefines<T>(s: State<T>, a: Action<T>)
    requires Inv(s)
    ensures Inv(Do(s, a)) && Legal(Abs(s), LabelOf(s, a)) && Abs(Do(s, a)) == After(Abs(s), LabelOf(s, a))
  {
    hide CellsOk, ProducersOk, ConsumersOk, Faithful, IsPow2, Abs, Do, LabelOf;
    if a.Enqueue? || a.LoadEnq? || a.ProbeEnq? || a.CasEnq? || a.Write? || a.Publish? {
      ProducerRefines(s, a);
    } else {
      ConsumerRefines(s, a);
    }
  }

  function Trace<T>(s: State<T>, run: seq<Action<T>>): seq<Label<T>>
    requires Shaped(s)
  {
    if run == [] then [] else Trace(s, run[..|run| - 1]) + [LabelOf(Exec(s, run[..|run| - 1]), run[|run| - 1])]
  }

  lemma {:induction false} TraceLegal<T>(s: State<T>, run: seq<Action<T>>)
    requires Inv(s)
    ensures Inv(Exec(s, run)) && AllLegal(Abs(s), Trace(s, run)) && Abs(Exec(s, run)) == AfterAll(Abs(s), Trace(s, run))
    decreases |run|
  {
    hide CellsOk, ProducersOk, ConsumersOk, Faithful, Abs, Do, LabelOf, IsPow2;
    if run != [] {
      var front, a := run[..|run| - 1], run[|run| - 1];
      TraceLegal(s, front);
      StepRefines(Exec(s, front), a);
      Extend(Abs(s), Trace(s, front), LabelOf(Exec(s, front), a));
    }
  }

  /** Every interleaving is a behaviour of the FIFO inbox: items leave in the order they entered, none lost or
      doubled. */
  lemma ExecRefines<T>(size: nat, producers: nat, consumers: nat, run: seq<Action<T>>)
    requires IsPow2(size) && size >= 2
    ensures var s := Init<T>(size, producers, consumers);
      var t := Exec(s, run);
      && Inv(t) && AllLegal([], Trace(s, run)) && Abs(t) == AfterAll([], Trace(s, run))
      && Claimed(Trace(s, run)) == Taken(Trace(s, run)) + Items(Abs(t))
  {
    var s := Init<T>(size, producers, consumers);
    InitInv<T>(size, producers, consumers);
    TraceLegal(s, run);
    assert Abs(s) == [];
    FirstInFirstOut(Trace(s, run));
  }

  /** When a producer writes its item, the item a lap earlier in the same cell has been received. */
  lemma NoOverwrite<T>(s: State<T>, p: nat)
    requires Inv(s) && Accounted(s) && p < |s.producers| && s.producers[p].PClaimed?
    ensures s.producers[p].pos >= |s.cells| ==> s.producers[p].pos - |s.cells| in s.received
  {
    var pos, n := s.producers[p].pos, |s.cells|;
    if pos >= n {
      var k := pos - n;
      LapSlot(k, n);
      OpenAt(s, pos);
      assert k in s.received || Held(s.consumers, k);
    }
  }

  /** No cell's `seq` ever goes back. */
  lemma SeqGrows<T>(s: State<T>, a: Action<T>, i: nat)
    requires Inv(s) && i < |s.cells|
    ensures Do(s, a).cells[i].seqno >= s.cells[i].seqno
  {
  }

  /** Any two threads between their compare-and-swap and their store of `seq` own different cells. */
  lemma OwnersApart<T>(s: State<T>)
    requires Inv(s)
    ensures forall p, q | 0 <= p < |s.producers| && 0 <= q < |s.producers| && p != q && OwnsP(s.producers[p])
            && OwnsP(s.producers[q])
              :: s.producers[p].pos % |s.cells| != s.producers[q].pos % |s.cells|
    ensures forall c, d | 0 <= c < |s.consumers| && 0 <= d < |s.consumers| && c != d && OwnsC(s.consumers[c])
            && OwnsC(s.consumers[d])
              :: s.consumers[c].pos % |s.cells| != s.consumers[d].pos % |s.cells|
    ensures forall p, c | 0 <= p < |s.producers| && 0 <= c < |s.consumers| && OwnsP(s.producers[p])
            && OwnsC(s.consumers[c])
              :: s.producers[p].pos % |s.cells| != s.consumers[c].pos % |s.cells|
  {
    hide CellsOk, Faithful, IsPow2;
    forall p, c | 0 <= p < |s.producers| && 0 <= c < |s.consumers| && OwnsP(s.producers[p]) && OwnsC(s.consumers[c])
      ensures s.producers[p].pos % |s.cells| != s.consumers[c].pos % |s.cells|
    {
      assert ProducerOk(s.cells, s.sent, s.producers[p])
          && ConsumerOk(s.cells, s.deq, s.sent, s.received, s.consumers[c]);
      Neighbours(s.consumers[c].pos, |s.cells|);
    }
  }

  // ----- where the guarantees end -----

  lemma ExecStep<T>(s: State<T>, run: seq<Action<T>>, a: Action<T>, t: State<T>)
    requires Shaped(s) && Do(Exec(s, run), a) == t
    ensures Exec(s, run + [a]) == t
  {
    assert (run + [a])[..|run|] == run;
  }

  lemma Then(s: State<nat>, run: seq<Action<nat>>, t: State<nat>, a: Action<nat>, u: State<nat>)
    returns (more: seq<Action<nat>>, v: State<nat>)
    requires Shaped(s) && Exec(s, run) == t && Do(t, a) == u
    ensures more == run + [a] && v == u && Exec(s, more) == v
  {
    ExecStep(s, run, a, u);
    more, v := run + [a], u;
  }

  /** An idle producer gets hold of the next ticket, whose cell is free. */
  lemma ClaimAlone(s: State<nat>, run: seq<Action<nat>>, p: nat, v: nat) returns (more: seq<Action<nat>>)
    requires Shaped(s) && p < |Exec(s, run).producers|
    requires var t := Exec(s, run); t.producers[p].PIdle? && t.cells[CellOf(t, t.enq)].seqno == t.enq
    ensures var t := Exec(s, run);
      Exec(s, more) == t.(enq := t.enq + 1, sent := t.sent + [v], producers := t.producers[p := PClaimed(v, t.enq)])
  {
    var t := Exec(s, run);
    hide CellOf, BitAnd, Exec;
    var ps, e := t.producers, t.enq;
    var r1, t1 := Then(s, run, t, Enqueue(p, v), t.(producers := ps[p := PStart(v)]));
    var r2, t2 := Then(s, r1, t1, LoadEnq(p), t.(producers := ps[p := PProbe(v, e)]));
    var r3, t3 := Then(s, r2, t2, ProbeEnq(p), t.(producers := ps[p := PMatched(v, e)]));
    var u := t.(enq := e + 1, sent := t.sent + [v], producers := ps[p := PClaimed(v, e)]);
    var r4, t4 := Then(s, r3, t3, CasEnq(p, false), u);
    more := r4;
  }

  lemma WriteAlone(s: State<nat>, run: seq<Action<nat>>, t: State<nat>, v: nat, e: nat) returns (more: seq<Action<nat>>)
    requires Shaped(s) && Exec(s, run) == t && t.mask == 0 && t.producers == [PClaimed(v, e)] && t.cells[0].seqno == e
    ensures Exec(s, more) == t.(cells := [Cell(e + 1, Some(v))], producers := [PIdle])
  {
    hide Exec, CellOf, BitAnd, IsPow2;
    var r1, u := Then(s, run, t, Write(0), t.(cells := [Cell(e, Some(v))], producers := [PWritten(v, e)]));
    var r2, w := Then(s, r1, u, Publish(0), u.(cells := [Cell(e + 1, Some(v))], producers := [PIdle]));
    more := r2;
  }

  /** One whole enqueue on a one-cell queue whose cell stands at the next ticket. */
  lemma EnqueueAlone(s: State<nat>, run: seq<Action<nat>>, v: nat) returns (more: seq<Action<nat>>)
    requires Shaped(s)
    requires var t := Exec(s, run); t.mask == 0 && t.producers == [PIdle] && t.cells[0].seqno == t.enq
    ensures var t := Exec(s, run);
      Exec(s, more) == t.(cells := [Cell(t.enq + 1, Some(v))], enq := t.enq + 1, sent := t.sent + [v])
  {
    hide Exec, CellOf, BitAnd, IsPow2;
    var e := Exec(s, run).enq;
    var r1 := ClaimAlone(s, run, 0, v);
    more := WriteAlone(s, r1, Exec(s, r1), v, e);
  }

  /** With a single cell, neighbouring tickets share their seq values: a second enqueue overwrites an item that was
      never dequeued. Two cells are the least size for which the queue works. */
  lemma SizeOneLoses() returns (run: seq<Action<nat>>)
    ensures var t := Exec(Init<nat>(1, 1, 1), run);
      t.sent == [7, 8] && t.deq == 0 && t.received == map[] && t.cells == [Cell(2, Some(8))]
  {
    var s := Init<nat>(1, 1, 1);
    assert Exec(s, []) == s;
    var r := EnqueueAlone(s, [], 7);
    run := EnqueueAlone(s, r, 8);
  }

  /** Two producers claim the first two tickets; the second one publishes, the first stalls. */
  lemma StalledRun() returns (run: seq<Action<nat>>)
    ensures Exec(Init<nat>(2, 2, 1), run)
            == State(1, [Cell(0, None), Cell(2, Some(8))], 2, 0, [PClaimed(7, 0), PIdle], [CIdle], [7, 8], map[])
  {
    var s := Init<nat>(2, 2, 1);
    assert Exec(s, []) == s && Shaped(s);
    hide BitAnd, IsPow2, CellOf;
    assert CellOf(s, 0) == 0;
    var claimed := ClaimAlone(s, [], 0, 7);
    var t := Exec(s, claimed);
    assert CellOf(t, 1) == 1;
    run := ClaimAlone(s, claimed, 1, 8);
    t := Exec(s, run);
    run, t := PublishAlone(s, run, t);
  }

  /** A dequeue may answer NULL although an item was completely enqueued before it began: the head ticket is claimed
      and not yet published, exactly the case of `NullExactly`. */
  lemma NullDespiteItem() returns (run: seq<Action<nat>>)
    ensures var t := Exec(Init<nat>(2, 2, 1), run);
      Counted(t) && Abs(t) == [Slot(7, false), Slot(8, true)] && t.consumers == [CIdle]
    ensures var t := Exec(Init<nat>(2, 2, 1), run + [Dequeue(0)] + [LoadDeq(0)]);
      t.consumers == [CProbe(0)] && LabelOf(t, ProbeDeq(0)) == Nothing
  {
    run := StalledRun();
    var s := Init<nat>(2, 2, 1);
    var t := Exec(s, run);
    StalledQueue(t);
    hide Exec, Abs, BitAnd, IsPow2;
    var r1, t1 := Then(s, run, t, Dequeue(0), t.(consumers := [CStart]));
    var r2, t2 := Then(s, r1, t1, LoadDeq(0), t1.(consumers := [CProbe(0)]));
  }

  lemma PublishAlone(s: State<nat>, run: seq<Action<nat>>, t: State<nat>)
    returns (more: seq<Action<nat>>, u: State<nat>)
    requires Shaped(s) && Exec(s, run) == t && |t.cells| == 2 && t.producers == [PClaimed(7, 0), PClaimed(8, 1)]
    ensures u == t.(cells := [t.cells[0], Cell(2, Some(8))], producers := [PClaimed(7, 0), PIdle]) == Exec(s, more)
  {
    assert CellOf(t, 1) == 1;
    hide Exec, BitAnd;
    var r1, t1 := Then(s, run, t, Write(1),
                       t.(cells := [t.cells[0], Cell(t.cells[1].seqno, Some(8))],
                           producers := [PClaimed(7, 0), PWritten(8, 1)]));
    more, u := Then(s, r1, t1, Publish(1),
        t.(cells := [t.cells[0], Cell(2, Some(8))], producers := [PClaimed(7, 0), PIdle]));
  }

  lemma StalledQueue(t: State<nat>)
    requires Shaped(t) && t.cells == [Cell(0, None), Cell(2, Some(8))] && t.deq == 0 && t.enq == 2 && t.sent == [7, 8]
    ensures Abs(t) == [Slot(7, false), Slot(8, true)]
    ensures forall u: State<nat> | Shaped(u) && u.cells == t.cells && u.consumers == [CProbe(0)]
            :: LabelOf(u, ProbeDeq(0)) == Nothing
  {
    assert !Published(t, 0) && Published(t, 1);
    forall u: State<nat> | Shaped(u) && u.cells == t.cells && u.consumers == [CProbe(0)]
      ensures LabelOf(u, ProbeDeq(0)) == Nothing
    {
      assert CellOf(u, 0) == 0;
    }
  }
}
