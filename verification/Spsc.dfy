/** The single-producer single-consumer ring, stepped at each atomic load and store. */
module Spsc {
  import opened Bits

  /** Where the producer stands inside spscq_enqueue; the load of head sends it back to idle when the ring is full. */
  datatype Producer<T> =
    | PIdle
    | PLoaded(v: T, tail: nat)      // about to load head
    | PFree(v: T, tail: nat)        // about to write the slot
    | PWritten(v: T, tail: nat)     // about to store tail

  datatype Consumer<T> =
    | CIdle
    | CLoaded(head: nat)            // about to load tail
    | CReady(head: nat)             // about to read the slot
    | CRead(head: nat, v: T)        // about to store head

  /** The ring with its two indices, and the history of items stored and taken. */
  datatype State<T> = State(buffer: seq<Option<T>>, head: nat, tail: nat, producer: Producer<T>, consumer: Consumer<T>,
                            sent: seq<T>, taken: seq<T>)

  datatype Action<T> = Enqueue(v: T) | LoadHead | Write | StoreTail | Dequeue | LoadTail | Read | StoreHead

  function Init<T>(size: nat): State<T>
  {
    State(seq(size, _ => None), 0, 0, PIdle, CIdle, [], [])
  }

  function Bump(i: nat, size: nat): nat
  {
    if i + 1 == size then 0 else i + 1
  }

  function Do<T(==)>(s: State<T>, a: Action<T>): State<T>
  {
    var n := |s.buffer|;
    match a
    case Enqueue(v) => if s.producer.PIdle? then s.(producer := PLoaded(v, s.tail)) else s
    case LoadHead =>
      if s.producer.PLoaded? then
        s.(producer := if Bump(s.producer.tail, n) == s.head then PIdle else PFree(s.producer.v, s.producer.tail))
      else s
    case Write =>
      if s.producer.PFree? && s.producer.tail < n then
        s.(buffer := s.buffer[s.producer.tail := Some(s.producer.v)],
            producer := PWritten(s.producer.v, s.producer.tail))
      else s
    case StoreTail =>
      if s.producer.PWritten?
      then s.(tail := Bump(s.producer.tail, n), producer := PIdle, sent := s.sent + [s.producer.v]) else s
    case Dequeue => if s.consumer.CIdle? then s.(consumer := CLoaded(s.head)) else s
    case LoadTail =>
      if s.consumer.CLoaded?
      then s.(consumer := if s.consumer.head == s.tail then CIdle else CReady(s.consumer.head)) else s
    case Read =>
      if s.consumer.CReady? && s.consumer.head < n && s.buffer[s.consumer.head].Some? then
        s.(consumer := CRead(s.consumer.head, s.buffer[s.consumer.head].value))
      else s
    case StoreHead =>
      if s.consumer.CRead?
      then s.(head := Bump(s.consumer.head, n), consumer := CIdle, taken := s.taken + [s.consumer.v]) else s
  }

  function Exec<T(==)>(s: State<T>, run: seq<Action<T>>): State<T>
  {
    if run == [] then s else Do(Exec(s, run[..|run| - 1]), run[|run| - 1])
  }

  /** Items stored and not yet taken. */
  function Queue<T>(s: State<T>): seq<T>
    requires |s.taken| <= |s.sent|
  {
    s.sent[|s.taken|..]
  }

  /** The indices are the counts of items stored and taken, reduced to the ring; at most size - 1 items are inside. */
  ghost predicate Counts<T>(s: State<T>)
  {
    && |s.buffer| > 0
    && |s.taken| <= |s.sent| < |s.taken| + |s.buffer|
    && s.head == |s.taken| % |s.buffer| && s.tail == |s.sent| % |s.buffer|
    && s.taken == s.sent[..|s.taken|]
  }

  ghost predicate Inv<T>(s: State<T>)
  {
    && Counts(s)
    && (forall k {:trigger s.sent[k]} | |s.taken| <= k < |s.sent| :: s.buffer[k % |s.buffer|] == Some(s.sent[k]))
    && (!s.producer.PIdle? ==> s.producer.tail == s.tail)
    && (s.producer.PFree? || s.producer.PWritten? ==> |s.sent| + 1 < |s.taken| + |s.buffer|)
    && (s.producer.PWritten? ==> s.buffer[s.tail] == Some(s.producer.v))
    && (!s.consumer.CIdle? ==> s.consumer.head == s.head)
    && (s.consumer.CReady? || s.consumer.CRead? ==> |s.taken| < |s.sent|)
    && (s.consumer.CRead? ==> s.consumer.v == s.sent[|s.taken|])
  }

  lemma BumpIsMod(k: nat, n: nat)
    requires n > 0
    ensures Bump(k % n, n) == (k + 1) % n
  {
    assert k == n * (k / n) + k % n;
    var last := k % n + 1 == n;
    ModUnique(k + 1, n, if last then k / n + 1 else k / n, Bump(k % n, n));
  }

  /** The comparisons of indices decide exactly emptiness and fullness. */
  lemma Tests<T>(s: State<T>)
    requires Counts(s)
    ensures s.head == s.tail <==> Queue(s) == []
    ensures Bump(s.tail, |s.buffer|) == s.head <==> |Queue(s)| == |s.buffer| - 1
  {
    var n, h, t := |s.buffer|, |s.taken|, |s.sent|;
    if s.head == s.tail && h < t {
      SameSlot(h, t, n);
    }
    BumpIsMod(t, n);
    ModUnique(h + n, n, h / n + 1, h % n);
    if (t + 1) % n == h % n && t + 1 < h + n {
      SameSlot(t + 1, h + n, n);
    }
  }

  lemma WriteKeeps<T>(s: State<T>)
    requires Inv(s) && s.producer.PFree?
    ensures Inv(Do(s, Write))
  {
    var t, n := Do(s, Write), |s.buffer|;
    forall k | |t.taken| <= k < |t.sent|
      ensures t.buffer[k % n] == Some(t.sent[k])
    {
      if k % n == s.tail {
        SameSlot(k, |s.sent|, n);
      }
      assert s.buffer[k % n] == Some(s.sent[k]);
    }
  }

  lemma StoreTailKeeps<T>(s: State<T>)
    requires Inv(s) && s.producer.PWritten?
    ensures Inv(Do(s, StoreTail))
  {
    var t, n := Do(s, StoreTail), |s.buffer|;
    BumpIsMod(|s.sent|, n);
    forall k | |t.taken| <= k < |t.sent|
      ensures t.buffer[k % n] == Some(t.sent[k])
    {
      assert k < |s.sent| ==> s.buffer[k % n] == Some(s.sent[k]);
    }
  }

  lemma StoreHeadKeeps<T>(s: State<T>)
    requires Inv(s) && s.consumer.CRead?
    ensures Inv(Do(s, StoreHead))
  {
    BumpIsMod(|s.taken|, |s.buffer|);
  }

  /** The invariant holds after every step; a stale load of the other side's index is always safe. */
  lemma DoKeeps<T>(s: State<T>, a: Action<T>)
    requires Inv(s)
    ensures Inv(Do(s, a))
  {
    Tests(s);
    match a
    case Write => if s.producer.PFree? { WriteKeeps(s); }
    case StoreTail => if s.producer.PWritten? { StoreTailKeeps(s); }
    case StoreHead => if s.consumer.CRead? { StoreHeadKeeps(s); }
    case Read => assert s.consumer.CReady? ==> s.buffer[|s.taken| % |s.buffer|] == Some(s.sent[|s.taken|]);
    case _ =>
  }

  lemma {:induction false} ExecKeeps<T>(size: nat, run: seq<Action<T>>)
    requires size > 0
    ensures Inv(Exec(Init(size), run))
    decreases |run|
  {
    if run == [] {
      ModUnique(0, size, 0, 0);
    } else {
      ExecKeeps(size, run[..|run| - 1]);
      DoKeeps(Exec(Init(size), run[..|run| - 1]), run[|run| - 1]);
    }
  }

  /** A FIFO of capacity size - 1: the stores of the indices are where items enter and leave; "full" and NULL are
      answered exactly when the queue is full or empty at the load that decides them; nothing else changes it. */
  lemma StepRefines<T>(s: State<T>, a: Action<T>)
    requires Inv(s)
    ensures Inv(Do(s, a)) && |Queue(s)| <= |s.buffer| - 1
    ensures var q, r := Queue(s), Queue(Do(s, a));
      match a
      case StoreTail => if s.producer.PWritten? then r == q + [s.producer.v] else r == q
      case StoreHead => if s.consumer.CRead? then q != [] && s.consumer.v == q[0] && r == q[1..] else r == q
      case LoadHead => r == q && (s.producer.PLoaded? ==> (Do(s, a).producer.PIdle? <==> |q| == |s.buffer| - 1))
      case LoadTail => r == q && (s.consumer.CLoaded? ==> (Do(s, a).consumer.CIdle? <==> q == []))
      case _ => r == q
  {
    DoKeeps(s, a);
    Tests(s);
  }

  /** No slot is written while it is read, and no slot still to be read is overwritten. */
  lemma SlotsApart<T>(s: State<T>)
    requires Inv(s) && s.producer.PFree?
    ensures forall k | |s.taken| <= k < |s.sent| :: s.producer.tail != k % |s.buffer|
    ensures s.consumer.CReady? || s.consumer.CRead? ==> s.producer.tail != s.consumer.head
  {
    forall k | |s.taken| <= k < |s.sent|
      ensures s.producer.tail != k % |s.buffer|
    {
      if s.producer.tail == k % |s.buffer| {
        SameSlot(k, |s.sent|, |s.buffer|);
      }
    }
  }

  /** Whatever the interleaving, the items taken are the first items stored, in order. */
  lemma TakenInOrder<T>(size: nat, run: seq<Action<T>>)
    requires size > 0
    ensures var t := Exec(Init<T>(size), run);
      Inv(t) && t.sent == t.taken + Queue(t) && |Queue(t)| < size && |t.buffer| == size
  {
    ExecKeeps(size, run);
    SizeStays(size, run);
  }

  lemma {:induction false} SizeStays<T>(size: nat, run: seq<Action<T>>)
    ensures |Exec(Init<T>(size), run).buffer| == size
    decreases |run|
  {
    if run != [] {
      SizeStays<T>(size, run[..|run| - 1]);
    }
  }

  // ----- whole calls, alone -----

  /** spscq_enqueue with room: four accesses, and the item is behind the others. */
  lemma EnqueueAlone<T>(s: State<T>, v: T)
    requires Inv(s) && s.producer.PIdle? && |Queue(s)| < |s.buffer| - 1
    ensures var t := Do(Do(Do(Do(s, Enqueue(v)), LoadHead), Write), StoreTail);
      && Inv(t) && Queue(t) == Queue(s) + [v] && t.sent == s.sent + [v] && t.taken == s.taken
      && t.producer.PIdle? && t.consumer == s.consumer
  {
    var s1 := Do(s, Enqueue(v));
    StepRefines(s, Enqueue(v));
    var s2 := Do(s1, LoadHead);
    StepRefines(s1, LoadHead);
    var s3 := Do(s2, Write);
    StepRefines(s2, Write);
    WriteMoves(s2);
    StepRefines(s3, StoreTail);
    hide Inv, Queue, Bump;
  }

  lemma WriteMoves<T>(s: State<T>)
    requires Inv(s) && s.producer.PFree?
    ensures var t := Do(s, Write);
      t == s.(buffer := t.buffer, producer := PWritten(s.producer.v, s.producer.tail)) && |t.buffer| == |s.buffer|
  {
    BumpIsMod(|s.sent|, |s.buffer|);
  }

  /** With the ring full it returns false after two, and nothing has changed. */
  lemma FullAlone<T>(s: State<T>, v: T)
    requires Inv(s) && s.producer.PIdle? && |Queue(s)| == |s.buffer| - 1
    ensures Do(Do(s, Enqueue(v)), LoadHead) == s
  {
    Tests(s);
  }

  /** spscq_dequeue of a ring that is not empty: four accesses, and the first item is returned. */
  lemma DequeueAlone<T>(s: State<T>)
    requires Inv(s) && s.consumer.CIdle? && Queue(s) != []
    ensures var t := Do(Do(Do(Do(s, Dequeue), LoadTail), Read), StoreHead);
      && Inv(t) && Queue(t) == Queue(s)[1..] && t.taken == s.taken + [Queue(s)[0]] && t.sent == s.sent
      && t.consumer.CIdle? && t.producer == s.producer
  {
    var s1 := Do(s, Dequeue);
    StepRefines(s, Dequeue);
    var s2 := Do(s1, LoadTail);
    StepRefines(s1, LoadTail);
    var s3 := Do(s2, Read);
    StepRefines(s2, Read);
    ReadMoves(s2);
    StepRefines(s3, StoreHead);
    hide Inv, Queue, Bump;
  }

  lemma ReadMoves<T>(s: State<T>)
    requires Inv(s) && s.consumer.CReady?
    ensures Queue(s) != [] && Do(s, Read) == s.(consumer := CRead(s.consumer.head, Queue(s)[0]))
  {
    assert s.buffer[|s.taken| % |s.buffer|] == Some(s.sent[|s.taken|]);
  }

  /** With the ring empty it returns NULL after two, and nothing has changed. */
  lemma EmptyAlone<T>(s: State<T>)
    requires Inv(s) && s.consumer.CIdle? && Queue(s) == []
    ensures Do(Do(s, Dequeue), LoadTail) == s
  {
    Tests(s);
  }
}
