/** What a message queue promises its reactor: a FIFO whose head may be claimed but not yet published. */
module Inboxes {

  datatype Slot<T> = Slot(item: T, ready: bool)

  type Inbox<T> = seq<Slot<T>>

  datatype Label<T> =
    | Claim(item: T)     // a sender takes the next place
    | Ready(place: nat)  // a sender publishes its item
    | Take(got: T)       // the reader removes the head
    | Nothing            // the reader is told there is no item
    | Silent

  /** The head can be taken once published; until then the reader is told there is nothing. */
  predicate Legal<T(==)>(q: Inbox<T>, l: Label<T>)
  {
    match l
    case Ready(j) => j < |q| && !q[j].ready
    case Take(x) => q != [] && q[0] == Slot(x, true)
    case Nothing => q == [] || !q[0].ready
    case _ => true
  }

  function After<T>(q: Inbox<T>, l: Label<T>): Inbox<T>
  {
    match l
    case Claim(x) => q + [Slot(x, false)]
    case Ready(j) => if j < |q| then q[j := q[j].(ready := true)] else q
    case Take(_) => if q == [] then q else q[1..]
    case _ => q
  }

  function AfterAll<T>(q: Inbox<T>, ls: seq<Label<T>>): Inbox<T>
  {
    if ls == [] then q else After(AfterAll(q, ls[..|ls| - 1]), ls[|ls| - 1])
  }

  predicate AllLegal<T(==)>(q: Inbox<T>, ls: seq<Label<T>>)
  {
    ls == [] || (AllLegal(q, ls[..|ls| - 1]) && Legal(AfterAll(q, ls[..|ls| - 1]), ls[|ls| - 1]))
  }

  lemma Extend<T>(q: Inbox<T>, ls: seq<Label<T>>, l: Label<T>)
    ensures AfterAll(q, ls + [l]) == After(AfterAll(q, ls), l)
    ensures AllLegal(q, ls + [l]) <==> AllLegal(q, ls) && Legal(AfterAll(q, ls), l)
  {
    assert (ls + [l])[..|ls|] == ls;
  }

  function Claimed<T>(ls: seq<Label<T>>): seq<T>
  {
    if ls == [] then [] else Claimed(ls[..|ls| - 1]) + if ls[|ls| - 1].Claim? then [ls[|ls| - 1].item] else []
  }

  function Taken<T>(ls: seq<Label<T>>): seq<T>
  {
    if ls == [] then [] else Taken(ls[..|ls| - 1]) + if ls[|ls| - 1].Take? then [ls[|ls| - 1].got] else []
  }

  function Items<T>(q: Inbox<T>): seq<T>
  {
    seq(|q|, (i: nat) requires i < |q| => q[i].item)
  }

  lemma ItemsAfter<T>(q: Inbox<T>, l: Label<T>)
    ensures Items(After(q, l)) == match l
      case Claim(x) => Items(q) + [x]
      case Take(_) => if q == [] then [] else Items(q)[1..]
      case _ => Items(q)
  {
    var r := After(q, l);
    match l
    case Claim(x) => assert Items(r) == Items(q) + [x];
    case Ready(j) => assert Items(r) == Items(q);
    case Take(_) => assert q != [] ==> Items(r) == Items(q)[1..];
    case _ =>
  }

  /** First in, first out: what was taken, followed by what is left, is what was claimed. */
  lemma {:induction false} FirstInFirstOut<T>(ls: seq<Label<T>>)
    requires AllLegal([], ls)
    ensures Claimed(ls) == Taken(ls) + Items(AfterAll([], ls))
  {
    if ls != [] {
      var front, l := ls[..|ls| - 1], ls[|ls| - 1];
      FirstInFirstOut(front);
      var m := AfterAll([], front);
      ItemsAfter(m, l);
    }
  }
}
