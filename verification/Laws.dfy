/** What a client sees of the keyed commands: laws between replies, first on one map, then over whole runs of the
    server. */
module Laws {
  import opened Bits
  import opened Counter
  import opened Commands
  import opened Reactors
  import opened Dispatch
  import opened Servers

  // ----- one command after another -----

  lemma GetAfterSet(m: Map, k: Bytes, v: Bytes)
    ensures ReplyTo(Apply(m, Set(k, v)), Get(k)) == Bulk(v) && ReplyTo(m, Set(k, v)) == Status
  {
  }

  lemma GetAfterDel(m: Map, k: Bytes)
    ensures ReplyTo(Apply(m, Del(k)), Get(k)) == NullBulk && ReplyTo(map[], Get(k)) == NullBulk
  {
  }

  lemma GetChangesNothing(m: Map, k: Bytes)
    ensures Apply(m, Get(k)) == m && (ReplyTo(m, Get(k)).Bulk? || ReplyTo(m, Get(k)) == NullBulk)
  {
  }

  /** DEL tells whether GET would have found the key. */
  lemma DelTells(m: Map, k: Bytes)
    ensures ReplyTo(m, Del(k)) == Integer(if ReplyTo(m, Get(k)).Bulk? then 1 else 0)
  {
  }

  /** A counter command leaves the decimal of its reply, except on a value that is no numeral, which it leaves alone. */
  lemma GetAfterAdd(m: Map, k: Bytes, d: int, pad: byte)
    ensures ReplyTo(m, Add(k, d, pad)).Integer?
    ensures var before, after := ReplyTo(m, Get(k)), ReplyTo(Apply(m, Add(k, d, pad)), Get(k));
      if before.Bulk? && !Numeral(before.data + [pad], |before.data|)
      then after == before && ReplyTo(m, Add(k, d, pad)) == Integer(0)
      else after == Bulk(Print(ReplyTo(m, Add(k, d, pad)).v))
  {
  }

  /** What a counter command answers on a key under which the text lies, if any: a missing key counts as 0, a text that
      is no numeral is answered with 0. */
  function Counted(seen: Reply, d: int, pad: byte): Reply
  {
    if !seen.Bulk? then Integer(Wrap(d))
    else if Numeral(seen.data + [pad], |seen.data|) then Integer(Wrap(Denotes(seen.data + [pad], |seen.data|) + d))
    else Integer(0)
  }

  /** It answers what GET would have shown, as a number, plus the delta. */
  lemma AddAfterGet(m: Map, k: Bytes, d: int, pad: byte)
    ensures ReplyTo(m, Add(k, d, pad)) == Counted(ReplyTo(m, Get(k)), d, pad)
  {
    if k in m && Numeral(m[k] + [pad], |m[k]|) {
      WrapLinear(Denotes(m[k] + [pad], |m[k]|), 1, d);
    }
  }

  /** On a text of digits, signed or not, that is plain addition; only '-' makes it a subtraction. */
  lemma AddToText(m: Map, k: Bytes, t: Bytes, d: int, pad: byte)
    requires AllDigits(t) && t != []
    ensures ReplyTo(Apply(m, Set(k, t)), Add(k, d, pad)) == Integer(Wrap(Value(t) + d))
    ensures ReplyTo(Apply(m, Set(k, [43] + t)), Add(k, d, pad)) == Integer(Wrap(Value(t) + d))
    ensures ReplyTo(Apply(m, Set(k, [45] + t)), Add(k, d, pad)) == Integer(Wrap(-Value(t) + d))
  {
    hide ReplyTo, Apply, Numeral, Denotes, Wrap, Value;
    SignedTexts(t, [pad]);
    forall text | text in [t, [43] + t, [45] + t]
      ensures ReplyTo(Apply(m, Set(k, text)), Add(k, d, pad)) == Counted(Bulk(text), d, pad)
    {
      GetAfterSet(m, k, text);
      AddAfterGet(Apply(m, Set(k, text)), k, d, pad);
    }
    assert t in [t, [43] + t, [45] + t] && [43] + t in [t, [43] + t, [45] + t] && [45] + t in [t, [43] + t, [45] + t];
  }

  // ----- over a history -----

  /** From entry `j` on, up to entry `i`, key `k` is only read. */
  ghost predicate OnlyRead(hist: seq<Done>, j: nat, i: nat, k: Bytes)
    requires i <= |hist|
  {
    forall x | j <= x < i && hist[x].cmd.key == k :: hist[x].cmd.Get?
  }

  /** Then it is bound at `i` as it was at `j`. */
  lemma {:induction false} StillBound(hist: seq<Done>, j: nat, i: nat, k: Bytes)
    requires j <= i <= |hist| && OnlyRead(hist, j, i, k)
    ensures var m, n := Serial(hist[..j]), Serial(hist[..i]);
      (k in m <==> k in n) && (k in m ==> m[k] == n[k])
    decreases i - j
  {
    hide Apply, ReplyTo;
    if j < i {
      StillBound(hist, j, i - 1, k);
      SerialNext(hist, i - 1);
      var m, c := Serial(hist[..i - 1]), hist[i - 1].cmd;
      Local(m, m, c);
      GetChangesNothing(m, k);
    }
  }

  lemma SerialNext(hist: seq<Done>, i: nat)
    requires i < |hist|
    ensures Serial(hist[..i + 1]) == Apply(Serial(hist[..i]), hist[i].cmd) && Serial(hist[..0]) == map[]
  {
    hide Apply;
    assert hist[..i + 1][..i] == hist[..i];
  }

  lemma SameBinding(m: Map, n: Map, c: Cmd)
    requires c.key in m <==> c.key in n
    requires c.key in m ==> m[c.key] == n[c.key]
    ensures ReplyTo(m, c) == ReplyTo(n, c)
  {
    Local(m, n, c);
  }

  /** Every reply of the history is that of the map. */
  ghost predicate Honest(hist: seq<Done>)
  {
    forall i | 0 <= i < |hist| :: hist[i].reply == ReplyTo(Serial(hist[..i]), hist[i].cmd)
  }

  /** The last write of `k` before entry `i` is entry `j`. */
  ghost predicate LastWrite(hist: seq<Done>, j: nat, i: nat, k: Bytes)
    requires i <= |hist|
  {
    j < i && hist[j].cmd.key == k && !hist[j].cmd.Get? && OnlyRead(hist, j + 1, i, k)
  }

  /** What GET of `k` would answer at entry `i` is what it would answer right behind the last write. */
  lemma ReadBehind(hist: seq<Done>, j: nat, i: nat, k: Bytes)
    requires i <= |hist| && LastWrite(hist, j, i, k)
    ensures ReplyTo(Serial(hist[..i]), Get(k)) == ReplyTo(Apply(Serial(hist[..j]), hist[j].cmd), Get(k))
  {
    hide Apply, ReplyTo;
    StillBound(hist, j + 1, i, k);
    SerialNext(hist, j);
    SameBinding(Serial(hist[..i]), Serial(hist[..j + 1]), Get(k));
  }

  /** What GET of `k` answers at entry `i`, given the last write: the value set, nothing after a delete, the number a
      counter command answered. */
  lemma ReadsLastWrite(hist: seq<Done>, j: nat, i: nat, k: Bytes)
    requires Honest(hist) && i <= |hist| && LastWrite(hist, j, i, k)
    ensures var seen := ReplyTo(Serial(hist[..i]), Get(k));
      match hist[j].cmd
      case Get(_) => true
      case Set(_, v) => seen == Bulk(v) && hist[j].reply == Status
      case Del(_) => seen == NullBulk
      case Add(_, _, pad) =>
        && hist[j].reply.Integer? && seen.Bulk?
        && (seen == Bulk(Print(hist[j].reply.v))
            || (hist[j].reply == Integer(0) && !Numeral(seen.data + [pad], |seen.data|)))
  {
    hide Apply, ReplyTo, Numeral, Print;
    ReadBehind(hist, j, i, k);
    var m := Serial(hist[..j]);
    match hist[j].cmd
    case Get(_) =>
    case Set(_, v) => GetAfterSet(m, k, v);
    case Del(_) => GetAfterDel(m, k);
    case Add(_, d, pad) => GetAfterAdd(m, k, d, pad);
  }

  lemma ReadsNothing(hist: seq<Done>, i: nat, k: Bytes)
    requires i <= |hist| && OnlyRead(hist, 0, i, k)
    ensures ReplyTo(Serial(hist[..i]), Get(k)) == NullBulk
  {
    hide Apply, ReplyTo;
    StillBound(hist, 0, i, k);
    SameBinding(Serial(hist[..i]), map[], Get(k));
    GetAfterDel(map[], k);
  }

  // ----- over runs -----

  /** Entry `i` answers from the last write of its key, or from its absence. */
  ghost predicate AnswersFrom(hist: seq<Done>, i: nat, seen: Reply)
    requires i < |hist|
  {
    match hist[i].cmd
    case Get(_) => hist[i].reply == seen
    case Set(_, _) => hist[i].reply == Status
    case Del(_) => hist[i].reply == Integer(if seen.Bulk? then 1 else 0)
    case Add(_, d, pad) => hist[i].reply == Counted(seen, d, pad)
  }

  lemma AnswersSeen(hist: seq<Done>, i: nat)
    requires Honest(hist) && i < |hist|
    ensures AnswersFrom(hist, i, ReplyTo(Serial(hist[..i]), Get(hist[i].cmd.key)))
  {
    hide Apply, Serial, Numeral, Print, Wrap;
    var m, c := Serial(hist[..i]), hist[i].cmd;
    match c
    case Get(_) =>
    case Set(k, v) => GetAfterSet(m, k, v);
    case Del(k) => DelTells(m, k);
    case Add(k, d, pad) => AddAfterGet(m, k, d, pad);
  }

  /** Entry `i` answers from entry `j`, the last write of its key. */
  ghost predicate FollowsWrite(hist: seq<Done>, j: nat, i: nat)
    requires j < i < |hist|
  {
    match hist[j].cmd
    case Get(_) => true
    case Set(_, v) => AnswersFrom(hist, i, Bulk(v))
    case Del(_) => AnswersFrom(hist, i, NullBulk)
    case Add(_, _, pad) =>
      && hist[j].reply.Integer?
      && (AnswersFrom(hist, i, Bulk(Print(hist[j].reply.v)))
          || exists text :: AnswersFrom(hist, i, Bulk(text)) && !Numeral(text + [pad], |text|)
                            && hist[j].reply == Integer(0))
  }

  lemma WriteFollowed(hist: seq<Done>, j: nat, i: nat)
    requires Honest(hist) && j < i < |hist| && LastWrite(hist, j, i, hist[i].cmd.key)
    ensures FollowsWrite(hist, j, i)
  {
    hide Serial, ReplyTo, AnswersFrom, LastWrite, Numeral, Print, Honest;
    AnswersSeen(hist, i);
    ReadsLastWrite(hist, j, i, hist[i].cmd.key);
  }

  /** In every run of the server, in the order of execution: GET answers the value of the last SET of its key, nothing
      when the last write is a DEL or there is none, and the number that the last counter command answered; DEL tells
      whether GET would have found the key; a counter command adds to what GET would have shown. */
  lemma RepliesFollowWrites(s: Server, H: Hash, run: seq<Action>)
    requires Start(s)
    ensures var hist := Exec(s, H, run).hist;
      && (forall j, i | 0 <= j < i < |hist| && LastWrite(hist, j, i, hist[i].cmd.key) :: FollowsWrite(hist, j, i))
      && (forall i | 0 <= i < |hist| && OnlyRead(hist, 0, i, hist[i].cmd.key) :: AnswersFrom(hist, i, NullBulk))
  {
    ShardsRefineOneMap(s, H, run);
    var hist := Exec(s, H, run).hist;
    assert Honest(hist);
    hide *;
    forall j, i | 0 <= j < i < |hist| && LastWrite(hist, j, i, hist[i].cmd.key)
      ensures FollowsWrite(hist, j, i)
    {
      WriteFollowed(hist, j, i);
    }
    forall i | 0 <= i < |hist| && OnlyRead(hist, 0, i, hist[i].cmd.key)
      ensures AnswersFrom(hist, i, NullBulk)
    {
      AnswersSeen(hist, i);
      ReadsNothing(hist, i, hist[i].cmd.key);
    }
  }
}
