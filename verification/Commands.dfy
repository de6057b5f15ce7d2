/** The keyed commands: what each answers and what it does to a finite map. */
module Commands {
  import opened Bits
  import opened Counter

  /** `Add` is INCR, DECR, INCRBY and DECRBY with a signed delta; `pad` is the byte found in memory behind the stored
      value, which the source's parser reads when that value is empty. */
  datatype Cmd =
    | Get(key: Bytes) | Set(key: Bytes, val: Bytes) | Del(key: Bytes)
    | Add(key: Bytes, delta: int, pad: byte)

  datatype Reply = Bulk(data: Bytes) | NullBulk | Status | Integer(v: int)

  type Map = map<Bytes, Bytes>

  /** The counter held in `m` under the key, or nothing when the stored text is no numeral. A missing key counts as
      0. */
  function Current(m: Map, key: Bytes, pad: byte): Option<int>
  {
    if key !in m then Some(0)
    else if Numeral(m[key] + [pad], |m[key]|) then Some(Wrap(Denotes(m[key] + [pad], |m[key]|)))
    else None
  }

  function ReplyTo(m: Map, c: Cmd): Reply
  {
    match c
    case Get(k) => if k in m then Bulk(m[k]) else NullBulk
    case Set(_, _) => Status
    case Del(k) => Integer(if k in m then 1 else 0)
    case Add(k, d, pad) => Integer(if Current(m, k, pad).None? then 0 else Wrap(Current(m, k, pad).value + d))
  }

  function Apply(m: Map, c: Cmd): Map
  {
    match c
    case Get(_) => m
    case Set(k, v) => m[k := v]
    case Del(k) => m - {k}
    case Add(k, d, pad) => if Current(m, k, pad).None? then m else m[k := Print(Wrap(Current(m, k, pad).value + d))]
  }

  /** A command answers from, and touches, its own key only. */
  lemma Local(m: Map, n: Map, c: Cmd)
    requires c.key in m <==> c.key in n
    requires c.key in m ==> m[c.key] == n[c.key]
    ensures ReplyTo(m, c) == ReplyTo(n, c)
    ensures c.key in Apply(m, c) <==> c.key in Apply(n, c)
    ensures c.key in Apply(m, c) ==> Apply(m, c)[c.key] == Apply(n, c)[c.key]
    ensures forall k | k != c.key :: (k in Apply(m, c) <==> k in m) && (k in m ==> Apply(m, c)[k] == m[k])
  {
  }

  // ----- counters over a run -----

  function ApplyAll(m: Map, cs: seq<Cmd>): Map
  {
    if cs == [] then m else Apply(ApplyAll(m, cs[..|cs| - 1]), cs[|cs| - 1])
  }

  ghost predicate Adds(cs: seq<Cmd>, key: Bytes)
  {
    forall i | 0 <= i < |cs| :: cs[i].Add? && cs[i].key == key
  }

  function Sum(cs: seq<Cmd>): int
  {
    if cs == [] then 0 else Sum(cs[..|cs| - 1]) + if cs[|cs| - 1].Add? then cs[|cs| - 1].delta else 0
  }

  ghost predicate HoldsCounter(m: Map, key: Bytes, v: int)
  {
    InRange(v) && if key in m then m[key] == Print(v) else v == 0
  }

  lemma CurrentPrinted(m: Map, key: Bytes, v: int, pad: byte)
    requires HoldsCounter(m, key, v)
    ensures Current(m, key, pad) == Some(v)
  {
    if key in m {
      ParsePrinted(v, [pad]);
    }
  }

  /** After any mix of INCR, DECR, INCRBY and DECRBY the key holds the decimal text of the start value plus all deltas,
      reduced to 64 bits; other keys are untouched. */
  lemma {:induction false} CounterRun(m: Map, key: Bytes, v: int, cs: seq<Cmd>)
    requires HoldsCounter(m, key, v) && Adds(cs, key)
    ensures HoldsCounter(ApplyAll(m, cs), key, Wrap(v + Sum(cs)))
    ensures cs != [] ==> key in ApplyAll(m, cs)
    ensures cs != [] ==> ReplyTo(ApplyAll(m, cs[..|cs| - 1]), cs[|cs| - 1]) == Integer(Wrap(v + Sum(cs)))
    ensures ApplyAll(m, cs) - {key} == m - {key}
  {
    hide Wrap, ReplyTo, Apply, HoldsCounter;
    CounterStart(m, key, v);
    if cs != [] {
      var front, c := cs[..|cs| - 1], cs[|cs| - 1];
      assert Adds(front, key);
      CounterRun(m, key, v, front);
      CounterStep(ApplyAll(m, front), key, v + Sum(front), c);
    }
  }

  lemma CounterStart(m: Map, key: Bytes, v: int)
    requires HoldsCounter(m, key, v)
    ensures HoldsCounter(m, key, Wrap(v + 0))
  {
  }

  lemma CounterStep(m: Map, key: Bytes, v: int, c: Cmd)
    requires HoldsCounter(m, key, Wrap(v)) && c.Add? && c.key == key
    ensures HoldsCounter(Apply(m, c), key, Wrap(v + c.delta)) && key in Apply(m, c)
    ensures ReplyTo(m, c) == Integer(Wrap(v + c.delta)) && Apply(m, c) - {key} == m - {key}
  {
    CurrentPrinted(m, key, Wrap(v), c.pad);
    hide Numeral, Denotes, Current;
    WrapLinear(v, 1, c.delta);
  }

  /** The stored text is the exact sum if and only if that sum fits 64 bits; partial sums need not. */
  lemma CounterExact(m: Map, key: Bytes, v: int, cs: seq<Cmd>)
    requires HoldsCounter(m, key, v) && Adds(cs, key) && cs != []
    ensures key in ApplyAll(m, cs)
    ensures ApplyAll(m, cs)[key] == Print(v + Sum(cs)) <==> InRange(v + Sum(cs))
  {
    CounterRun(m, key, v, cs);
    if ApplyAll(m, cs)[key] == Print(v + Sum(cs)) {
      PrintInjective(Wrap(v + Sum(cs)), v + Sum(cs));
    }
  }

  lemma PrintInjective(a: int, b: int)
    requires Print(a) == Print(b)
    ensures a == b
  {
    PrintNatValue(if a < 0 then -a else a);
    PrintNatValue(if b < 0 then -b else b);
    assert a >= 0 ==> IsDigit(Print(a)[0]);
    assert b >= 0 ==> IsDigit(Print(b)[0]);
    if a < 0 && b < 0 {
      assert PrintNat(-a) == Print(a)[1..] == PrintNat(-b);
    }
  }
}
