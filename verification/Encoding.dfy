/** What clients send, and what the parser makes of it: whole requests, and requests cut short by a read. */
module Encoding {
  import opened Bits
  import opened Counter
  import opened Protocol
  import opened Seqs

  // ----- RESP2 arrays of bulk strings -----

  function EncodeArg(a: Bytes): Bytes
  {
    [DOLLAR] + (PrintNat(|a|) + ([CR, LF] + (a + [CR, LF])))
  }

  function EncodeArgs(args: seq<Bytes>): Bytes
  {
    if args == [] then [] else EncodeArg(args[0]) + EncodeArgs(args[1..])
  }

  function EncodeResp(args: seq<Bytes>): Bytes
  {
    [STAR] + (PrintNat(|args|) + ([CR, LF] + EncodeArgs(args)))
  }

  /** No object in memory is longer, and no sum of an address and such a length wraps around. */
  const LONGEST: nat := 0x7FFF_FFFF_FFFF_FFFF

  ghost predicate Sendable(args: seq<Bytes>)
  {
    |args| <= MAX_ARGC && forall i | 0 <= i < |args| :: |args[i]| <= LONGEST
  }

  /** Where an argument's bytes lie when its encoding starts at `cur`. */
  function ArgSpan(cur: nat, a: Bytes): Span
  {
    Span(cur + |PrintNat(|a|)| + 3, |a|)
  }

  /** Where the arguments lie when their encodings start at `p`. */
  function SpansFrom(p: nat, args: seq<Bytes>): seq<Span>
    decreases |args|
  {
    if args == [] then []
    else [ArgSpan(p, args[0])] + SpansFrom(p + |EncodeArg(args[0])|, args[1..])
  }

  function RespSpans(args: seq<Bytes>): seq<Span>
  {
    SpansFrom(|PrintNat(|args|)| + 3, args)
  }

  // ----- reading digits -----

  /** The number accumulated from `res` by the digits `t`. */
  function Acc(res: nat, t: Bytes): int
    decreases |t|
  {
    if t == [] then res else if IsDigit(t[0]) then Acc(res * 10 + (t[0] - ZERO), t[1..]) else 0
  }

  lemma {:induction false} AccGrows(res: nat, t: Bytes)
    requires AllDigits(t)
    ensures Acc(res, t) >= res
    decreases |t|
  {
    if t != [] {
      AccGrows(res * 10 + (t[0] - ZERO), t[1..]);
    }
  }

  lemma {:induction false} AccSplit(res: nat, t: Bytes, k: nat)
    requires AllDigits(t) && k <= |t|
    ensures Acc(res, t[..k]) >= 0 && Acc(res, t) == Acc(Acc(res, t[..k]), t[k..])
    decreases |t|
  {
    AccGrows(res, t[..k]);
    if k > 0 {
      AccSplit(res * 10 + (t[0] - ZERO), t[1..], k - 1);
      assert t[..k][1..] == t[1..][..k - 1];
    } else {
      assert t[0..] == t;
    }
  }

  lemma {:induction false} AccValue(t: Bytes)
    requires AllDigits(t)
    ensures Acc(0, t) == Value(t)
  {
    if t != [] {
      var k := |t| - 1;
      AccSplit(0, t, k);
      AccValue(t[..k]);
      assert t[k..] == [t[k]];
      assert Acc(Acc(0, t[..k]), [t[k]]) == Acc(0, t[..k]) * 10 + (t[k] - ZERO);
    }
  }

  // ----- text in memory -----

  /** Text `t` lies in `u` from position `p` on. */
  ghost predicate At(u: Bytes, p: nat, t: Bytes)
  {
    p + |t| <= |u| && forall i | 0 <= i < |t| :: u[p + i] == t[i]
  }

  lemma AtJoin(u: Bytes, p: nat, a: Bytes, b: Bytes)
    requires At(u, p, a + b)
    ensures At(u, p, a) && At(u, p + |a|, b)
  {
    assert forall i | 0 <= i < |a| :: (a + b)[i] == a[i];
    forall i | 0 <= i < |b|
      ensures u[p + |a| + i] == b[i]
    {
      assert (a + b)[|a| + i] == b[i];
      assert u[p + (|a| + i)] == (a + b)[|a| + i];
    }
  }

  lemma AtTake(e: Bytes, c: nat, b: byte)
    requires c <= |e|
    ensures At(e[..c] + [b], 0, e[..c])
  {
  }

  lemma AtFirst(u: Bytes, p: nat, t: Bytes)
    requires At(u, p, t) && t != []
    ensures u[p] == t[0]
  {
    assert u[p + 0] == t[0];
  }

  lemma AtIs(u: Bytes, p: nat, t: Bytes)
    requires At(u, p, t)
    ensures u[p..p + |t|] == t && u[p..][..|t|] == t
  {
  }

  /** The digits of a number that fits are read without complaint. */
  lemma {:induction false} ScanDigits(u: Bytes, p: nat, res: nat, t: Bytes)
    requires u != [] && AllDigits(t) && p + |t| <= End(u) && At(u, p, t) && Acc(res, t) <= SIZE_MAX
    ensures Acc(res, t) >= 0 && Scan(u, p, res) == Scan(u, p + |t|, Acc(res, t))
    decreases |t|
  {
    if t != [] {
      var d := t[0] - ZERO;
      assert u[p + 0] == t[0];
      AccGrows(res * 10 + d, t[1..]);
      assert t == [t[0]] + t[1..];
      AtJoin(u, p, [t[0]], t[1..]);
      ScanDigits(u, p + 1, res * 10 + d, t[1..]);
    }
  }

  /** A prefix of a number's digits denotes no more than the number. */
  lemma DigitPrefix(n: nat, k: nat)
    requires k <= |PrintNat(n)|
    ensures var d := PrintNat(n)[..k]; AllDigits(d) && 0 <= Value(d) == Acc(0, d) <= n
  {
    var t := PrintNat(n);
    PrintNatValue(n);
    AccValue(t);
    AccSplit(0, t, k);
    AccValue(t[..k]);
    AccGrows(Acc(0, t[..k]), t[k..]);
  }

  lemma DigitsAll(n: nat)
    ensures AllDigits(PrintNat(n)) && Acc(0, PrintNat(n)) == n
  {
    PrintNatValue(n);
    AccValue(PrintNat(n));
  }

  lemma ScanNat(u: Bytes, p: nat, n: nat, rest: Bytes)
    requires u != [] && n <= SIZE_MAX && At(u, p, PrintNat(n) + ([CR, LF] + rest)) && p + |PrintNat(n)| + 2 <= End(u)
    ensures Scan(u, p, 0) == Number(p + |PrintNat(n)| + 2, n)
    ensures At(u, p + |PrintNat(n)| + 2, rest)
  {
    var t := PrintNat(n);
    AtJoin(u, p, t, [CR, LF] + rest);
    AtJoin(u, p + |t|, [CR, LF], rest);
    DigitsAll(n);
    ScanDigits(u, p, 0, t);
    assert u[p + |t| + 0] == [CR, LF][0];
  }

  // ----- whole requests -----

  /** An argument at the head of a longer text: its marker, its length, its bytes and what comes behind it. */
  lemma ArgHead(u: Bytes, cur: nat, a: Bytes, rest: Bytes)
    requires u != [] && |a| <= SIZE_MAX && At(u, cur, EncodeArg(a) + rest) && cur + |EncodeArg(a)| <= End(u)
    ensures u[cur] == DOLLAR && Scan(u, cur + 1, 0) == Number(cur + |PrintNat(|a|)| + 3, |a|)
    ensures cur + |PrintNat(|a|)| + 3 + |a| + 2 == cur + |EncodeArg(a)|
    ensures At(u, cur + |EncodeArg(a)|, rest) && At(u, cur + |PrintNat(|a|)| + 3, a)
  {
    hide PrintNat, Scan, At;
    var d, tail := PrintNat(|a|), a + [CR, LF];
    AtJoin(u, cur, EncodeArg(a), rest);
    AtJoin(u, cur, [DOLLAR], d + ([CR, LF] + tail));
    AtFirst(u, cur, [DOLLAR]);
    ScanNat(u, cur + 1, |a|, tail);
    AtJoin(u, cur + 1 + |d| + 2, a, [CR, LF]);
  }

  lemma ArgsCons(u: Bytes, s: Span, more: seq<Span>)
    requires s.offset + s.len <= |u|
    ensures Args(u, [s] + more) == [u[s.offset..][..s.len]] + Args(u, more)
  {
  }

  /** One argument read by the loop. */
  lemma ArgsStep(u: Bytes, cur: nat, argc: nat, spans: seq<Span>)
    requires u != [] && cur < End(u) && |spans| < argc && u[cur] == DOLLAR
    requires var s := Scan(u, cur + 1, 0); s.Number? && s.cur + s.value + 2 <= End(u)
    ensures var s := Scan(u, cur + 1, 0);
      ReadArgs(u, cur, argc, spans) == ReadArgs(u, s.cur + s.value + 2, argc, spans + [Span(s.cur, s.value)])
  {
  }

  /** The loop reads an encoded argument in one step. */
  lemma ArgRead(u: Bytes, cur: nat, argc: nat, spans: seq<Span>, a: Bytes, rest: Bytes)
    requires u != [] && |a| <= SIZE_MAX && |spans| < argc
    requires cur + |EncodeArg(a)| <= End(u) && At(u, cur, EncodeArg(a) + rest)
    ensures ReadArgs(u, cur, argc, spans) == ReadArgs(u, cur + |EncodeArg(a)|, argc, spans + [ArgSpan(cur, a)])
    ensures At(u, cur + |EncodeArg(a)|, rest)
  {
    hide PrintNat, Scan, At, ReadArgs, EncodeArg;
    ArgHead(u, cur, a, rest);
    ArgsStep(u, cur, argc, spans);
  }

  lemma ReadArgsDone(u: Bytes, cur: nat, spans: seq<Span>)
    requires u != [] && cur <= End(u)
    ensures ReadArgs(u, cur, |spans|, spans) == Ok(spans, cur)
  {
  }

  lemma {:induction false} ArgsRead(u: Bytes, cur: nat, argc: nat, spans: seq<Span>, args: seq<Bytes>)
    requires u != [] && Sendable(args) && |spans| + |args| == argc
    requires cur + |EncodeArgs(args)| <= End(u) && At(u, cur, EncodeArgs(args))
    ensures ReadArgs(u, cur, argc, spans) == Ok(spans + SpansFrom(cur, args), cur + |EncodeArgs(args)|)
    decreases |args|
  {
    hide EncodeArg, PrintNat, Scan, At, ReadArgs;
    if args == [] {
      ReadArgsDone(u, cur, spans);
      assert spans + [] == spans;
    } else {
      var a, e, rest := args[0], EncodeArg(args[0]), EncodeArgs(args[1..]);
      ArgRead(u, cur, argc, spans, a, rest);
      var s, tail := ArgSpan(cur, a), SpansFrom(cur + |e|, args[1..]);
      ArgsRead(u, cur + |e|, argc, spans + [s], args[1..]);
      Assoc(spans, [s], tail);
    }
  }

  /** A whole RESP request is read as it was sent, whatever follows; an empty one only once two more bytes are there. */
  lemma RespRead(args: seq<Bytes>, u: Bytes)
    requires Sendable(args) && |u| > |EncodeResp(args)| && At(u, 0, EncodeResp(args))
    ensures u[0] == STAR
    ensures ReadResp(u) == if args != [] || |EncodeResp(args)| + 2 <= End(u)
            then Ok(RespSpans(args), |EncodeResp(args)|) else Incomplete
  {
    var e, d := EncodeResp(args), PrintNat(|args|);
    AtJoin(u, 0, [STAR], d + ([CR, LF] + EncodeArgs(args)));
    assert u[0 + 0] == [STAR][0];
    ScanNat(u, 1, |args|, EncodeArgs(args));
    assert args != [] ==> |EncodeArg(args[0])| >= 2;
    ArgsRead(u, |d| + 3, |args|, [], args);
    assert [] + SpansFrom(|d| + 3, args) == SpansFrom(|d| + 3, args);
  }

  lemma {:induction false} SpansHold(u: Bytes, p: nat, args: seq<Bytes>)
    requires Sendable(args) && p + |EncodeArgs(args)| < |u| && At(u, p, EncodeArgs(args))
    ensures Args(u, SpansFrom(p, args)) == args
    decreases |args|
  {
    hide EncodeArg, PrintNat, Scan, At;
    if args != [] {
      var a, e, rest := args[0], EncodeArg(args[0]), EncodeArgs(args[1..]);
      ArgHead(u, p, a, rest);
      SpansHold(u, p + |e|, args[1..]);
      var s, tail := ArgSpan(p, a), SpansFrom(p + |e|, args[1..]);
      AtIs(u, s.offset, a);
      ArgsCons(u, s, tail);
    }
  }

  // ----- requests cut short -----

  /** The byte found behind the window makes parse_number fail when it is no CR and no digit that still fits. */
  predicate Misread(v: int, behind: byte)
  {
    behind != CR && (!IsDigit(behind) || v > (SIZE_MAX - (behind - ZERO)) / 10)
  }

  /** The cut leaves `k` bytes of the line of number `n`: the number read so far, when the CR is among the missing. */
  function LineCut(n: nat, k: nat): Option<int>
  {
    if k <= |PrintNat(n)| then Some(Value(PrintNat(n)[..k])) else None
  }

  function ArgsCut(args: seq<Bytes>, c: nat): Option<int>
    requires c < |EncodeArgs(args)|
  {
    var a := args[0];
    if c == 0 then None
    else if c - 1 < |PrintNat(|a|)| + 2 then LineCut(|a|, c - 1)
    else if c < |EncodeArg(a)| then None
    else ArgsCut(args[1..], c - |EncodeArg(a)|)
  }

  /** Whether the first `c` bytes of a request end between a '*' or '$' and the CR of its length line, and if so the
      number read up to there. The argument count is looked at only when two bytes follow its line. */
  function RespCut(args: seq<Bytes>, c: nat): Option<int>
    requires 0 < c < |EncodeResp(args)|
  {
    var h := |PrintNat(|args|)| + 3;
    if c < h then LineCut(|args|, c - 1)
    else if c < h + 2 then None
    else ArgsCut(args, c - h)
  }

  /** The verdict on a request cut short. */
  function Verdict(cut: Option<int>, behind: byte): Parsed
  {
    if cut.Some? && Misread(cut.value, behind) then Error else Incomplete
  }

  /** The line cut among its digits: the byte behind the window decides. */
  lemma ScanCutDigits(u: Bytes, p: nat, n: nat, k: nat)
    requires u != [] && n <= SIZE_MAX && End(u) == p + k && k <= |PrintNat(n)| && At(u, p, PrintNat(n)[..k])
    ensures Scan(u, p, 0) == if Misread(Value(PrintNat(n)[..k]), u[End(u)]) then Bad else Short
  {
    hide PrintNat, At;
    DigitPrefix(n, k);
    var v := Value(PrintNat(n)[..k]);
    ScanDigits(u, p, 0, PrintNat(n)[..k]);
    assert Scan(u, p, 0) == Scan(u, p + k, v);
  }

  lemma ScanCut(u: Bytes, p: nat, n: nat, rest: Bytes)
    requires u != [] && n <= SIZE_MAX && p <= End(u) < p + |PrintNat(n)| + 2
    requires At(u, p, (PrintNat(n) + ([CR, LF] + rest))[..End(u) - p])
    ensures Scan(u, p, 0) == if Verdict(LineCut(n, End(u) - p), u[End(u)]).Error? then Bad else Short
  {
    var d, k := PrintNat(n), End(u) - p;
    hide PrintNat, At, Scan, Misread;
    if k <= |d| {
      TakePast(d, [CR, LF] + rest, k);
      ScanCutDigits(u, p, n, k);
    } else {
      TakePast(d, [CR, LF] + rest, k);
      ScanCutCR(u, p, n, rest);
    }
  }

  /** Only the LF is missing. */
  lemma ScanCutCR(u: Bytes, p: nat, n: nat, rest: Bytes)
    requires u != [] && n <= SIZE_MAX && End(u) == p + |PrintNat(n)| + 1
    requires At(u, p, PrintNat(n) + ([CR, LF] + rest)[..1])
    ensures Scan(u, p, 0) == Short
  {
    var d := PrintNat(n);
    hide PrintNat, At;
    AtJoin(u, p, d, ([CR, LF] + rest)[..1]);
    AtFirst(u, p + |d|, ([CR, LF] + rest)[..1]);
    DigitsAll(n);
    ScanDigits(u, p, 0, d);
  }

  /** The first bytes of an argument in memory: the marker and the beginning of the rest. */
  lemma ArgTake(u: Bytes, cur: nat, a: Bytes, c: nat)
    requires 0 < c <= |EncodeArg(a)| && At(u, cur, EncodeArg(a)[..c])
    ensures u[cur] == DOLLAR && At(u, cur + 1, (PrintNat(|a|) + ([CR, LF] + (a + [CR, LF])))[..c - 1])
  {
    hide PrintNat, At;
    var line := PrintNat(|a|) + ([CR, LF] + (a + [CR, LF]));
    TakePast([DOLLAR], line, c);
    AtJoin(u, cur, [DOLLAR], line[..c - 1]);
    AtFirst(u, cur, [DOLLAR]);
  }

  /** One argument cut short. */
  lemma ArgCut(u: Bytes, cur: nat, argc: nat, spans: seq<Span>, args: seq<Bytes>)
    requires u != [] && Sendable(args) && |spans| + |args| == argc && args != []
    requires cur <= End(u) < cur + |EncodeArg(args[0])| && At(u, cur, EncodeArg(args[0])[..End(u) - cur])
    ensures ReadArgs(u, cur, argc, spans) == Verdict(ArgsCut(args, End(u) - cur), u[End(u)])
  {
    var a, c := args[0], End(u) - cur;
    var d, tail := PrintNat(|a|), a + [CR, LF];
    if c > 0 {
      ArgTake(u, cur, a, c);
      hide PrintNat, Scan, LineCut, Misread, At, EncodeArgs;
      if c - 1 < |d| + 2 {
        ScanCut(u, cur + 1, |a|, tail);
      } else {
        LineTake(d, tail, c - 1);
        ScanNat(u, cur + 1, |a|, tail[..c - 1 - |d| - 2]);
      }
    }
  }

  lemma ArgsCutNext(args: seq<Bytes>, c: nat)
    requires args != [] && |EncodeArg(args[0])| <= c < |EncodeArgs(args)|
    ensures |EncodeArgs(args)| == |EncodeArg(args[0])| + |EncodeArgs(args[1..])|
    ensures ArgsCut(args, c) == ArgsCut(args[1..], c - |EncodeArg(args[0])|)
  {
    hide PrintNat;
  }

  lemma LineTake(d: Bytes, tail: Bytes, k: nat)
    requires |d| + 2 <= k <= |d| + 2 + |tail|
    ensures (d + ([CR, LF] + tail))[..k] == d + ([CR, LF] + tail[..k - |d| - 2])
  {
  }

  /** The first bytes of a list of arguments in memory: they end in the first argument, or begin with it. */
  lemma ArgsTake(u: Bytes, cur: nat, args: seq<Bytes>, c: nat)
    requires args != [] && c <= |EncodeArgs(args)| && At(u, cur, EncodeArgs(args)[..c])
    ensures var e := EncodeArg(args[0]);
      if c < |e| then At(u, cur, e[..c])
      else c - |e| <= |EncodeArgs(args[1..])| && At(u, cur, e + EncodeArgs(args[1..])[..c - |e|])
  {
    hide EncodeArg, At;
    TakePast(EncodeArg(args[0]), EncodeArgs(args[1..]), c);
  }

  lemma {:induction false} ArgsCutRead(u: Bytes, cur: nat, argc: nat, spans: seq<Span>, args: seq<Bytes>)
    requires u != [] && Sendable(args) && |spans| + |args| == argc
    requires cur <= End(u) < cur + |EncodeArgs(args)| && At(u, cur, EncodeArgs(args)[..End(u) - cur])
    ensures ReadArgs(u, cur, argc, spans) == Verdict(ArgsCut(args, End(u) - cur), u[End(u)])
    decreases |args|
  {
    hide EncodeArg, PrintNat, Scan, LineCut, Verdict, At, ReadArgs, ArgsCut;
    assert args != [];
    var a, c := args[0], End(u) - cur;
    hide EncodeArgs;
    var e, rest := EncodeArg(a), EncodeArgs(args[1..]);
    ArgsTake(u, cur, args, c);
    if c < |e| {
      ArgCut(u, cur, argc, spans, args);
    } else {
      ArgsCutNext(args, c);
      assert Sendable(args[1..]) && |a| <= LONGEST;
      ArgRead(u, cur, argc, spans, a, rest[..c - |e|]);
      ArgsCutRead(u, cur + |e|, argc, spans + [ArgSpan(cur, a)], args[1..]);
    }
  }

  lemma RespLength(args: seq<Bytes>)
    ensures |EncodeResp(args)| == |PrintNat(|args|)| + 3 + |EncodeArgs(args)|
  {
  }

  /** The first bytes of a request in memory: the marker and the beginning of the rest. */
  lemma RespTake(args: seq<Bytes>, c: nat, behind: byte)
    requires 0 < c < |EncodeResp(args)|
    ensures At(EncodeResp(args)[..c] + [behind], 1, (PrintNat(|args|) + ([CR, LF] + EncodeArgs(args)))[..c - 1])
  {
    hide PrintNat, EncodeArgs, At;
    var e, line := EncodeResp(args), PrintNat(|args|) + ([CR, LF] + EncodeArgs(args));
    TakePast([STAR], line, c);
    AtTake(e, c, behind);
    AtJoin(e[..c] + [behind], 0, [STAR], line[..c - 1]);
  }

  /** A RESP request cut short is never read as a request, and is reported as an error exactly when the cut falls in a
      length line and the byte behind the window happens to be unreadable there. */
  lemma RespCutRead(args: seq<Bytes>, c: nat, behind: byte)
    requires Sendable(args) && 0 < c < |EncodeResp(args)|
    ensures ReadResp(EncodeResp(args)[..c] + [behind]) == Verdict(RespCut(args, c), behind)
  {
    var e, d := EncodeResp(args), PrintNat(|args|);
    var u, h := e[..c] + [behind], |d| + 3;
    hide PrintNat, Scan, LineCut, Verdict, EncodeArgs, At, ReadArgs, ArgsCut;
    RespTake(args, c, behind);
    RespLength(args);
    hide EncodeResp;
    if c < h {
      ScanCut(u, 1, |args|, EncodeArgs(args));
    } else {
      LineTake(d, EncodeArgs(args), c - 1);
      ScanNat(u, 1, |args|, EncodeArgs(args)[..c - h]);
      if c >= h + 2 {
        ArgsCutRead(u, h, |args|, [], args);
      }
    }
  }
}
