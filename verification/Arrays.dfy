/** What the array form means, for any bytes: the verdict on a length line, on the arguments, and on a request. */
module Arrays {
  import opened Bits
  import opened Counter
  import opened Protocol

  const LARGEST: int := 18446744073709551615

  /** The bytes from `p` to `q` are digits, and the number they denote fits 64 bits. */
  ghost predicate Digits(u: Bytes, p: nat, q: nat)
  {
    p <= q <= |u| && AllDigits(u[p..q]) && 0 <= Value(u[p..q]) <= LARGEST
  }

  /** The byte at `q` cannot go on with the number read up to it. */
  ghost predicate Breaks(u: Bytes, p: nat, q: nat)
    requires p <= q < |u|
  {
    u[q] != 13 && (!IsDigit(u[q]) || Value(u[p..q + 1]) > LARGEST)
  }

  /** The verdict on a number that begins at `p`, when `q` is the first place that is no digit of it. The last byte of
      `u` lies behind the window: a digit or a stray byte there is looked at, but a CR or LF there is not accepted. */
  ghost predicate StoppedAt(u: Bytes, p: nat, q: nat, r: Number)
    requires p <= q
  {
    && Digits(u, p, q)
    && match r
       case Number(cur, value) => cur == q + 2 < |u| && u[q] == 13 && value == Value(u[p..q])
       case Bad => q < |u| && Breaks(u, p, q)
       case Short => q == |u| || (u[q] == 13 && q + 2 >= |u|)
  }

  ghost predicate NumberIs(u: Bytes, p: nat, r: Number)
  {
    exists q: nat | p <= q :: StoppedAt(u, p, q, r)
  }

  lemma DigitMore(u: Bytes, p: nat, q: nat)
    requires Digits(u, p, q) && q < |u| && IsDigit(u[q])
    ensures Value(u[p..q + 1]) == Value(u[p..q]) * 10 + (u[q] - 48)
    ensures Value(u[p..q + 1]) <= LARGEST ==> Digits(u, p, q + 1)
  {
    OneMore(u, p, q);
  }

  lemma {:induction false} ScanFrom(u: Bytes, p: nat, q: nat, res: nat)
    requires u != [] && Digits(u, p, q) && res == Value(u[p..q])
    ensures NumberIs(u, p, Scan(u, q, res))
    decreases |u| - q
  {
    if q < |u| && IsDigit(u[q]) {
      DigitMore(u, p, q);
      var d := u[q] - 48;
      if res * 10 + d <= LARGEST {
        ScanFrom(u, p, q + 1, res * 10 + d);
      } else {
        assert StoppedAt(u, p, q, Bad);
      }
    } else {
      assert StoppedAt(u, p, q, Scan(u, q, res));
    }
  }

  /** parse_number on any bytes. */
  lemma NumberReading(u: Bytes, p: nat)
    requires u != [] && p < |u|
    ensures NumberIs(u, p, Scan(u, p, 0))
  {
    assert u[p..p] == [];
    ScanFrom(u, p, p, 0);
  }

  lemma {:induction false} DigitsFit(u: Bytes, p: nat, q: nat, k: nat)
    requires Digits(u, p, k) && p <= q < k
    ensures Digits(u, p, q + 1) && IsDigit(u[q])
    decreases k - q
  {
    assert u[q] == u[p..k][q - p];
    assert u[p..k] == u[p..k - 1] + [u[k - 1]];
    assert u[k - 1] == u[p..k][k - 1 - p];
    if q < k - 1 {
      ValueNat(u[p..k - 1]);
      DigitsFit(u, p, q, k - 1);
    }
  }

  lemma {:induction false} ValueNat(t: Bytes)
    requires AllDigits(t)
    ensures Value(t) >= 0
  {
    if t != [] {
      ValueNat(t[..|t| - 1]);
    }
  }

  lemma StopsFirst(u: Bytes, p: nat, q: nat, k: nat, r: Number, s: Number)
    requires p <= q && p <= k && StoppedAt(u, p, q, r) && StoppedAt(u, p, k, s)
    ensures q >= k
  {
    if q < k {
      DigitsFit(u, p, q, k);
    }
  }

  /** The verdict on a number is determined by the bytes. */
  lemma OneNumber(u: Bytes, p: nat, r: Number, s: Number)
    requires NumberIs(u, p, r) && NumberIs(u, p, s)
    ensures r == s
  {
    var q: nat :| p <= q && StoppedAt(u, p, q, r);
    var k: nat :| p <= k && StoppedAt(u, p, k, s);
    StopsFirst(u, p, q, k, r, s);
    StopsFirst(u, p, k, q, s, r);
  }

  // ----- arguments -----

  /** A whole argument begins at `cur`: its marker, its length line, and room for its bytes and two more. */
  ghost predicate ArgAt(u: Bytes, cur: nat, s: Span)
  {
    && cur + 1 < |u| && u[cur] == 36
    && NumberIs(u, cur + 1, Number(s.offset, s.len))
    && s.offset + s.len + 2 < |u|
  }

  /** Where the argument behind the first `i` begins. */
  function ArgStart(start: nat, spans: seq<Span>, i: nat): nat
    requires i <= |spans|
  {
    if i == 0 then start else spans[i - 1].offset + spans[i - 1].len + 2
  }

  ghost predicate WellRead(u: Bytes, start: nat, spans: seq<Span>)
  {
    forall i: nat {:trigger ArgStart(start, spans, i)} | i < |spans| :: ArgAt(u, ArgStart(start, spans, i), spans[i])
  }

  /** The verdict when the argument at `cur` is not read whole. */
  ghost predicate StuckIs(u: Bytes, cur: nat, r: Parsed)
  {
    match r
    case Incomplete =>
      || cur + 1 == |u|
      || (&& cur + 1 < |u| && u[cur] == 36
          && (NumberIs(u, cur + 1, Short)
              || exists n: Number | n.Number? && n.cur + n.value + 2 >= |u| :: NumberIs(u, cur + 1, n)))
    case Error => cur + 1 < |u| && (u[cur] == 36 ==> NumberIs(u, cur + 1, Bad))
    case _ => false
  }

  /** The verdict on `argc` arguments from `start` on: all of them are well read one behind the other, or some number of
      them is and the next one decides. */
  ghost predicate ArgsAre(u: Bytes, start: nat, argc: nat, spans: seq<Span>, r: Parsed)
  {
    && WellRead(u, start, spans)
    && if |spans| == argc then r == Ok(spans, ArgStart(start, spans, argc))
       else |spans| < argc && StuckIs(u, ArgStart(start, spans, |spans|), r)
  }

  lemma OneMoreRead(u: Bytes, start: nat, spans: seq<Span>, s: Span)
    requires WellRead(u, start, spans) && ArgAt(u, ArgStart(start, spans, |spans|), s)
    ensures WellRead(u, start, spans + [s])
    ensures ArgStart(start, spans + [s], |spans| + 1) == s.offset + s.len + 2
  {
    hide ArgAt;
    var more := spans + [s];
    forall i: nat | i < |more|
      ensures ArgAt(u, ArgStart(start, more, i), more[i])
    {
      assert ArgStart(start, more, i) == ArgStart(start, spans, i);
      if i < |spans| {
        assert ArgAt(u, ArgStart(start, spans, i), spans[i]) && more[i] == spans[i];
      }
    }
  }

  lemma Stuck(u: Bytes, cur: nat, argc: nat, spans: seq<Span>)
    requires u != [] && cur <= End(u) && |spans| < argc
    ensures
      || StuckIs(u, cur, ReadArgs(u, cur, argc, spans))
      || (&& cur < End(u) && Scan(u, cur + 1, 0).Number?
          && ArgAt(u, cur, Span(Scan(u, cur + 1, 0).cur, Scan(u, cur + 1, 0).value)))
  {
    if cur < End(u) && u[cur] == 36 {
      NumberReading(u, cur + 1);
      ScanRange(u, cur + 1, 0);
      hide NumberIs;
    }
  }

  lemma {:induction false} ArgsFrom(u: Bytes, start: nat, cur: nat, argc: nat, spans: seq<Span>)
    requires u != [] && cur <= End(u) && |spans| <= argc
    requires WellRead(u, start, spans) && cur == ArgStart(start, spans, |spans|)
    ensures exists all :: ArgsAre(u, start, argc, all, ReadArgs(u, cur, argc, spans))
    decreases argc - |spans|
  {
    hide NumberIs, WellRead;
    if |spans| == argc {
      assert ArgsAre(u, start, argc, spans, ReadArgs(u, cur, argc, spans));
    } else {
      Stuck(u, cur, argc, spans);
      if StuckIs(u, cur, ReadArgs(u, cur, argc, spans)) {
        assert ArgsAre(u, start, argc, spans, ReadArgs(u, cur, argc, spans));
      } else {
        var n := Scan(u, cur + 1, 0);
        var s := Span(n.cur, n.value);
        OneMoreRead(u, start, spans, s);
        ArgsFrom(u, start, s.offset + s.len + 2, argc, spans + [s]);
      }
    }
  }

  // ----- requests -----

  /** The verdict on a request whose first byte is skipped: a count of more than 64 is refused, and with fewer than two
      bytes behind its line nothing is decided yet. */
  ghost predicate ArrayIs(u: Bytes, r: Parsed)
    requires u != []
  {
    if |u| == 1 then r == Incomplete else exists n :: CountedIs(u, n, r)
  }

  ghost predicate CountedIs(u: Bytes, n: Number, r: Parsed)
  {
    && NumberIs(u, 1, n)
    && match n
       case Short => r == Incomplete
       case Bad => r == Error
       case Number(cur, argc) =>
         if argc > 64 then r == BadArgc
         else if cur + 2 >= |u| then r == Incomplete
         else exists spans :: ArgsAre(u, cur, argc, spans, r)
  }

  /** parse_resp_request on any bytes. */
  lemma ArrayReading(u: Bytes)
    requires u != []
    ensures ArrayIs(u, ReadResp(u))
  {
    hide NumberIs, ArgsAre;
    if |u| > 1 {
      NumberReading(u, 1);
      ScanRange(u, 1, 0);
      var n := Scan(u, 1, 0);
      if n.Number? && n.value <= 64 && n.cur + 2 < |u| {
        assert WellRead(u, n.cur, []);
        ArgsFrom(u, n.cur, n.cur, n.value, []);
      }
      assert CountedIs(u, n, ReadResp(u));
    }
  }

  // ----- and nothing else would do -----

  lemma OneArg(u: Bytes, cur: nat, s: Span, t: Span)
    requires ArgAt(u, cur, s) && ArgAt(u, cur, t)
    ensures s == t
  {
    OneNumber(u, cur + 1, Number(s.offset, s.len), Number(t.offset, t.len));
  }

  lemma OnlyNumber(u: Bytes, p: nat, n: Number)
    requires NumberIs(u, p, n)
    ensures forall m :: NumberIs(u, p, m) ==> m == n
  {
    forall m | NumberIs(u, p, m) && m != n
      ensures false
    {
      OneNumber(u, p, m, n);
    }
  }

  lemma NotStuck(u: Bytes, cur: nat, s: Span, r: Parsed)
    requires ArgAt(u, cur, s)
    ensures !StuckIs(u, cur, r)
  {
    OnlyNumber(u, cur + 1, Number(s.offset, s.len));
    hide NumberIs;
  }

  lemma OneStuck(u: Bytes, cur: nat, r: Parsed, s: Parsed)
    requires StuckIs(u, cur, r) && StuckIs(u, cur, s)
    ensures r == s
  {
    if NumberIs(u, cur + 1, Bad) {
      OnlyNumber(u, cur + 1, Bad);
    }
    hide NumberIs;
  }

  lemma {:induction false} SameArgs(u: Bytes, start: nat, a: seq<Span>, b: seq<Span>, k: nat)
    requires WellRead(u, start, a) && WellRead(u, start, b) && k <= |a| && k <= |b|
    ensures forall i: nat | i < k :: a[i] == b[i]
    ensures ArgStart(start, a, k) == ArgStart(start, b, k)
  {
    hide WellRead, ArgAt;
    if k > 0 {
      SameArgs(u, start, a, b, k - 1);
      ReadAt(u, start, a, k - 1);
      ReadAt(u, start, b, k - 1);
      OneArg(u, ArgStart(start, a, k - 1), a[k - 1], b[k - 1]);
    }
  }

  lemma ReadAt(u: Bytes, start: nat, spans: seq<Span>, i: nat)
    requires WellRead(u, start, spans) && i < |spans|
    ensures ArgAt(u, ArgStart(start, spans, i), spans[i])
  {
  }

  lemma NoFewer(u: Bytes, start: nat, argc: nat, a: seq<Span>, b: seq<Span>, r: Parsed, s: Parsed)
    requires ArgsAre(u, start, argc, a, r) && ArgsAre(u, start, argc, b, s)
    ensures |a| >= |b|
  {
    if |a| < |b| {
      SameArgs(u, start, a, b, |a|);
      assert ArgAt(u, ArgStart(start, b, |a|), b[|a|]);
      NotStuck(u, ArgStart(start, a, |a|), b[|a|], r);
    }
  }

  lemma OneArgs(u: Bytes, start: nat, argc: nat, a: seq<Span>, b: seq<Span>, r: Parsed, s: Parsed)
    requires ArgsAre(u, start, argc, a, r) && ArgsAre(u, start, argc, b, s)
    ensures r == s
  {
    NoFewer(u, start, argc, a, b, r, s);
    NoFewer(u, start, argc, b, a, s, r);
    SameArgs(u, start, a, b, |a|);
    assert a == b;
    if |a| < argc {
      OneStuck(u, ArgStart(start, a, |a|), r, s);
    }
  }

  /** The verdict on a request is determined by the bytes. */
  lemma OneArray(u: Bytes, r: Parsed, s: Parsed)
    requires u != [] && ArrayIs(u, r) && ArrayIs(u, s)
    ensures r == s
  {
    hide NumberIs, ArgsAre;
    if |u| > 1 {
      var n, m :| CountedIs(u, n, r) && CountedIs(u, m, s);
      OneNumber(u, 1, n, m);
      if n.Number? && n.value <= 64 && n.cur + 2 < |u| {
        var a, b :| ArgsAre(u, n.cur, n.value, a, r) && ArgsAre(u, n.cur, n.value, b, s);
        OneArgs(u, n.cur, n.value, a, b, r, s);
      }
    }
  }
}
