/** How requests read: the length-prefixed form of RESP2 and the inline form, step by step over the bytes. */
module Protocol {
  import opened Bits
  import opened Counter

  const CR: byte := 13
  const LF: byte := 10
  const SPACE: byte := 32
  const DOLLAR: byte := 36
  const STAR: byte := 42
  const MAX_ARGC: nat := 64
  const SIZE_MAX: nat := 0xFFFF_FFFF_FFFF_FFFF

  /** Place of an argument: `offsets[i]` and `lens[i]` of the source. */
  datatype Span = Span(offset: nat, len: nat)

  datatype Parsed = Ok(spans: seq<Span>, len: nat) | Incomplete | Error | BadArgc

  datatype Number = Number(cur: nat, value: nat) | Short | Bad

  // A receive window and the one byte of memory behind it, which parse_number reads: `u == window + [behind]`.

  function End(u: Bytes): nat
    requires u != []
  {
    |u| - 1
  }

  // ----- the readings -----

  /** parse_number from position `p` with `res` accumulated. */
  function Scan(u: Bytes, p: nat, res: nat): Number
    requires u != []
    decreases |u| - p
  {
    if p > End(u) then Short
    else if u[p] == CR then (if p + 2 > End(u) then Short else Number(p + 2, res))
    else if !IsDigit(u[p]) then Bad
    else if res > (SIZE_MAX - (u[p] - ZERO)) / 10 then Bad
    else Scan(u, p + 1, res * 10 + (u[p] - ZERO))
  }

  lemma {:induction false} ScanRange(u: Bytes, p: nat, res: nat)
    requires u != []
    ensures Scan(u, p, res).Number? ==> p + 2 <= Scan(u, p, res).cur <= End(u)
    decreases |u| - p
  {
    if p <= End(u) && u[p] != CR && IsDigit(u[p]) && res <= (SIZE_MAX - (u[p] - ZERO)) / 10 {
      ScanRange(u, p + 1, res * 10 + (u[p] - ZERO));
    }
  }

  /** The argument loop of parse_resp_request. */
  function ReadArgs(u: Bytes, cur: nat, argc: nat, spans: seq<Span>): Parsed
    requires u != [] && cur <= End(u) && |spans| <= argc
    decreases argc - |spans|
  {
    if |spans| == argc then Ok(spans, cur)
    else if cur == End(u) then Incomplete
    else if u[cur] != DOLLAR then Error
    else
      ScanRange(u, cur + 1, 0);
      match Scan(u, cur + 1, 0)
      case Short => Incomplete
      case Bad => Error
      case Number(c, n) =>
        if c + n + 2 > End(u) then Incomplete else ReadArgs(u, c + n + 2, argc, spans + [Span(c, n)])
  }

  /** parse_resp_request. */
  function ReadResp(u: Bytes): Parsed
    requires u != []
  {
    if End(u) == 0 then Incomplete
    else
      ScanRange(u, 1, 0);
      match Scan(u, 1, 0)
      case Short => Incomplete
      case Bad => Error
      case Number(cur, argc) =>
        if argc > MAX_ARGC then BadArgc
        else if cur + 2 > End(u) then Incomplete
        else ReadArgs(u, cur, argc, [])
  }

  /** The loop of parse_inline_request from position `i`; `open` is the start of the argument being read. */
  function ReadInline(w: Bytes, i: nat, spans: seq<Span>, open: Option<nat>, crlf: bool): Parsed
    requires i <= |w| && (open.Some? ==> open.value <= i)
    decreases |w| - i
  {
    if i == |w| then Incomplete
    else
      var closed := if open.Some? then spans + [Span(open.value, i - open.value)] else spans;
      if w[i] == SPACE then ReadInline(w, i + 1, closed, None, crlf)
      else if w[i] == CR then ReadInline(w, i + 1, closed, None, true)
      else if w[i] == LF then (if crlf then Ok(closed, i + 1) else Error)
      else if open.Some? then ReadInline(w, i + 1, spans, open, crlf)
      else if |spans| == MAX_ARGC then BadArgc
      else ReadInline(w, i + 1, spans, Some(i), crlf)
  }

  /** The request at the head of a window, by the first byte. */
  function Read(u: Bytes): Parsed
    requires |u| > 1
  {
    if u[0] == STAR then ReadResp(u) else ReadInline(u[..End(u)], 0, [], None, false)
  }

  function Args(w: Bytes, spans: seq<Span>): seq<Bytes>
  {
    seq(|spans|, (i: nat) requires i < |spans| =>
      if spans[i].offset + spans[i].len <= |w| then w[spans[i].offset..][..spans[i].len] else [])
  }

  // ----- reading less, reading more -----

  /** A number read inside the window is read the same whatever follows it. */
  lemma {:induction false} ScanStable(w: Bytes, b: byte, v: Bytes, p: nat, res: nat)
    requires v != [] && w <= v[..End(v)] && Scan(w + [b], p, res).Number?
    ensures Scan(v, p, res) == Scan(w + [b], p, res)
    decreases |w| - p
  {
    var u := w + [b];
    ScanRange(u, p, res);
    assert u[p] == w[p] == v[p];
    if u[p] != CR {
      ScanStable(w, b, v, p + 1, res * 10 + (u[p] - ZERO));
    }
  }

  lemma {:induction false} ArgsStable(w: Bytes, b: byte, v: Bytes, cur: nat, argc: nat, spans: seq<Span>)
    requires v != [] && w <= v[..End(v)] && cur <= |w| && |spans| <= argc
    requires ReadArgs(w + [b], cur, argc, spans).Ok?
    ensures ReadArgs(v, cur, argc, spans) == ReadArgs(w + [b], cur, argc, spans)
    ensures ReadArgs(v, cur, argc, spans).len <= |w|
    decreases argc - |spans|
  {
    if |spans| < argc {
      var u := w + [b];
      ScanRange(u, cur + 1, 0);
      ScanStable(w, b, v, cur + 1, 0);
      assert u[cur] == w[cur] == v[cur];
      var c := Scan(u, cur + 1, 0);
      ArgsStable(w, b, v, c.cur + c.value + 2, argc, spans + [Span(c.cur, c.value)]);
    }
  }

  lemma {:induction false} InlineStable(w: Bytes, v: Bytes, i: nat, spans: seq<Span>, open: Option<nat>, crlf: bool)
    requires w <= v && i <= |w| && (open.Some? ==> open.value <= i)
    ensures ReadInline(w, i, spans, open, crlf) != Incomplete
            ==> ReadInline(v, i, spans, open, crlf) == ReadInline(w, i, spans, open, crlf)
    ensures ReadInline(w, i, spans, open, crlf).Ok? ==> i < ReadInline(w, i, spans, open, crlf).len <= |w|
    decreases |w| - i
  {
    if i < |w| {
      var closed := if open.Some? then spans + [Span(open.value, i - open.value)] else spans;
      assert w[i] == v[i];
      if w[i] == SPACE {
        InlineStable(w, v, i + 1, closed, None, crlf);
      } else if w[i] == CR {
        InlineStable(w, v, i + 1, closed, None, true);
      } else if w[i] != LF && open.Some? {
        InlineStable(w, v, i + 1, spans, open, crlf);
      } else if w[i] != LF && |spans| != MAX_ARGC {
        InlineStable(w, v, i + 1, spans, Some(i), crlf);
      }
    }
  }

  /** A request once complete reads the same whatever bytes arrive behind it, and lies within the window. */
  lemma OkStable(w: Bytes, b: byte, v: Bytes)
    requires w != [] && v != [] && w <= v[..End(v)] && Read(w + [b]).Ok?
    ensures Read(v) == Read(w + [b]) && 0 < Read(v).len <= |w|
  {
    var u := w + [b];
    assert u[0] == w[0] == v[0] && u[..End(u)] == w;
    if u[0] == STAR {
      ScanRange(u, 1, 0);
      ScanStable(w, b, v, 1, 0);
      var c := Scan(u, 1, 0);
      ArgsStable(w, b, v, c.cur, c.value, []);
      ArgsAdvance(u, c.cur, c.value, []);
    } else {
      InlineStable(w, v[..End(v)], 0, [], None, false);
    }
  }

  lemma {:induction false} ArgsAdvance(u: Bytes, cur: nat, argc: nat, spans: seq<Span>)
    requires u != [] && cur <= End(u) && |spans| <= argc
    ensures ReadArgs(u, cur, argc, spans).Ok? ==> cur <= ReadArgs(u, cur, argc, spans).len
    decreases argc - |spans|
  {
    if |spans| < argc && cur < End(u) && u[cur] == DOLLAR {
      ScanRange(u, cur + 1, 0);
      var c := Scan(u, cur + 1, 0);
      if c.Number? && c.cur + c.value + 2 <= End(u) {
        ArgsAdvance(u, c.cur + c.value + 2, argc, spans + [Span(c.cur, c.value)]);
      }
    }
  }

  /** No strict prefix of a request reads as a request. */
  lemma OkMinimal(u: Bytes, k: nat, b: byte)
    requires |u| > 1 && Read(u).Ok? && 0 < k < Read(u).len
    ensures Read(u).len <= End(u) && !Read(u[..k] + [b]).Ok?
  {
    assert u == u[..End(u)] + [u[End(u)]];
    OkStable(u[..End(u)], u[End(u)], u);
    if Read(u[..k] + [b]).Ok? {
      OkStable(u[..k], b, u);
    }
  }
}
