/** The parser: the source's cursor loops, with what they make of any bytes whatever. */
module Parsing {
  import opened Bits
  import opened Counter
  import opened Protocol
  import opened Lines
  import opened Arrays

  method ParseNumber(u: Bytes, cur: nat) returns (r: Number)
    requires u != [] && cur <= End(u)
    ensures r == Scan(u, cur, 0) && NumberIs(u, cur, r)
  {
    hide NumberIs;
    NumberReading(u, cur);
    var res: nat, p: nat := 0, cur;
    var complete := false;
    while p <= End(u)
      invariant cur <= p <= |u|
      invariant Scan(u, cur, 0) == Scan(u, p, res)
    {
      if u[p] == CR {
        complete := true;
        break;
      }
      if u[p] < ZERO || u[p] > 57 {
        return Bad;
      }
      if res > (SIZE_MAX - (u[p] - ZERO)) / 10 {
        return Bad;
      }
      res := res * 10 + (u[p] - ZERO);
      p := p + 1;
    }
    if !complete {
      return Short;
    }
    if p + 2 > End(u) {
      return Short;
    }
    return Number(p + 2, res);
  }

  method ParseRespRequest(u: Bytes) returns (r: Parsed)
    requires u != []
    ensures r == ReadResp(u) && ArrayIs(u, r)
  {
    hide ArrayIs, NumberIs;
    ArrayReading(u);
    if End(u) == 0 {
      return Incomplete;
    }
    ScanRange(u, 1, 0);
    var count := ParseNumber(u, 1);
    if count.Short? {
      return Incomplete;
    }
    if count.Bad? {
      return Error;
    }
    var cur: nat, argc: nat := count.cur, count.value;
    if argc > MAX_ARGC {
      return BadArgc;
    }
    if cur + 2 > End(u) {
      return Incomplete;
    }
    var spans: seq<Span> := [];
    while |spans| < argc
      invariant cur <= End(u) && |spans| <= argc
      invariant ReadResp(u) == ReadArgs(u, cur, argc, spans)
      decreases argc - |spans|
    {
      if cur == End(u) {
        return Incomplete;
      }
      if u[cur] != DOLLAR {
        return Error;
      }
      cur := cur + 1;
      ScanRange(u, cur, 0);
      var arglen := ParseNumber(u, cur);
      if arglen.Short? {
        return Incomplete;
      }
      if arglen.Bad? {
        return Error;
      }
      cur := arglen.cur;
      if cur + arglen.value + 2 > End(u) {
        return Incomplete;
      }
      spans := spans + [Span(cur, arglen.value)];
      cur := cur + arglen.value + 2;
    }
    return Ok(spans, cur);
  }

  method ParseInlineRequest(w: Bytes) returns (r: Parsed)
    ensures r == ReadInline(w, 0, [], None, false) && LineIs(w, r)
  {
    hide LineIs;
    LineReading(w);
    var spans: seq<Span> := [];
    var offset, len, i := 0, 0, 0;
    var inArg, crlf := false, false;
    while i < |w|
      invariant i <= |w| && (inArg ==> offset + len == i)
      invariant ReadInline(w, 0, [], None, false) == ReadInline(w, i, spans, if inArg then Some(offset) else None, crlf)
    {
      if w[i] == SPACE {
        if inArg {
          spans, inArg := spans + [Span(offset, len)], false;
        }
      } else if w[i] == CR {
        if inArg {
          spans, inArg := spans + [Span(offset, len)], false;
        }
        crlf := true;
      } else if w[i] == LF {
        if !crlf {
          return Error;
        }
        if inArg {
          spans := spans + [Span(offset, len)];
        }
        return Ok(spans, i + 1);
      } else {
        if !inArg {
          if |spans| == MAX_ARGC {
            return BadArgc;
          }
          offset, len, inArg := i, 0, true;
        }
        len := len + 1;
      }
      i := i + 1;
    }
    return Incomplete;
  }

  // ----- either form -----

  /** The verdict on a window with the byte behind it, in the terms of `Arrays` and `Lines`: '*' begins an array. */
  ghost predicate ReadingIs(u: Bytes, r: Parsed)
    requires |u| > 1
  {
    if u[0] == 42 then ArrayIs(u, r) else LineIs(u[..|u| - 1], r)
  }

  /** There is exactly one, and it is the one the parser comes to. */
  lemma ReadingExactly(u: Bytes, r: Parsed)
    requires |u| > 1
    ensures ReadingIs(u, r) <==> r == Read(u)
  {
    hide ArrayIs, LineIs;
    if u[0] == 42 {
      ArrayReading(u);
      if ArrayIs(u, r) {
        OneArray(u, r, Read(u));
      }
    } else {
      var w := u[..|u| - 1];
      LineReading(w);
      if LineIs(w, r) {
        OneReading(w, r, Read(u));
      }
    }
  }
}
