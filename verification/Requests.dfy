/** Requests in either form, read back from memory. */
module Requests {
  import opened Bits
  import opened Counter
  import opened Protocol
  import opened Encoding
  import opened Seqs

  predicate WordByte(c: byte) { c != SPACE && c != CR && c != LF }

  predicate Word(t: Bytes) { t != [] && forall i | 0 <= i < |t| :: WordByte(t[i]) }

  predicate Words(args: seq<Bytes>)
  {
    args != [] && forall i | 0 <= i < |args| :: Word(args[i])
  }

  /** An inline request: its words on one line. */
  function EncodeInline(args: seq<Bytes>): Bytes
    requires args != []
  {
    args[0] + if |args| == 1 then [CR, LF] else [SPACE] + EncodeInline(args[1..])
  }

  function InlineSpans(p: nat, args: seq<Bytes>): seq<Span>
    decreases |args|
  {
    if args == [] then [] else [Span(p, |args[0]|)] + InlineSpans(p + |args[0]| + 1, args[1..])
  }

  lemma {:induction false} WordRead(w: Bytes, i: nat, spans: seq<Span>, open: nat, crlf: bool, t: Bytes)
    requires At(w, i, t) && open <= i && forall j | 0 <= j < |t| :: WordByte(t[j])
    ensures ReadInline(w, i, spans, Some(open), crlf) == ReadInline(w, i + |t|, spans, Some(open), crlf)
    decreases |t|
  {
    if t != [] {
      assert w[i + 0] == t[0];
      assert t == [t[0]] + t[1..];
      AtJoin(w, i, [t[0]], t[1..]);
      WordRead(w, i + 1, spans, open, crlf, t[1..]);
    }
  }

  /** What follows the first word. */
  function AfterWord(args: seq<Bytes>): Bytes
    requires args != []
  {
    if |args| == 1 then [CR, LF] else [SPACE] + EncodeInline(args[1..])
  }

  /** The line in memory: its first word, the byte behind it, and what follows. */
  lemma InlineHead(w: Bytes, p: nat, args: seq<Bytes>)
    requires args != [] && At(w, p, EncodeInline(args))
    ensures At(w, p, args[0]) && p + |EncodeInline(args)| <= |w|
    ensures var q := p + |args[0]|;
      if |args| == 1 then w[q] == CR && w[q + 1] == LF && |EncodeInline(args)| == |args[0]| + 2
      else w[q] == SPACE && At(w, q + 1, EncodeInline(args[1..]))
           && |EncodeInline(args)| == |args[0]| + 1 + |EncodeInline(args[1..])|
  {
    AtJoin(w, p, args[0], AfterWord(args));
    var q := p + |args[0]|;
    if |args| == 1 {
      assert w[q + 0] == AfterWord(args)[0] && w[q + 1] == AfterWord(args)[1];
    } else {
      AtJoin(w, q, [SPACE], EncodeInline(args[1..]));
      assert w[q + 0] == [SPACE][0];
    }
  }

  lemma FirstWord(w: Bytes, p: nat, spans: seq<Span>, a: Bytes)
    requires Word(a) && At(w, p, a) && |spans| < MAX_ARGC
    ensures w[p] == a[0]
    ensures ReadInline(w, p, spans, None, false) == ReadInline(w, p + |a|, spans, Some(p), false)
  {
    assert w[p + 0] == a[0] && WordByte(a[0]);
    assert a == [a[0]] + a[1..];
    AtJoin(w, p, [a[0]], a[1..]);
    WordRead(w, p + 1, spans, p, false, a[1..]);
  }

  lemma {:induction false} InlineRead(w: Bytes, p: nat, spans: seq<Span>, args: seq<Bytes>)
    requires Words(args) && |spans| + |args| <= MAX_ARGC && At(w, p, EncodeInline(args))
    ensures ReadInline(w, p, spans, None, false) == Ok(spans + InlineSpans(p, args), p + |EncodeInline(args)|)
    decreases |args|
  {
    var a := args[0];
    assert Word(a);
    InlineHead(w, p, args);
    FirstWord(w, p, spans, a);
    hide At, Word, EncodeInline;
    var q, closed := p + |a|, spans + [Span(p, |a|)];
    if |args| == 1 {
      LastSpan(p, args);
    } else {
      assert Words(args[1..]);
      InlineRead(w, q + 1, closed, args[1..]);
      Assoc(spans, [Span(p, |a|)], InlineSpans(q + 1, args[1..]));
    }
  }

  lemma LastSpan(p: nat, args: seq<Bytes>)
    requires |args| == 1
    ensures InlineSpans(p, args) == [Span(p, |args[0]|)]
  {
    assert args[1..] == [];
  }

  lemma {:induction false} InlineHold(u: Bytes, p: nat, args: seq<Bytes>)
    requires args != [] && At(u, p, EncodeInline(args))
    ensures Args(u, InlineSpans(p, args)) == args
    decreases |args|
  {
    var a, s := args[0], Span(p, |args[0]|);
    InlineHead(u, p, args);
    AtIs(u, p, a);
    hide At, EncodeInline;
    if |args| == 1 {
      LastSpan(p, args);
      assert Args(u, [s]) == [a];
    } else {
      InlineHold(u, p + |a| + 1, args[1..]);
      ArgsCons(u, s, InlineSpans(p + |a| + 1, args[1..]));
    }
  }

  // ----- either form -----

  datatype Request = Array(args: seq<Bytes>) | Line(args: seq<Bytes>)

  /** RESP requests of 1 to 64 arbitrary strings; inline requests of 1 to 64 words, the first not starting with '*'. */
  ghost predicate Good(r: Request)
  {
    && 1 <= |r.args| <= MAX_ARGC
    && (r.Array? ==> Sendable(r.args))
    && (r.Line? ==> Words(r.args) && r.args[0][0] != STAR)
  }

  function Encode(r: Request): (e: Bytes)
    requires r.args != []
    ensures |e| >= 2
  {
    match r
    case Array(args) => EncodeResp(args)
    case Line(args) => LineLong(args); EncodeInline(args)
  }

  lemma LineLong(args: seq<Bytes>)
    requires args != []
    ensures |EncodeInline(args)| >= 2
  {
  }

  function Spans(r: Request): seq<Span>
    requires r.args != []
  {
    match r
    case Array(args) => RespSpans(args)
    case Line(args) => InlineSpans(0, args)
  }

  lemma ArrayRead(args: seq<Bytes>, u: Bytes)
    requires 1 <= |args| && Sendable(args) && |u| > |EncodeResp(args)| && At(u, 0, EncodeResp(args))
    ensures Read(u) == Ok(RespSpans(args), |EncodeResp(args)|) && Args(u, RespSpans(args)) == args
    ensures RespSpans(args) != []
  {
    RespRead(args, u);
    hide PrintNat, At, ReadResp;
    var d := PrintNat(|args|);
    AtJoin(u, 0, [STAR], d + ([CR, LF] + EncodeArgs(args)));
    AtJoin(u, 1, d, [CR, LF] + EncodeArgs(args));
    AtJoin(u, 1 + |d|, [CR, LF], EncodeArgs(args));
    SpansHold(u, |d| + 3, args);
  }

  lemma LineRead(args: seq<Bytes>, u: Bytes)
    requires Words(args) && |args| <= MAX_ARGC && args[0][0] != STAR
    requires |u| > |EncodeInline(args)| && At(u, 0, EncodeInline(args))
    ensures Read(u) == Ok(InlineSpans(0, args), |EncodeInline(args)|) && Args(u, InlineSpans(0, args)) == args
    ensures InlineSpans(0, args) != []
  {
    var w := u[..End(u)];
    assert At(w, 0, EncodeInline(args));
    assert Word(args[0]);
    InlineHead(u, 0, args);
    AtFirst(u, 0, args[0]);
    hide At, EncodeInline, ReadInline;
    InlineRead(w, 0, [], args);
    InlineHold(u, 0, args);
    assert [] + InlineSpans(0, args) == InlineSpans(0, args);
  }

  /** A whole request is read back exactly, whatever follows it. */
  lemma WholeRead(r: Request, u: Bytes)
    requires Good(r) && |u| > |Encode(r)| && At(u, 0, Encode(r))
    ensures Read(u) == Ok(Spans(r), |Encode(r)|) && Args(u, Spans(r)) == r.args && Spans(r) != []
  {
    hide At, Read, Args, EncodeResp, EncodeInline, RespSpans, InlineSpans;
    match r
    case Array(args) => ArrayRead(args, u);
    case Line(args) => LineRead(args, u);
  }

  /** A request cut after `c` bytes, with `behind` the byte behind the window. */
  function CutRead(r: Request, c: nat, behind: byte): Parsed
    requires r.args != [] && 0 < c < |Encode(r)|
  {
    match r
    case Array(args) => Verdict(RespCut(args, c), behind)
    case Line(_) => Incomplete
  }

  lemma CutIs(r: Request, c: nat, behind: byte)
    requires Good(r) && 0 < c < |Encode(r)|
    ensures Read(Encode(r)[..c] + [behind]) == CutRead(r, c, behind)
  {
    var e := Encode(r);
    var u := e[..c] + [behind];
    match r
    case Array(args) =>
      assert u[0] == e[0] == STAR;
      RespCutRead(args, c, behind);
    case Line(args) =>
      assert At(e + [0], 0, e);
      WholeRead(r, e + [0]);
      var v := (e + [0])[..End(e + [0])];
      assert v == e && u[..End(u)] == e[..c] && u[0] == e[0] == (e + [0])[0];
      RespStar(e + [0], r);
      InlineStable(e[..c], v, 0, [], None, false);
  }

  lemma RespStar(u: Bytes, r: Request)
    requires Good(r) && r.Line? && |u| > 0 && At(u, 0, Encode(r))
    ensures u[0] != STAR
  {
    InlineHead(u, 0, r.args);
    assert Word(r.args[0]) && u[0 + 0] == r.args[0][0];
  }

  /** GET of the key "a" and QUIT, as clients send them. */
  lemma OnTheWire()
    ensures Encode(Array([[71, 69, 84], [97]]))
            == [42, 50, 13, 10] + [36, 51, 13, 10, 71, 69, 84, 13, 10] + [36, 49, 13, 10, 97, 13, 10]
    ensures Encode(Line([[71, 69, 84], [97]])) == [71, 69, 84, 32, 97, 13, 10]
    ensures Encode(Line([[81, 85, 73, 84]])) == [81, 85, 73, 84, 13, 10]
  {
    var get: Bytes, a: Bytes := [71, 69, 84], [97];
    assert EncodeArgs([]) == [];
    assert [get, a][1..] == [a] && [a][1..] == [];
    assert EncodeArg(get) == [36, 51, 13, 10, 71, 69, 84, 13, 10];
    assert EncodeArg(a) == [36, 49, 13, 10, 97, 13, 10];
    assert EncodeInline([a]) == [97, 13, 10];
  }
}
