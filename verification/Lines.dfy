/** What the inline form means, for any bytes: the words of a line, and the verdict on it. */
module Lines {
  import opened Bits
  import opened Protocol

  /** Space, CR and LF. */
  predicate Blank(c: byte) { c == 32 || c == 13 || c == 10 }

  /** The bytes of `s` are a word of the first `e` bytes, and no longer run of non-blank bytes contains them. */
  ghost predicate MaximalRun(w: Bytes, e: nat, s: Span)
  {
    && 0 < s.len && s.offset + s.len <= e <= |w|
    && (forall j | s.offset <= j < s.offset + s.len :: !Blank(w[j]))
    && (s.offset == 0 || Blank(w[s.offset - 1]))
    && (s.offset + s.len == e || Blank(w[s.offset + s.len]))
  }

  predicate Within(s: Span, j: nat) { s.offset <= j < s.offset + s.len }

  /** `spans` are all words of the first `e` bytes, in order. */
  ghost predicate AllWords(w: Bytes, e: nat, spans: seq<Span>)
  {
    && (forall i | 0 <= i < |spans| :: MaximalRun(w, e, spans[i]))
    && (forall i, k | 0 <= i < k < |spans| :: spans[i].offset + spans[i].len < spans[k].offset)
    && (forall j: nat | j < e && j < |w| && !Blank(w[j]) :: exists i | 0 <= i < |spans| :: Within(spans[i], j))
  }

  predicate WordStarts(w: Bytes, j: nat)
    requires j < |w|
  {
    !Blank(w[j]) && (j == 0 || Blank(w[j - 1]))
  }

  /** How many words start among the first `e` bytes. */
  function Starts(w: Bytes, e: nat): nat
    requires e <= |w|
  {
    if e == 0 then 0 else Starts(w, e - 1) + if WordStarts(w, e - 1) then 1 else 0
  }

  /** Place of the first LF, the length of the text if there is none. */
  ghost predicate LineEnds(w: Bytes, e: nat)
  {
    && e <= |w|
    && (forall j | 0 <= j < e :: w[j] != 10)
    && (e < |w| ==> w[e] == 10)
  }

  predicate Seen(w: Bytes, e: nat, c: byte)
    requires e <= |w|
  {
    c in w[..e]
  }

  /** The verdict on the bytes of a window: too many words decide first, then a missing LF, then a missing CR before
      the LF. Otherwise the line's words are the arguments. */
  ghost predicate LineIs(w: Bytes, r: Parsed)
  {
    exists e: nat | LineEnds(w, e) :: EndedLineIs(w, e, r)
  }

  ghost predicate EndedLineIs(w: Bytes, e: nat, r: Parsed)
    requires e <= |w|
  {
    && (r == BadArgc <==> Starts(w, e) > 64)
    && (r == Incomplete <==> Starts(w, e) <= 64 && e == |w|)
    && (r == Error <==> Starts(w, e) <= 64 && e < |w| && !Seen(w, e, 13))
    && (r.Ok? <==> Starts(w, e) <= 64 && e < |w| && Seen(w, e, 13))
    && (r.Ok? ==> r.len == e + 1 && AllWords(w, e, r.spans))
  }

  // ----- the loop finds them -----

  /** The loop at position `i`: the words closed so far, and the one being read. */
  ghost predicate At(w: Bytes, i: nat, spans: seq<Span>, open: Option<nat>, crlf: bool)
  {
    && i <= |w| && !Seen(w, i, 10) && (crlf <==> Seen(w, i, 13))
    && Starts(w, i) == |spans| + (if open.Some? then 1 else 0) <= 64
    && match open
       case None => (i == 0 || Blank(w[i - 1])) && AllWords(w, i, spans)
       case Some(o) => Open(w, o, i) && AllWords(w, o, spans)
  }

  ghost predicate Open(w: Bytes, o: nat, i: nat)
  {
    && o < i <= |w| && (o == 0 || Blank(w[o - 1]))
    && forall j | o <= j < i :: !Blank(w[j])
  }

  lemma Closes(w: Bytes, o: nat, i: nat, spans: seq<Span>)
    requires Open(w, o, i) && AllWords(w, o, spans) && (i < |w| ==> Blank(w[i]))
    ensures AllWords(w, i, spans + [Span(o, i - o)])
  {
    var all := spans + [Span(o, i - o)];
    forall k | 0 <= k < |spans|
      ensures spans[k].offset + spans[k].len < o
    {
      assert MaximalRun(w, o, spans[k]);
      assert !Blank(w[spans[k].offset + spans[k].len - 1]);
    }
    forall k | 0 <= k < |all|
      ensures MaximalRun(w, i, all[k])
    {
      assert k < |spans| ==> MaximalRun(w, o, spans[k]);
    }
    forall j: nat | j < i && !Blank(w[j])
      ensures exists k | 0 <= k < |all| :: Within(all[k], j)
    {
      if j < o {
        var k :| 0 <= k < |spans| && Within(spans[k], j);
        assert all[k] == spans[k];
      } else {
        assert Within(all[|spans|], j);
      }
    }
  }

  lemma Skips(w: Bytes, i: nat, spans: seq<Span>)
    requires i < |w| && Blank(w[i]) && AllWords(w, i, spans)
    ensures AllWords(w, i + 1, spans)
  {
    forall k | 0 <= k < |spans|
      ensures MaximalRun(w, i + 1, spans[k])
    {
      assert MaximalRun(w, i, spans[k]);
    }
  }

  lemma {:induction false} StartsGrow(w: Bytes, i: nat, e: nat)
    requires i <= e <= |w|
    ensures Starts(w, i) <= Starts(w, e)
    decreases e - i
  {
    if i < e {
      StartsGrow(w, i, e - 1);
    }
  }

  lemma TakeMore(w: Bytes, i: nat, c: byte)
    requires i < |w|
    ensures Seen(w, i + 1, c) <==> Seen(w, i, c) || w[i] == c
  {
    assert w[..i + 1] == w[..i] + [w[i]];
  }

  /** The words with the one being read. */
  function Closed(i: nat, spans: seq<Span>, open: Option<nat>): seq<Span>
    requires open.Some? ==> open.value <= i
  {
    if open.Some? then spans + [Span(open.value, i - open.value)] else spans
  }

  /** A space or a CR closes the word being read. */
  lemma BlankStep(w: Bytes, i: nat, spans: seq<Span>, open: Option<nat>, crlf: bool)
    requires i < |w| && At(w, i, spans, open, crlf) && Blank(w[i])
    ensures open.Some? ==> open.value <= i
    ensures var closed := Closed(i, spans, open);
      && AllWords(w, i, closed) && Starts(w, i) == |closed|
      && (w[i] != 10 ==> At(w, i + 1, closed, None, crlf || w[i] == 13))
  {
    if open.Some? {
      Closes(w, open.value, i, spans);
    }
    var closed := Closed(i, spans, open);
    Skips(w, i, closed);
    TakeMore(w, i, 10);
    TakeMore(w, i, 13);
  }

  /** Any other byte opens a word or goes on with it. */
  lemma WordStep(w: Bytes, i: nat, spans: seq<Span>, open: Option<nat>, crlf: bool)
    requires i < |w| && At(w, i, spans, open, crlf) && !Blank(w[i])
    ensures open.Some? ==> At(w, i + 1, spans, open, crlf)
    ensures open.None? && |spans| < 64 ==> At(w, i + 1, spans, Some(i), crlf)
    ensures open.None? ==> Starts(w, i + 1) == |spans| + 1
  {
    TakeMore(w, i, 10);
    TakeMore(w, i, 13);
  }

  lemma AtFacts(w: Bytes, i: nat, spans: seq<Span>, open: Option<nat>, crlf: bool)
    requires At(w, i, spans, open, crlf)
    ensures open.Some? ==> open.value <= i
    ensures i <= |w| && Starts(w, i) <= 64 && (crlf <==> Seen(w, i, 13))
  {
    hide AllWords, Starts;
  }

  lemma ReadStop(w: Bytes, i: nat, spans: seq<Span>, open: Option<nat>, crlf: bool)
    requires i <= |w| && (open.Some? ==> open.value <= i) && (i < |w| ==> w[i] == 10)
    ensures ReadInline(w, i, spans, open, crlf)
            == if i == |w| then Incomplete else if crlf then Ok(Closed(i, spans, open), i + 1) else Error
  {
  }

  lemma Verdict(w: Bytes, i: nat, words: seq<Span>, crlf: bool)
    requires i <= |w| && Starts(w, i) <= 64 && (crlf <==> Seen(w, i, 13)) && (i < |w| ==> AllWords(w, i, words))
    ensures EndedLineIs(w, i, if i == |w| then Incomplete else if crlf then Ok(words, i + 1) else Error)
  {
    hide Starts, Seen, AllWords;
  }

  /** The window ends before any LF, or the loop stands at the first one. */
  lemma LineStops(w: Bytes, i: nat, spans: seq<Span>, open: Option<nat>, crlf: bool)
    requires At(w, i, spans, open, crlf) && LineEnds(w, i)
    ensures open.Some? ==> open.value <= i
    ensures EndedLineIs(w, i, ReadInline(w, i, spans, open, crlf))
  {
    AtFacts(w, i, spans, open, crlf);
    ReadStop(w, i, spans, open, crlf);
    if i < |w| {
      BlankStep(w, i, spans, open, crlf);
    }
    hide *;
    Verdict(w, i, Closed(i, spans, open), crlf);
  }

  lemma TooMany(w: Bytes, i: nat, spans: seq<Span>, crlf: bool, e: nat)
    requires At(w, i, spans, None, crlf) && LineEnds(w, e) && i < e && !Blank(w[i]) && |spans| == 64
    ensures ReadInline(w, i, spans, None, crlf) == BadArgc && EndedLineIs(w, e, BadArgc)
  {
    WordStep(w, i, spans, None, crlf);
    StartsGrow(w, i + 1, e);
  }

  lemma {:induction false} LineFrom(w: Bytes, i: nat, spans: seq<Span>, open: Option<nat>, crlf: bool, e: nat)
    requires At(w, i, spans, open, crlf) && LineEnds(w, e) && i <= e
    ensures open.Some? ==> open.value <= i
    ensures EndedLineIs(w, e, ReadInline(w, i, spans, open, crlf))
    decreases |w| - i
  {
    hide AllWords, EndedLineIs, Starts;
    if i == e {
      LineStops(w, i, spans, open, crlf);
    } else if Blank(w[i]) {
      assert w[i] != 10;
      BlankStep(w, i, spans, open, crlf);
      LineFrom(w, i + 1, Closed(i, spans, open), None, crlf || w[i] == 13, e);
    } else {
      WordStep(w, i, spans, open, crlf);
      if open.Some? {
        LineFrom(w, i + 1, spans, open, crlf, e);
      } else if |spans| < 64 {
        LineFrom(w, i + 1, spans, Some(i), crlf, e);
      } else {
        TooMany(w, i, spans, crlf, e);
      }
    }
  }

  lemma {:induction false} EndExists(w: Bytes, i: nat) returns (e: nat)
    requires i <= |w| && !Seen(w, i, 10)
    ensures i <= e && LineEnds(w, e)
    decreases |w| - i
  {
    if i == |w| || w[i] == 10 {
      forall j | 0 <= j < i
        ensures w[j] != 10
      {
        assert w[j] == w[..i][j];
      }
      e := i;
    } else {
      TakeMore(w, i, 10);
      e := EndExists(w, i + 1);
    }
  }

  /** The reading of any bytes whatever: the arguments are exactly the maximal runs of non-blank bytes before the
      first LF, in order. */
  lemma LineReading(w: Bytes)
    ensures LineIs(w, ReadInline(w, 0, [], None, false))
  {
    var e := EndExists(w, 0);
    LineFrom(w, 0, [], None, false, e);
  }

  // ----- and nothing else would do -----

  lemma OneEnd(w: Bytes, e: nat, f: nat)
    requires LineEnds(w, e) && LineEnds(w, f)
    ensures e == f
  {
  }

  /** The word at position `j` is determined. */
  lemma OneRun(w: Bytes, e: nat, s: Span, t: Span, j: nat)
    requires MaximalRun(w, e, s) && MaximalRun(w, e, t) && Within(s, j) && Within(t, j)
    ensures s == t
  {
  }

  lemma Contained(w: Bytes, e: nat, a: seq<Span>, b: seq<Span>, s: Span)
    requires AllWords(w, e, a) && AllWords(w, e, b) && s in a
    ensures s in b
  {
    var k :| 0 <= k < |a| && a[k] == s;
    assert MaximalRun(w, e, a[k]) && !Blank(w[s.offset]);
    var i :| 0 <= i < |b| && Within(b[i], s.offset);
    OneRun(w, e, s, b[i], s.offset);
  }

  predicate Ascending(a: seq<Span>) { forall i, k | 0 <= i < k < |a| :: a[i].offset < a[k].offset }

  lemma WordsAscend(w: Bytes, e: nat, a: seq<Span>)
    requires AllWords(w, e, a)
    ensures Ascending(a)
  {
  }

  lemma LastIn(a: seq<Span>, b: seq<Span>)
    requires a != [] && b != [] && Ascending(a) && Ascending(b) && (forall s :: s in a <==> s in b)
    ensures a[|a| - 1] == b[|b| - 1]
  {
    var x, y := a[|a| - 1], b[|b| - 1];
    assert x in b && y in a;
  }

  lemma InFront(a: seq<Span>, s: Span)
    requires a != [] && Ascending(a)
    ensures s in a[..|a| - 1] <==> s in a && s != a[|a| - 1]
  {
    var f, x := a[..|a| - 1], a[|a| - 1];
    assert a == f + [x];
    if s in f {
      var i :| 0 <= i < |f| && f[i] == s;
      assert a[i].offset < a[|a| - 1].offset;
    }
  }

  lemma HeadIn(b: seq<Span>)
    requires b != []
    ensures b[0] in b
  {
  }

  lemma {:induction false} SameSpans(a: seq<Span>, b: seq<Span>)
    requires Ascending(a) && Ascending(b) && (forall s :: s in a <==> s in b)
    ensures a == b
    decreases |a|
  {
    if a == [] {
      if b != [] {
        HeadIn(b);
        assert false;
      }
    } else {
      assert a[0] in b;
      LastIn(a, b);
      var f, g := a[..|a| - 1], b[..|b| - 1];
      assert Ascending(f) && Ascending(g);
      forall s
        ensures s in f <==> s in g
      {
        InFront(a, s);
        InFront(b, s);
      }
      hide Ascending;
      SameSpans(f, g);
      assert a == f + [a[|a| - 1]];
      assert b == g + [b[|b| - 1]];
    }
  }

  /** The words of a text are determined, and so is the verdict on a window. */
  lemma OneReading(w: Bytes, r: Parsed, s: Parsed)
    requires LineIs(w, r) && LineIs(w, s)
    ensures r == s
  {
    var e: nat :| LineEnds(w, e) && EndedLineIs(w, e, r);
    var f: nat :| LineEnds(w, f) && EndedLineIs(w, f, s);
    OneEnd(w, e, f);
    if r.Ok? {
      forall x
        ensures x in r.spans <==> x in s.spans
      {
        if x in r.spans {
          Contained(w, e, r.spans, s.spans, x);
        } else if x in s.spans {
          Contained(w, e, s.spans, r.spans, x);
        }
      }
      WordsAscend(w, e, r.spans);
      WordsAscend(w, e, s.spans);
      SameSpans(r.spans, s.spans);
    }
  }
}
