/** Decimal text of 64-bit counters: printing, the source's hand-written parser, and sums of increments. */
module Counter {
  import opened Bits

  const WORD: int := 0x1_0000_0000_0000_0000
  const HALF: int := 0x8000_0000_0000_0000

  predicate InRange(v: int) { -HALF <= v < HALF }

  /** Two's-complement reduction to int64_t. */
  function Wrap(v: int): (r: int)
    ensures InRange(r) && (InRange(v) ==> r == v)
  {
    (v + HALF) % WORD - HALF
  }

  lemma WrapShift(v: int, k: int)
    ensures Wrap(v + WORD * k) == Wrap(v)
  {
    var r := (v + HALF) % WORD;
    ModUnique(v + WORD * k + HALF, WORD, (v + HALF) / WORD + k, r);
  }

  /** Reducing early or late makes no difference to a linear step. */
  lemma WrapLinear(v: int, a: int, b: int)
    ensures Wrap(Wrap(v) * a + b) == Wrap(v * a + b)
  {
    var k := (v + HALF) / WORD;
    assert v == Wrap(v) + WORD * k;
    assert v * a + b == Wrap(v) * a + b + WORD * (k * a) by {
      assert v * a == Wrap(v) * a + WORD * k * a;
    }
    WrapShift(Wrap(v) * a + b, k * a);
  }

  // ----- decimal text -----

  const MINUS: byte := 45
  const PLUS: byte := 43
  const ZERO: byte := 48

  predicate IsDigit(c: byte) { 48 <= c <= 57 }

  predicate AllDigits(t: Bytes) { forall i | 0 <= i < |t| :: IsDigit(t[i]) }

  function PrintNat(n: nat): (t: Bytes)
    ensures t != []
  {
    if n < 10 then [ZERO + n] else PrintNat(n / 10) + [ZERO + n % 10]
  }

  /** sprintf of a signed decimal. */
  function Print(v: int): Bytes
  {
    if v < 0 then [MINUS] + PrintNat(-v) else PrintNat(v)
  }

  /** The number a digit string denotes. */
  function Value(t: Bytes): int
  {
    if t == [] then 0 else Value(t[..|t| - 1]) * 10 + (t[|t| - 1] - ZERO)
  }

  lemma {:induction false} PrintNatValue(n: nat)
    ensures AllDigits(PrintNat(n)) && Value(PrintNat(n)) == n
  {
    var t := PrintNat(n);
    if n < 10 {
      assert t[..0] == [];
    } else {
      PrintNatValue(n / 10);
      assert t[..|t| - 1] == PrintNat(n / 10);
    }
  }

  /** Digits are decimal, the first one the most significant. */
  lemma Decimal(d: byte, e: byte, f: byte)
    requires IsDigit(d) && IsDigit(e) && IsDigit(f)
    ensures Value([d, e, f]) == 100 * (d - 48) + 10 * (e - 48) + (f - 48)
  {
    assert [d, e, f][..2] == [d, e] && [d, e][..1] == [d] && [d][..0] == [];
    assert Value([d]) == d - 48 && Value([d, e]) == 10 * (d - 48) + (e - 48);
  }

  // ----- try_parse_signed_integer -----

  /** Length of the sign, decided by the first byte in memory even when the text is empty. */
  function SignLen(buf: Bytes): nat
    requires buf != []
  {
    if buf[0] == MINUS || buf[0] == PLUS then 1 else 0
  }

  predicate Numeral(buf: Bytes, len: nat)
    requires buf != [] && len <= |buf|
  {
    SignLen(buf) <= len && AllDigits(buf[SignLen(buf)..len])
  }

  /** What the text denotes; a bare sign and the empty text denote zero. */
  function Denotes(buf: Bytes, len: nat): int
    requires buf != [] && len <= |buf| && SignLen(buf) <= len
  {
    var v := Value(buf[SignLen(buf)..len]);
    if buf[0] == MINUS then -v else v
  }

  /** A sign belongs to the text when the text is not empty; only '-' negates. */
  lemma SignTells(buf: Bytes, len: nat)
    requires buf != [] && len <= |buf|
    ensures len == 0 ==> (Numeral(buf, len) <==> buf[0] != 45 && buf[0] != 43)
    ensures len == 0 && Numeral(buf, len) ==> Denotes(buf, len) == 0
    ensures len > 0 ==>
      var signed := buf[0] == 45 || buf[0] == 43;
      var digits := if signed then buf[1..len] else buf[..len];
      && (Numeral(buf, len) <==> AllDigits(digits))
      && (Numeral(buf, len) ==> Denotes(buf, len) == if buf[0] == 45 then -Value(digits) else Value(digits))
  {
    assert buf[0..len] == buf[..len];
    if len == 0 && Numeral(buf, len) {
      assert buf[0..0] == [];
    }
  }

  /** The texts clients write: with a plus sign, with a minus sign and without a sign, whatever bytes follow. */
  lemma SignedTexts(d: Bytes, rest: Bytes)
    requires AllDigits(d)
    ensures Numeral([43] + d + rest, 1 + |d|) && Denotes([43] + d + rest, 1 + |d|) == Value(d)
    ensures Numeral([45] + d + rest, 1 + |d|) && Denotes([45] + d + rest, 1 + |d|) == -Value(d)
    ensures d != [] ==> Numeral(d + rest, |d|) && Denotes(d + rest, |d|) == Value(d)
  {
    var plus, minus := [43] + d + rest, [45] + d + rest;
    assert plus[1..1 + |d|] == d && minus[1..1 + |d|] == d;
    if d != [] {
      assert IsDigit((d + rest)[0]);
      assert (d + rest)[..|d|] == d;
      SignTells(d + rest, |d|);
    }
  }

  /** Accepts exactly the numerals, and yields their value reduced to 64 bits: overflow is not detected. */
  method TryParseSignedInteger(buf: Bytes, len: nat) returns (ok: bool, result: int)
    requires buf != [] && len <= |buf|
    ensures ok <==> Numeral(buf, len)
    ensures ok ==> result == Wrap(Denotes(buf, len))
    ensures len > 0 && buf[0] == 45 ==> (ok <==> AllDigits(buf[1..len])) && (ok ==> result == Wrap(-Value(buf[1..len])))
    ensures len > 0 && buf[0] == 43 ==> (ok <==> AllDigits(buf[1..len])) && (ok ==> result == Wrap(Value(buf[1..len])))
    ensures len > 0 && buf[0] != 45 && buf[0] != 43 ==>
              (ok <==> AllDigits(buf[..len])) && (ok ==> result == Wrap(Value(buf[..len])))
    ensures len == 0 ==> (ok <==> buf[0] != 45 && buf[0] != 43) && (ok ==> result == 0)
  {
    SignTells(buf, len);
    var negative, pos := false, 0;
    result := 0;
    if buf[pos] == MINUS || buf[pos] == PLUS {
      if buf[pos] == MINUS {
        negative := true;
      }
      pos := pos + 1;
    }
    ghost var start := pos;
    var res;
    pos, res := ReadDigits(buf, len, pos);
    if pos != len {
      assert pos < len ==> !IsDigit(buf[start..len][pos - start]);
      return false, 0;
    }
    if negative {
      WrapLinear(Value(buf[start..len]), -1, 0);
      res := Wrap(-res);
    }
    return true, res;
  }

  /** Its loop: digits as far as they go, accumulated in 64 bits. */
  method ReadDigits(buf: Bytes, len: nat, start: nat) returns (pos: nat, res: int)
    requires len <= |buf|
    ensures start <= pos && (pos < len ==> !IsDigit(buf[pos]))
    ensures if start <= len then pos <= len && AllDigits(buf[start..pos]) && res == Wrap(Value(buf[start..pos]))
            else pos == start
  {
    hide Wrap, Value;
    pos, res := start, 0;
    if start <= len {
      WrapNothing(buf[start..start]);
    }
    while pos < len && IsDigit(buf[pos])
      invariant start <= pos && (pos <= len || pos == start)
      invariant pos <= len ==> AllDigits(buf[start..pos]) && res == Wrap(Value(buf[start..pos]))
    {
      OneMore(buf, start, pos);
      WrapLinear(Value(buf[start..pos]), 10, buf[pos] - ZERO);
      res := Wrap(res * 10 + (buf[pos] - ZERO));
      pos := pos + 1;
    }
  }

  lemma WrapNothing(t: Bytes)
    requires t == []
    ensures Wrap(Value(t)) == 0
  {
  }

  lemma OneMore(buf: Bytes, start: nat, pos: nat)
    requires start <= pos < |buf| && AllDigits(buf[start..pos]) && IsDigit(buf[pos])
    ensures AllDigits(buf[start..pos + 1])
    ensures Value(buf[start..pos + 1]) == Value(buf[start..pos]) * 10 + (buf[pos] - ZERO)
  {
    assert buf[start..pos + 1] == buf[start..pos] + [buf[pos]];
  }

  /** A printed number reads back as the number it denotes, whatever bytes follow; what the parser makes of it is that
      number exactly when it fits 64 bits. Larger ones are accepted all the same. */
  lemma ParsePrinted(v: int, rest: Bytes)
    ensures Numeral(Print(v) + rest, |Print(v)|) && Denotes(Print(v) + rest, |Print(v)|) == v
    ensures Wrap(Denotes(Print(v) + rest, |Print(v)|)) == v <==> InRange(v)
  {
    var t := Print(v);
    var buf := t + rest;
    assert buf[0] == t[0];
    if v < 0 {
      PrintNatValue(-v);
      assert buf[1..|t|] == PrintNat(-v);
    } else {
      PrintNatValue(v);
      assert IsDigit(t[0]);
      assert buf[0..|t|] == PrintNat(v);
    }
  }

  // ----- the text of a number -----

  /** Decimal text without superfluous zeros or signs. */
  predicate Canonical(t: Bytes)
  {
    || t == [48]
    || (t != [] && t[0] != 48 && AllDigits(t))
    || (|t| > 1 && t[0] == 45 && t[1] != 48 && AllDigits(t[1..]))
  }

  lemma {:induction false} PrintNatOf(t: Bytes)
    requires t != [] && AllDigits(t) && t[0] != 48
    ensures Value(t) > 0 && PrintNat(Value(t)) == t
    decreases |t|
  {
    var front, d := t[..|t| - 1], t[|t| - 1] - 48;
    assert t == front + [t[|t| - 1]];
    if front == [] {
      assert Value(t) == d;
    } else {
      PrintNatOf(front);
      assert Value(t) == Value(front) * 10 + d;
      assert Value(t) / 10 == Value(front) && Value(t) % 10 == d;
    }
  }

  lemma {:induction false} PrintNatHead(n: nat)
    requires n > 0
    ensures PrintNat(n)[0] != 48
  {
    if n >= 10 {
      PrintNatHead(n / 10);
      assert PrintNat(n)[0] == PrintNat(n / 10)[0];
    }
  }

  lemma CanonicalIs(t: Bytes)
    requires Canonical(t)
    ensures Print(Denotes(t, |t|)) == t
  {
    SignTells(t, |t|);
    assert t[..|t|] == t && t[1..|t|] == t[1..];
    if t == [48] {
      assert Value(t) == Value(t[..0]) * 10;
    } else if t[0] == 45 {
      PrintNatOf(t[1..]);
      assert t == [45] + t[1..];
    } else {
      PrintNatOf(t);
    }
  }

  /** The text of `v` is the one canonical text that denotes it. */
  lemma PrintExactly(v: int, t: Bytes)
    ensures t == Print(v) <==> Canonical(t) && Denotes(t, |t|) == v
  {
    hide Print, Denotes, AllDigits;
    PrintForm(v);
    if Canonical(t) {
      CanonicalIs(t);
    }
  }

  lemma PrintForm(v: int)
    ensures Canonical(Print(v)) && Denotes(Print(v), |Print(v)|) == v
  {
    ParsePrinted(v, []);
    assert Print(v) + [] == Print(v);
    if v != 0 {
      var n := if v < 0 then -v else v;
      PrintNatHead(n);
      PrintNatValue(n);
      assert v < 0 ==> Print(v)[1..] == PrintNat(n);
    }
  }
}
