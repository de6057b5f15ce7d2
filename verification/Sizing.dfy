/** Capacity bookkeeping of the hash map: thresholds, growth, shrinking, and the cost of rehashing over whole runs. */
module Sizing {
  import opened Bits

  const MIN_CAP: nat := 16

  datatype Shape = Shape(nbuckets: nat, cap: nat, count: nat, growat: nat, shrinkat: nat, growpower: nat) {

    /** What every reachable table satisfies. */
    ghost predicate Ok() {
      && IsPow2(nbuckets) && IsPow2(cap) && MIN_CAP <= cap <= nbuckets
      && (growat == GrowAt(nbuckets) || growat == ClearedGrowAt(nbuckets))
      && shrinkat == ShrinkAt(nbuckets)
      && count <= growat
      && 1 <= growpower <= 16
    }
  }

  function GrowAt(n: nat): nat { 6 * n / 10 }

  function ShrinkAt(n: nat): nat { n / 10 }

  function ClearedGrowAt(n: nat): nat { 3 * n / 4 }

  /** The capacity a new table gets when `want` is requested. */
  function RoundUp(want: nat): nat
  {
    Doubled(MIN_CAP, want)
  }

  function Doubled(from: nat, want: nat): nat
    decreases if from == 0 then 0 else want - from
  {
    if from == 0 || from >= want then from else Doubled(2 * from, want)
  }

  /** `RoundUp` is the least power of two that is at least 16 and at least the request. */
  lemma RoundUpLeast(want: nat)
    ensures IsPow2(RoundUp(want)) && RoundUp(want) >= MIN_CAP && RoundUp(want) >= want
    ensures forall p: nat | IsPow2(p) && p >= MIN_CAP && p >= want :: RoundUp(want) <= p
  {
    assert IsPow2(MIN_CAP);
    forall p: nat | IsPow2(p) && p >= MIN_CAP && p >= want
      ensures RoundUp(want) <= p
    {
      DoubledLeast(MIN_CAP, want, p);
    }
    DoubledReaches(MIN_CAP, want);
  }

  lemma {:induction false} DoubledReaches(from: nat, want: nat)
    requires IsPow2(from)
    ensures IsPow2(Doubled(from, want)) && Doubled(from, want) >= from && Doubled(from, want) >= want
    decreases want - from
  {
    if from < want {
      Pow2Double(from);
      DoubledReaches(2 * from, want);
    }
  }

  lemma {:induction false} DoubledLeast(from: nat, want: nat, p: nat)
    requires IsPow2(from) && IsPow2(p) && from <= p && want <= p
    ensures Doubled(from, want) <= p
    decreases want - from
  {
    if from < want {
      NoPow2Between(from, p);
      Pow2Double(from);
      DoubledLeast(2 * from, want, p);
    }
  }

  lemma RoundUpExact(n: nat)
    requires IsPow2(n) && n >= MIN_CAP
    ensures RoundUp(n) == n
  {
    RoundUpLeast(n);
  }

  function NewShape(want: nat): Shape
  {
    var n := RoundUp(want);
    Shape(n, n, 0, GrowAt(n), ShrinkAt(n), 1)
  }

  /** Thresholds after moving into `n` buckets; `cap` and `growpower` stay. */
  function Rehashed(s: Shape, n: nat): Shape
  {
    s.(nbuckets := n, growat := GrowAt(n), shrinkat := ShrinkAt(n))
  }

  /** Result of one call: the new shape, how many items a rehash moved, whether the call failed for lack of memory. */
  datatype Effect = Effect(shape: Shape, moved: nat, oom: bool)

  function Inserted(s: Shape, present: bool): Shape
  {
    if present then s else s.(count := s.count + 1)
  }

  /** A set that finds the threshold reached moves into `1 << growpower` times as many buckets. */
  function Grown(s: Shape): Shape
  {
    Rehashed(s, s.nbuckets * Pow2(s.growpower))
  }

  function SetEffect(s: Shape, present: bool, allocOk: bool): Effect
  {
    if s.count != s.growat then Effect(Inserted(s, present), 0, false)
    else if !allocOk then Effect(s, 0, true)
    else Effect(Inserted(Grown(s), present), s.count, false)
  }

  function DeleteEffect(s: Shape, present: bool, allocOk: bool): Effect
  {
    if !present || s.count == 0 then Effect(s, 0, false)
    else
      var d := s.(count := s.count - 1);
      if d.nbuckets > d.cap && d.count <= d.shrinkat && allocOk
      then Effect(Rehashed(d, d.nbuckets / 2), d.count, false)
      else Effect(d, 0, false)
  }

  function ClearEffect(s: Shape, updateCap: bool): Effect
  {
    var n := if updateCap then s.nbuckets else s.cap;
    Effect(s.(cap := if updateCap then n else s.cap, nbuckets := n, count := 0,
              growat := ClearedGrowAt(n), shrinkat := ShrinkAt(n)), 0, false)
  }

  // ----- every step keeps the load below capacity -----

  lemma NewOk(want: nat)
    ensures NewShape(want).Ok()
  {
    RoundUpLeast(want);
  }

  lemma GrowTarget(n: nat, power: nat)
    requires IsPow2(n) && n >= MIN_CAP && power >= 1
    ensures IsPow2(n * Pow2(power)) && n * Pow2(power) >= 2 * n
    ensures GrowAt(n * Pow2(power)) > ClearedGrowAt(n)
  {
    hide GrowAt, ClearedGrowAt;
    Pow2Double(n);
    Pow2Product(2 * n, power - 1);
    TwiceTimes(n, Pow2(power - 1), Pow2(power));
    TwiceRoom(n, n * Pow2(power));
  }

  lemma TwiceRoom(n: nat, q: nat)
    requires n >= MIN_CAP && q >= 2 * n
    ensures GrowAt(q) > ClearedGrowAt(n)
  {
  }

  lemma TwiceTimes(n: nat, p: nat, q: nat)
    requires q == 2 * p
    ensures n * q == (2 * n) * p
  {
  }

  lemma HalfTarget(s: Shape)
    requires s.Ok() && s.nbuckets > s.cap
    ensures IsPow2(s.nbuckets / 2) && s.nbuckets / 2 >= s.cap && s.shrinkat <= GrowAt(s.nbuckets / 2)
  {
    NoPow2Between(s.cap, s.nbuckets);
    Pow2Double(s.nbuckets);
    assert s.nbuckets % 2 == 0;
  }

  lemma SetKeepsOk(s: Shape, present: bool, allocOk: bool)
    requires s.Ok()
    ensures SetEffect(s, present, allocOk).shape.Ok()
  {
    GrowTarget(s.nbuckets, s.growpower);
  }

  /** A set is an optional growth followed by an insertion. */
  lemma SetSplit(s: Shape, present: bool, allocOk: bool)
    ensures s.count == s.growat && !allocOk ==> SetEffect(s, present, allocOk) == Effect(s, 0, true)
    ensures s.count == s.growat && allocOk ==>
              SetEffect(s, present, allocOk) == Effect(Inserted(Grown(s), present), s.count, false)
    ensures s.count != s.growat ==> SetEffect(s, present, allocOk) == Effect(Inserted(s, present), 0, false)
  {
  }

  lemma DeleteKeepsOk(s: Shape, present: bool, allocOk: bool)
    requires s.Ok()
    ensures DeleteEffect(s, present, allocOk).shape.Ok()
  {
    if s.nbuckets > s.cap {
      HalfTarget(s);
    }
  }

  lemma ClearKeepsOk(s: Shape, updateCap: bool)
    requires s.Ok()
    ensures var n := if updateCap then s.nbuckets else s.cap;
      && ClearEffect(s, updateCap).shape.Ok()
      && ClearEffect(s, updateCap).shape == Shape(n, n, 0, 3 * n / 4, n / 10, s.growpower)
  {
  }

  lemma CountDown(s: Shape)
    requires s.Ok() && s.count > 0
    ensures s.(count := s.count - 1).Ok()
  {
  }

  /** A delete is a decrement followed by an optional halving. */
  lemma DeleteSplit(s: Shape, allocOk: bool)
    requires s.Ok()
    ensures DeleteEffect(s, false, allocOk).shape == s
    ensures s.count > 0 ==>
      var d := s.(count := s.count - 1);
      d.Ok() && DeleteEffect(s, true, allocOk).shape
                == if d.nbuckets > d.cap && d.count <= d.shrinkat && allocOk then Rehashed(d, d.nbuckets / 2) else d
  {
  }

  // ----- the cost of rehashing -----

  datatype Call =
    | SetCall(present: bool, allocOk: bool)
    | DeleteCall(present: bool, allocOk: bool)
    | ClearCall(updateCap: bool)

  function Do(s: Shape, c: Call): Effect
  {
    match c
    case SetCall(present, allocOk) => SetEffect(s, present, allocOk)
    case DeleteCall(present, allocOk) => DeleteEffect(s, present, allocOk)
    case ClearCall(updateCap) => ClearEffect(s, updateCap)
  }

  function After(s: Shape, run: seq<Call>): Shape
    decreases |run|
  {
    if run == [] then s else After(Do(s, run[0]).shape, run[1..])
  }

  /** Items moved by all rehashes of a run. */
  function Moves(s: Shape, run: seq<Call>): nat
    decreases |run|
  {
    if run == [] then 0 else Do(s, run[0]).moved + Moves(Do(s, run[0]).shape, run[1..])
  }

  function Updates(run: seq<Call>): nat
  {
    if run == [] then 0 else (if run[0].ClearCall? then 0 else 1) + Updates(run[1..])
  }

  lemma DoKeepsOk(s: Shape, c: Call)
    requires s.Ok()
    ensures Do(s, c).shape.Ok() && Do(s, c).shape.growpower == s.growpower
  {
    match c
    case SetCall(present, allocOk) => SetKeepsOk(s, present, allocOk);
    case DeleteCall(present, allocOk) => DeleteKeepsOk(s, present, allocOk);
    case ClearCall(_) =>
  }

  /** Every shape a run reaches is sound: powers of two of at least 16, and always at least one bucket spare. */
  lemma {:induction false} ReachableOk(s: Shape, run: seq<Call>)
    requires s.Ok()
    ensures After(s, run).Ok() && After(s, run).count < After(s, run).nbuckets
    decreases |run|
  {
    if run != [] {
      DoKeepsOk(s, run[0]);
      ReachableOk(Do(s, run[0]).shape, run[1..]);
    }
  }

  function Pos(x: int): nat { if x < 0 then 0 else x }

  /** Credit saved towards the next growth and the next shrink. */
  function Credit(s: Shape): nat
  {
    Pos(3 * s.count - 2 * GrowAt(s.nbuckets)) + if s.nbuckets > s.cap then Pos(s.nbuckets / 5 - s.count) else 0
  }

  lemma SetPays(s: Shape, present: bool, allocOk: bool)
    requires s.Ok() && s.growpower == 1
    ensures var e := SetEffect(s, present, allocOk); e.moved + Credit(e.shape) <= Credit(s) + 3
  {
    assert Pow2(0) == 1 && Pow2(1) == 2;
  }

  lemma DeletePays(s: Shape, present: bool, allocOk: bool)
    requires s.Ok()
    ensures var e := DeleteEffect(s, present, allocOk); e.moved + Credit(e.shape) <= Credit(s) + 3
  {
    if s.nbuckets > s.cap {
      HalfTarget(s);
      assert s.nbuckets == 2 * (s.nbuckets / 2);
    }
  }

  lemma ClearPays(s: Shape, updateCap: bool)
    requires s.Ok()
    ensures Credit(ClearEffect(s, updateCap).shape) == 0
  {
  }

  lemma {:induction false} MovesBounded(s: Shape, run: seq<Call>)
    requires s.Ok() && s.growpower == 1
    ensures Moves(s, run) + Credit(After(s, run)) <= Credit(s) + 3 * Updates(run)
    decreases |run|
  {
    if run != [] {
      var c := run[0];
      DoKeepsOk(s, c);
      MovesBounded(Do(s, c).shape, run[1..]);
      match c
      case SetCall(present, allocOk) => SetPays(s, present, allocOk);
      case DeleteCall(present, allocOk) => DeletePays(s, present, allocOk);
      case ClearCall(updateCap) => ClearPays(s, updateCap);
    }
  }

  /** Rehashing is linear: from a new table, any mix of set, delete and clear calls, with any allocation failures,
      moves at most three items per set or delete. */
  lemma RehashingIsLinear(want: nat, run: seq<Call>)
    ensures Moves(NewShape(want), run) <= 3 * Updates(run)
  {
    NewOk(want);
    MovesBounded(NewShape(want), run);
  }

  /** Calls that must still happen before the next rehash. */
  function Gap(s: Shape): int
  {
    var grow := s.growat - s.count + 1;
    var shrink := s.count - s.shrinkat;
    if s.nbuckets > s.cap && shrink < grow then shrink else grow
  }

  ghost predicate Allocates(c: Call)
  {
    c.ClearCall? || c.allocOk
  }

  /** Above its floor capacity the table is never sparse enough to shrink. */
  ghost predicate Dense(s: Shape)
  {
    s.Ok() && s.growpower == 1 && (s.nbuckets > s.cap ==> s.count > s.shrinkat)
  }

  /** One call spends at most its own update of the gap; a rehash spends the last of it and opens a new one. */
  ghost predicate Spends(s: Shape, t: Shape, updates: nat)
  {
    && Dense(t)
    && (t.nbuckets == s.nbuckets ==> Gap(t) + updates >= Gap(s))
    && (t.nbuckets != s.nbuckets ==> Gap(t) >= t.nbuckets / 10 && Gap(s) <= 1 <= updates)
  }

  lemma GrowSpends(s: Shape, present: bool)
    requires Dense(s) && s.count == s.growat
    ensures Spends(s, SetEffect(s, present, true).shape, 1)
  {
    assert Pow2(0) == 1 && Pow2(1) == 2;
    SetKeepsOk(s, present, true);
    assert SetEffect(s, present, true).shape.nbuckets == 2 * s.nbuckets;
  }

  lemma SetSpends(s: Shape, present: bool)
    requires Dense(s)
    ensures Spends(s, SetEffect(s, present, true).shape, 1)
  {
    if s.count == s.growat {
      GrowSpends(s, present);
    }
  }

  lemma DeleteSpends(s: Shape, present: bool)
    requires Dense(s)
    ensures Spends(s, DeleteEffect(s, present, true).shape, 1)
  {
    DeleteKeepsOk(s, present, true);
    if s.nbuckets > s.cap {
      HalfTarget(s);
      assert s.nbuckets == 2 * (s.nbuckets / 2);
    }
  }

  lemma DoSpends(s: Shape, c: Call)
    requires Dense(s) && Allocates(c)
    ensures Dense(Do(s, c).shape)
    ensures (c == ClearCall(false) ==> s.nbuckets == s.cap) ==> Spends(s, Do(s, c).shape, Updates([c]))
  {
    match c
    case SetCall(present, _) => SetSpends(s, present);
    case DeleteCall(present, _) => DeleteSpends(s, present);
    case ClearCall(_) =>
  }

  lemma {:induction false} DenseRun(s: Shape, run: seq<Call>)
    requires Dense(s) && forall i | 0 <= i < |run| :: Allocates(run[i])
    ensures Dense(After(s, run))
    decreases |run|
  {
    if run != [] {
      DoSpends(s, run[0]);
      DenseRun(Do(s, run[0]).shape, run[1..]);
    }
  }

  /** No call of the run but its last changes the number of buckets. */
  ghost predicate RehashesLast(s: Shape, run: seq<Call>)
    decreases |run|
  {
    && run != []
    && (run[0] == ClearCall(false) ==> s.nbuckets == s.cap)
    && if |run| == 1 then Do(s, run[0]).shape.nbuckets != s.nbuckets
       else Do(s, run[0]).shape.nbuckets == s.nbuckets && RehashesLast(Do(s, run[0]).shape, run[1..])
  }

  lemma {:induction false} GapHolds(s: Shape, run: seq<Call>)
    requires Dense(s) && RehashesLast(s, run)
    requires forall i | 0 <= i < |run| :: Allocates(run[i])
    ensures Updates(run) >= Gap(s)
    decreases |run|
  {
    DoSpends(s, run[0]);
    UpdatesCons(run);
    hide Gap, Do, Dense, Updates;
    if |run| > 1 {
      GapHolds(Do(s, run[0]).shape, run[1..]);
    }
  }

  lemma UpdatesCons(run: seq<Call>)
    requires run != []
    ensures Updates(run) == Updates([run[0]]) + Updates(run[1..])
  {
  }

  /** Rehashes are spaced: when call `c` of a run of successful calls rehashes into `m` buckets, at least `m / 10`
      set or delete calls are needed to reach the next rehash, unless a clear first drops back to the floor capacity. */
  lemma RehashesAreSpaced(want: nat, before: seq<Call>, c: Call, next: seq<Call>)
    requires forall i | 0 <= i < |before| :: Allocates(before[i])
    requires forall i | 0 <= i < |next| :: Allocates(next[i])
    requires Allocates(c) && !c.ClearCall?
    requires var s := After(NewShape(want), before);
             && Do(s, c).shape.nbuckets != s.nbuckets
             && RehashesLast(Do(s, c).shape, next)
    ensures Updates(next) >= Do(After(NewShape(want), before), c).shape.nbuckets / 10
  {
    NewOk(want);
    DenseRun(NewShape(want), before);
    var s := After(NewShape(want), before);
    DoSpends(s, c);
    GapHolds(Do(s, c).shape, next);
  }

  // ----- the thresholds as bounds -----

  ghost predicate SixTenths(t: Shape) { 10 * t.growat <= 6 * t.nbuckets < 10 * (t.growat + 1) }

  ghost predicate ThreeQuarters(t: Shape) { 4 * t.growat <= 3 * t.nbuckets < 4 * (t.growat + 1) }

  ghost predicate OneTenth(t: Shape) { 10 * t.shrinkat <= t.nbuckets < 10 * (t.shrinkat + 1) }

  lemma Thresholds(s: Shape)
    requires s.Ok()
    ensures OneTenth(s) && (SixTenths(s) || ThreeQuarters(s)) && 4 * s.count <= 3 * s.nbuckets
  {
  }

  lemma RehashedBounds(s: Shape, n: nat)
    ensures SixTenths(Rehashed(s, n)) && OneTenth(Rehashed(s, n))
    ensures forall k: nat :: SixTenths(Rehashed(s, n).(count := k)) && OneTenth(Rehashed(s, n).(count := k))
  {
  }

  /** A new table is empty, of the rounded size, and grows at 6/10. */
  lemma NewBounds(want: nat)
    ensures var s := NewShape(want);
      s.nbuckets == s.cap == RoundUp(want) && s.count == 0 && s.growpower == 1 && SixTenths(s) && OneTenth(s)
  {
  }

  /** A set grows a table whose count has reached the threshold, and no other; without memory for it nothing changes. */
  lemma SetBounds(s: Shape, present: bool, allocOk: bool)
    requires s.Ok()
    ensures var e := SetEffect(s, present, allocOk);
      var t, full := e.shape, s.count == s.growat;
      && (full && allocOk ==> t.nbuckets == s.nbuckets * Pow2(s.growpower) && SixTenths(t) && OneTenth(t))
      && (!full || !allocOk ==> t.nbuckets == s.nbuckets && t.growat == s.growat && t.shrinkat == s.shrinkat)
      && t.count == (if present || (full && !allocOk) then s.count else s.count + 1)
      && t.cap == s.cap && e.oom == (full && !allocOk)
  {
    hide Pow2, SixTenths, OneTenth, GrowAt, ShrinkAt, IsPow2;
    RehashedBounds(s, s.nbuckets * Pow2(s.growpower));
  }

  /** A delete that finds its key halves a table above its floor capacity that is then a tenth full or less, and no
      other; without memory for it the table stays as large. */
  lemma DeleteBounds(s: Shape, present: bool, allocOk: bool)
    requires s.Ok()
    ensures var e := DeleteEffect(s, present, allocOk);
      var t := e.shape;
      var halves := present && s.count > 0 && s.nbuckets > s.cap && 10 * (s.count - 1) <= s.nbuckets && allocOk;
      && (halves ==> s.nbuckets == 2 * t.nbuckets && SixTenths(t) && OneTenth(t))
      && (!halves ==> t.nbuckets == s.nbuckets && t.growat == s.growat && t.shrinkat == s.shrinkat)
      && t.count == (if present && s.count > 0 then s.count - 1 else s.count)
      && t.cap == s.cap && !e.oom
  {
    hide SixTenths, GrowAt, ClearedGrowAt, IsPow2;
    Thresholds(s);
    if s.nbuckets > s.cap {
      HalfTarget(s);
      Halves(s);
      RehashedBounds(s.(count := if s.count > 0 then s.count - 1 else 0), s.nbuckets / 2);
    }
  }

  lemma Halves(s: Shape)
    requires s.Ok() && s.nbuckets > s.cap
    ensures s.nbuckets == 2 * (s.nbuckets / 2)
  {
    assert s.nbuckets % 2 == 0;
  }

  /** A clear empties the table and lets it grow at 3/4, at its present size or back at its floor capacity. */
  lemma ClearBounds(s: Shape, updateCap: bool)
    ensures var e := ClearEffect(s, updateCap);
      var t := e.shape;
      && t.count == 0 && ThreeQuarters(t) && OneTenth(t) && !e.oom
      && t.nbuckets == t.cap == (if updateCap then s.nbuckets else s.cap)
  {
  }

  lemma {:induction false} SixTenthsKept(s: Shape, run: seq<Call>)
    requires s.Ok() && SixTenths(s) && forall i | 0 <= i < |run| :: !run[i].ClearCall?
    ensures SixTenths(After(s, run)) && After(s, run).Ok()
    decreases |run|
  {
    if run != [] {
      DoKeepsOk(s, run[0]);
      SameThreshold(s, run[0]);
      hide Do, SixTenths;
      SixTenthsKept(Do(s, run[0]).shape, run[1..]);
    }
  }

  lemma SameThreshold(s: Shape, c: Call)
    requires s.Ok() && SixTenths(s) && !c.ClearCall?
    ensures SixTenths(Do(s, c).shape)
  {
    match c
    case SetCall(present, allocOk) => SetBounds(s, present, allocOk);
    case DeleteCall(present, allocOk) => DeleteBounds(s, present, allocOk);
  }

  /** The load of a table after any run of calls: never above 3/4, nor above 6/10 while it was never cleared; and when
      no allocation failed, above a tenth whenever it has more buckets than its floor capacity. */
  lemma LoadBounded(want: nat, run: seq<Call>)
    ensures var t := After(NewShape(want), run);
      && 4 * t.count <= 3 * t.nbuckets
      && ((forall i | 0 <= i < |run| :: !run[i].ClearCall?) ==> 10 * t.count <= 6 * t.nbuckets)
      && ((forall i | 0 <= i < |run| :: Allocates(run[i])) ==> t.nbuckets > t.cap ==> 10 * t.count > t.nbuckets)
  {
    var s := NewShape(want);
    NewOk(want);
    NewBounds(want);
    ReachableOk(s, run);
    Thresholds(After(s, run));
    if forall i | 0 <= i < |run| :: !run[i].ClearCall? {
      SixTenthsKept(s, run);
    }
    if forall i | 0 <= i < |run| :: Allocates(run[i]) {
      DenseRun(s, run);
    }
  }
}
